/**
 * The integration selector's `logLimit` setting: how many activity-log
 * entries are fetched per integration, and the check it must pass before
 * a resync uses it.
 */
module Selector {
  import opened Wrappers

  /** The largest accepted `logLimit`. */
  const MaxLogLimit: int := 300

  /** The value `logLimit` takes when the configuration leaves it out. */
  const DefaultLogLimit: int := 300

  /** The `ValueError` raised for a limit that is too large. */
  datatype ValidationError = ValueError(message: string)

  const TooLarge := ValueError("log_limit cannot be greater than 300")

  /** `IntegrationSelector.validate_log_limit`: hands the value back, or raises. */
  function ValidateLogLimit(v: int): (r: Result<int, ValidationError>)
    ensures r.Failure? <==> v > MaxLogLimit
    ensures r.Success? ==> r.value == v
    ensures r.Failure? ==> r.error == TooLarge
  {
    if v > MaxLogLimit then Failure(TooLarge) else Success(v)
  }

  /** Validating an accepted value again accepts it again, unchanged. */
  lemma ValidationIsIdempotent(v: int)
    requires ValidateLogLimit(v).Success?
    ensures ValidateLogLimit(ValidateLogLimit(v).value) == ValidateLogLimit(v)
  {
  }

  /** The default passes its own check. */
  lemma DefaultLogLimitIsValid()
    ensures ValidateLogLimit(DefaultLogLimit) == Success(DefaultLogLimit)
  {
  }

  /** 300 itself is accepted, and there is no lower bound: zero and negative limits pass. */
  lemma BoundaryValues()
    ensures ValidateLogLimit(MaxLogLimit) == Success(300)
    ensures ValidateLogLimit(MaxLogLimit + 1) == Failure(TooLarge)
    ensures ValidateLogLimit(0) == Success(0)
    ensures ValidateLogLimit(-1) == Success(-1)
  {
  }
}
