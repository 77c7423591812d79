/** Option and Result, the two failure-carrying wrappers the rest of the model uses. */
module Wrappers {

  /** A value that may be absent: a JSON key that is missing or null. */
  datatype Option<+T> = None | Some(value: T)

  /** A value or the error that was raised instead of returning it. */
  datatype Result<+R, +E> = Success(value: R) | Failure(error: E)
}
