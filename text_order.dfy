/**
 * The order Python's `<` puts on `str` values: code point by code point,
 * the first position where the two strings differ decides, and a proper
 * prefix comes before the longer string. Timestamps in the log records are
 * compared with this order, so it is defined here once and proved to be a
 * strict total order.
 */
module TextOrder {

  /** `a < b` on Python strings. */
  predicate Less(a: string, b: string)
    decreases |a|
  {
    |b| != 0 && (|a| == 0 || a[0] < b[0] || (a[0] == b[0] && Less(a[1..], b[1..])))
  }

  /** `a` and `b` agree on their first `k` characters and part ways at `k`, in favour of `b`. */
  ghost predicate FirstDifferenceAt(a: string, b: string, k: nat)
  {
    k <= |a| && k < |b| && a[..k] == b[..k] && (k == |a| || a[k] < b[k])
  }

  /** `Less` is exactly "the first difference favours `b`". */
  lemma {:induction false} LessIffFirstDifference(a: string, b: string)
    ensures Less(a, b) <==> exists k: nat :: FirstDifferenceAt(a, b, k)
    decreases |a|
  {
    if |b| == 0 {
      assert forall k: nat :: !FirstDifferenceAt(a, b, k);
    } else if |a| == 0 {
      assert FirstDifferenceAt(a, b, 0);
    } else if a[0] < b[0] {
      assert FirstDifferenceAt(a, b, 0);
    } else if a[0] != b[0] {
      assert forall k: nat :: !FirstDifferenceAt(a, b, k);
    } else {
      LessIffFirstDifference(a[1..], b[1..]);
      if Less(a, b) {
        var k: nat :| FirstDifferenceAt(a[1..], b[1..], k);
        assert a[..k + 1] == [a[0]] + a[1..][..k];
        assert b[..k + 1] == [b[0]] + b[1..][..k];
        assert FirstDifferenceAt(a, b, k + 1);
      }
      if exists k: nat :: FirstDifferenceAt(a, b, k) {
        var k: nat :| FirstDifferenceAt(a, b, k);
        assert a[1..][..k - 1] == a[..k][1..];
        assert b[1..][..k - 1] == b[..k][1..];
        assert FirstDifferenceAt(a[1..], b[1..], k - 1);
      }
    }
  }

  /** No string is below itself. */
  lemma {:induction false} LessIrreflexive(a: string)
    ensures !Less(a, a)
    decreases |a|
  {
    if |a| != 0 {
      LessIrreflexive(a[1..]);
    }
  }

  lemma {:induction false} LessTransitive(a: string, b: string, c: string)
    requires Less(a, b) && Less(b, c)
    ensures Less(a, c)
    decreases |a|
  {
    if |a| != 0 && a[0] == b[0] && b[0] == c[0] {
      LessTransitive(a[1..], b[1..], c[1..]);
    }
  }

  /** Two distinct strings are always ordered one way or the other. */
  lemma {:induction false} LessTotal(a: string, b: string)
    ensures a == b || Less(a, b) || Less(b, a)
    decreases |a|
  {
    if |a| != 0 && |b| != 0 && a[0] == b[0] {
      LessTotal(a[1..], b[1..]);
      if a[1..] == b[1..] {
        assert a == [a[0]] + a[1..] && b == [b[0]] + b[1..];
      }
    }
  }

  /** Never both ways round. */
  lemma LessAsymmetric(a: string, b: string)
    requires Less(a, b)
    ensures !Less(b, a)
  {
    if Less(b, a) {
      LessTransitive(a, b, a);
      LessIrreflexive(a);
    }
  }

  /** A proper prefix comes first, so "2024-01-01" is before "2024-01-01T00:00:00Z". */
  lemma {:induction false} ProperPrefixIsLess(a: string, b: string)
    requires |a| < |b| && a == b[..|a|]
    ensures Less(a, b)
    decreases |a|
  {
    if |a| != 0 {
      assert a[0] == b[0];
      assert a[1..] == b[1..][..|a| - 1];
      ProperPrefixIsLess(a[1..], b[1..]);
    }
  }

  /** The order is on text, not on numbers: "10" comes before "5". */
  lemma TextNotNumber()
    ensures Less("10", "5") && !Less("5", "10")
  {
  }
}
