/** Bytes, Go strings as byte sequences, and the byte-wise order Go's `<` gives them. */
module Bytes {
  type byte = b: int | 0 <= b < 256

  type Str = seq<byte>

  /** The lexicographic order on strings. */
  predicate Less(a: Str, b: Str)
    decreases |a|
  {
    |b| > 0 && (|a| == 0 || a[0] < b[0] || (a[0] == b[0] && Less(a[1..], b[1..])))
  }

  predicate AtMost(a: Str, b: Str) {
    a == b || Less(a, b)
  }

  lemma {:induction false} LessIrreflexive(a: Str)
    ensures !Less(a, a)
    decreases |a|
  {
    if |a| > 0 {
      LessIrreflexive(a[1..]);
    }
  }

  lemma {:induction false} LessTransitive(a: Str, b: Str, c: Str)
    requires Less(a, b) && Less(b, c)
    ensures Less(a, c)
    decreases |a|
  {
    if |a| > 0 && a[0] == b[0] && b[0] == c[0] {
      LessTransitive(a[1..], b[1..], c[1..]);
    }
  }

  lemma LessAsymmetric(a: Str, b: Str)
    requires Less(a, b)
    ensures a != b && !Less(b, a)
  {
    LessIrreflexive(a);
    if Less(b, a) {
      LessTransitive(a, b, a);
    }
  }

  lemma {:induction false} LessTotal(a: Str, b: Str)
    ensures a == b || Less(a, b) || Less(b, a)
    decreases |a|
  {
    if |a| > 0 && |b| > 0 && a[0] == b[0] {
      LessTotal(a[1..], b[1..]);
      assert a == [a[0]] + a[1..] && b == [b[0]] + b[1..];
    }
  }

  /** `n` zero bytes. */
  function Zeros(n: nat): (z: Str)
    ensures |z| == n && forall i :: 0 <= i < n ==> z[i] == 0
  {
    seq(n, _ => 0)
  }
}
