/** The names of table files and the order compaction sorts level 0 by. */
module Paths {
  import opened Bytes

  const ZERO: byte := 48
  const DASH: byte := 45
  const SUFFIX: Str := [46, 115, 115, 116]

  /** The level and number in a table's file name. */
  datatype Name = Name(level: nat, id: nat)

  /** %d. */
  function Decimal(n: nat): (s: Str)
    ensures s != []
  {
    if n < 10 then [ZERO + n] else Decimal(n / 10) + [ZERO + n % 10]
  }

  /** %08d. */
  function Padded(n: nat): Str {
    var d := Decimal(n);
    if |d| < 8 then seq(8 - |d|, _ => ZERO) + d else d
  }

  /** The base name of a table file: flush writes the number plainly, compaction pads it. */
  function FileName(n: Name): Str {
    Decimal(n.level) + ([DASH] + ((if n.level == 0 then Decimal(n.id) else Padded(n.id)) + SUFFIX))
  }

  function Pow10(k: nat): nat {
    if k == 0 then 1 else 10 * Pow10(k - 1)
  }

  lemma {:induction false} DigitCount(n: nat, k: nat)
    requires (k == 0 || Pow10(k) <= n) && n < Pow10(k + 1)
    ensures |Decimal(n)| == k + 1
    decreases k
  {
    if k > 0 {
      DigitCount(n / 10, k - 1);
    }
  }

  /** A difference inside equally long heads decides, whatever follows. */
  lemma {:induction false} LessExtends(p: Str, q: Str, x: Str, y: Str)
    requires |p| == |q| && Less(p, q)
    ensures Less(p + x, q + y)
    decreases |p|
  {
    assert p != [];
    if p[0] == q[0] {
      LessExtends(p[1..], q[1..], x, y);
      assert (p + x)[1..] == p[1..] + x && (q + y)[1..] == q[1..] + y;
    }
  }

  lemma {:induction false} LessAfterPrefix(p: Str, x: Str, y: Str)
    ensures Less(p + x, p + y) <==> Less(x, y)
    decreases |p|
  {
    if p == [] {
      assert p + x == x && p + y == y;
    } else {
      LessAfterPrefix(p[1..], x, y);
      assert (p + x)[1..] == p[1..] + x && (p + y)[1..] == p[1..] + y;
    }
  }

  lemma {:induction false} DecimalOrder(a: nat, b: nat)
    requires a < b && |Decimal(a)| == |Decimal(b)|
    ensures Less(Decimal(a), Decimal(b))
    decreases b
  {
    if b >= 10 {
      if a / 10 < b / 10 {
        DecimalOrder(a / 10, b / 10);
        LessExtends(Decimal(a / 10), Decimal(b / 10), [ZERO + a % 10], [ZERO + b % 10]);
      } else {
        LessAfterPrefix(Decimal(a / 10), [ZERO + a % 10], [ZERO + b % 10]);
      }
    }
  }

  /** Names of level-0 tables sort by number as long as the numbers have equally many digits. */
  lemma NameOrder(a: nat, b: nat, k: nat)
    requires a < b && Pow10(k) <= a && b < Pow10(k + 1)
    ensures Less(FileName(Name(0, a)), FileName(Name(0, b)))
  {
    hide Decimal;
    DigitCount(a, k);
    DigitCount(b, k);
    DecimalOrder(a, b);
    LessExtends(Decimal(a), Decimal(b), SUFFIX, SUFFIX);
    LessAfterPrefix([DASH], Decimal(a) + SUFFIX, Decimal(b) + SUFFIX);
    LessAfterPrefix(Decimal(0), [DASH] + (Decimal(a) + SUFFIX), [DASH] + (Decimal(b) + SUFFIX));
  }

  // ----- numbers of different length -----

  /** The number without its last `k` digits. */
  function Lead(n: nat, k: nat): nat {
    if k == 0 then n else Lead(n / 10, k - 1)
  }

  /** Its digits are the first of the number's, and what follows them are digits. */
  lemma {:induction false} LeadDigits(n: nat, k: nat) returns (tail: Str)
    requires k < |Decimal(n)|
    ensures Decimal(n) == Decimal(Lead(n, k)) + tail && |tail| == k && forall i :: 0 <= i < k ==> tail[i] >= ZERO
    decreases k
  {
    if k == 0 {
      tail := [];
      assert Decimal(n) == Decimal(n) + [];
    } else {
      var rest := LeadDigits(n / 10, k - 1);
      tail := rest + [ZERO + n % 10];
      assert Decimal(n) == Decimal(n / 10) + [ZERO + n % 10];
    }
  }

  lemma {:induction false} LeadAtLeast(a: nat, n: nat, k: nat)
    ensures a <= Lead(n, k) <==> a * Pow10(k) <= n
    decreases k
  {
    if k > 0 {
      LeadAtLeast(a, n / 10, k - 1);
      var m := a * Pow10(k - 1);
      assert a * Pow10(k) == 10 * m;
    }
  }

  lemma {:induction false} MoreDigits(a: nat, b: nat)
    requires a <= b
    ensures |Decimal(a)| <= |Decimal(b)|
    decreases b
  {
    if b >= 10 && a >= 10 {
      MoreDigits(a / 10, b / 10);
    }
  }

  lemma SuffixBeforeDigits(tail: Str)
    requires tail != [] && tail[0] >= ZERO
    ensures Less(SUFFIX, tail + SUFFIX)
  {
  }

  lemma DigitsDecide(a: nat, p: nat, tail: Str)
    requires |Decimal(a)| == |Decimal(p)| && forall i :: 0 <= i < |tail| ==> tail[i] >= ZERO
    requires a == p ==> tail != []
    ensures Less(Decimal(a) + SUFFIX, Decimal(p) + (tail + SUFFIX)) <==> a <= p
  {
    hide Decimal;
    if a < p {
      DecimalOrder(a, p);
      LessExtends(Decimal(a), Decimal(p), SUFFIX, tail + SUFFIX);
    } else if a == p {
      SuffixBeforeDigits(tail);
      LessAfterPrefix(Decimal(a), SUFFIX, tail + SUFFIX);
    } else {
      DecimalOrder(p, a);
      LessExtends(Decimal(p), Decimal(a), tail + SUFFIX, SUFFIX);
      LessAsymmetric(Decimal(p) + (tail + SUFFIX), Decimal(a) + SUFFIX);
    }
  }

  /** For any two numbers the smaller one's name sorts first exactly when it does not exceed the leading
      digits of the greater one: 9 and 10 sort the wrong way round, 1 and 10 do not. */
  lemma NameOrderExact(a: nat, b: nat)
    requires a < b
    ensures |Decimal(a)| <= |Decimal(b)|
    ensures Less(FileName(Name(0, a)), FileName(Name(0, b))) <==> a * Pow10(|Decimal(b)| - |Decimal(a)|) <= b
  {
    hide Decimal, Pow10;
    MoreDigits(a, b);
    var k := |Decimal(b)| - |Decimal(a)|;
    var tail := LeadDigits(b, k);
    LeadAtLeast(a, b, k);
    LeadOfNone(b);
    DigitsDecide(a, Lead(b, k), tail);
    assert Decimal(b) + SUFFIX == Decimal(Lead(b, k)) + (tail + SUFFIX);
    LessAfterPrefix([DASH], Decimal(a) + SUFFIX, Decimal(b) + SUFFIX);
    LessAfterPrefix(Decimal(0), [DASH] + (Decimal(a) + SUFFIX), [DASH] + (Decimal(b) + SUFFIX));
  }

  lemma LeadOfNone(n: nat)
    ensures Lead(n, 0) == n
  {
  }
}
