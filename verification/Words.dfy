/** 64-bit words, the numbers they stand for, and rounding up to a power of two. The facts about
    bits are stated one small lemma each; everything else works from those. */
module Words {

  function Half(x: bv64): bv64 {
    x >> 1
  }

  predicate Odd(x: bv64) {
    x & 1 == 1
  }

  function Next(x: bv64): bv64 {
    x + 1
  }

  /** The number the lowest `n` bits of a word stand for. */
  function Low(x: bv64, n: nat): nat {
    if n == 0 then 0 else 2 * Low(Half(x), n - 1) + (if Odd(x) then 1 else 0)
  }

  /** The number a word stands for. */
  function Val(x: bv64): nat {
    Low(x, 64)
  }

  function Glued(h: bv64, odd: bool): bv64 {
    (h << 1) | (if odd then 1 else 0)
  }

  function LowWord(v: nat, n: nat): bv64 {
    if n == 0 then 0 else Glued(LowWord(v / 2, n - 1), v % 2 == 1)
  }

  /** The word of a number, its low 64 bits. */
  function Word(v: nat): bv64 {
    LowWord(v, 64)
  }

  /** Nothing of the word is left after `n` halvings. */
  ghost predicate Fits(x: bv64, n: nat) {
    if n == 0 then x == 0 else Fits(Half(x), n - 1)
  }

  lemma EightHalves(x: bv64)
    ensures Half(Half(Half(Half(Half(Half(Half(Half(x)))))))) == x >> 8
  {
  }

  lemma FitsMore(x: bv64, n: nat)
    requires Fits(x >> 8, n)
    ensures Fits(x, n + 8)
  {
    hide Half;
    EightHalves(x);
    var a := Half(Half(Half(Half(x))));
    assert Fits(Half(Half(a)), n + 2);
    assert Fits(a, n + 4);
    assert Fits(Half(Half(x)), n + 6);
  }

  lemma ShiftedOut(x: bv64)
    ensures ((((((((x >> 8) >> 8) >> 8) >> 8) >> 8) >> 8) >> 8) >> 8) == 0
  {
  }

  lemma Fits64(x: bv64)
    ensures Fits(x, 64)
  {
    hide Half;
    ShiftedOut(x);
    var a := x >> 8;
    var b := a >> 8;
    var c := b >> 8;
    var d := c >> 8;
    var e := d >> 8;
    var f := e >> 8;
    var g := f >> 8;
    FitsMore(g, 0);
    FitsMore(f, 8);
    FitsMore(e, 16);
    FitsMore(d, 24);
    FitsMore(c, 32);
    FitsMore(b, 40);
    FitsMore(a, 48);
    FitsMore(x, 56);
  }

  lemma JoinHalves(x: bv64)
    ensures Glued(Half(x), Odd(x)) == x
  {
  }

  lemma {:induction false} LowWordOfLow(x: bv64, n: nat)
    requires Fits(x, n)
    ensures LowWord(Low(x, n), n) == x
    decreases n
  {
    hide Half, Odd, Glued;
    if n > 0 {
      LowWordOfLow(Half(x), n - 1);
      JoinHalves(x);
    }
  }

  /** A word is read back from its number, and the number is below 2^64. */
  lemma WordOfVal(x: bv64)
    ensures Word(Val(x)) == x && Val(x) < 0x1_0000_0000_0000_0000
  {
    hide Fits;
    Fits64(x);
    LowWordOfLow(x, 64);
    LowBound(x, 64);
    assert Pow2(48) == Pow2(16) * Pow2(16) * Pow2(16) && Pow2(16) == 65536 by {
      Pow2Sum(16, 16);
      Pow2Sum(32, 16);
      Pow2Of16();
    }
    Pow2Sum(48, 16);
  }

  function Pow2(n: nat): (p: nat)
    ensures p > 0
  {
    if n == 0 then 1 else 2 * Pow2(n - 1)
  }

  lemma TwiceAsMuch(size: nat, k: nat)
    requires size > 0 && k > 0
    ensures size * Pow2(k) == (2 * size) * Pow2(k - 1) == 2 * (size * Pow2(k - 1))
    ensures size * Pow2(k - 1) >= size
  {
    var p := Pow2(k - 1);
    assert Pow2(k) == 2 * p;
    assert size * (2 * p) == 2 * (size * p);
  }

  lemma {:induction false} Pow2Sum(a: nat, b: nat)
    ensures Pow2(a + b) == Pow2(a) * Pow2(b)
    decreases a
  {
    if a > 0 {
      Pow2Sum(a - 1, b);
      assert Pow2(a + b) == 2 * Pow2(a - 1 + b);
    }
  }

  lemma Pow2Of16()
    ensures Pow2(16) == 65536
  {
    assert Pow2(4) == 16;
    Pow2Sum(4, 4);
    Pow2Sum(8, 8);
  }

  lemma {:induction false} LowBound(x: bv64, n: nat)
    ensures Low(x, n) < Pow2(n)
    decreases n
  {
    hide Half, Odd;
    if n > 0 {
      LowBound(Half(x), n - 1);
    }
  }

  predicate Subset(x: bv64, m: bv64) {
    x & m == x
  }

  lemma SubsetHalves(x: bv64, m: bv64)
    requires Subset(x, m)
    ensures Subset(Half(x), Half(m))
    ensures Odd(x) ==> Odd(m)
  {
  }

  /** A word with a subset of another's bits stands for no greater number. */
  lemma {:induction false} LowOfSubset(x: bv64, m: bv64, n: nat)
    requires Subset(x, m)
    ensures Low(x, n) <= Low(m, n)
    decreases n
  {
    hide Half, Odd, Subset;
    if n > 0 {
      SubsetHalves(x, m);
      LowOfSubset(Half(x), Half(m), n - 1);
    }
  }

  lemma NextHalves(x: bv64)
    requires Next(x) != 0
    ensures !Odd(x) ==> Odd(Next(x)) && Half(Next(x)) == Half(x)
    ensures Odd(x) ==> !Odd(Next(x)) && Half(Next(x)) == Next(Half(x)) && Next(Half(x)) != 0
  {
  }

  lemma {:induction false} LowOfNext(x: bv64, n: nat)
    requires Next(x) != 0 && Fits(Next(x), n)
    ensures Low(Next(x), n) == Low(x, n) + 1
    decreases n
  {
    hide Half, Odd, Next;
    NextHalves(x);
    if Odd(x) {
      LowOfNext(Half(x), n - 1);
    }
  }

  lemma {:induction false} LowWithOneMore(x: bv64, n: nat)
    requires Fits(x, n)
    ensures Low(x, n + 1) == Low(x, n)
    decreases n
  {
    hide Half, Odd;
    if n > 0 {
      LowWithOneMore(Half(x), n - 1);
    } else {
      ZeroIsEven();
    }
  }

  lemma ZeroIsEven()
    ensures !Odd(0)
  {
  }

  lemma ValHalf(x: bv64)
    ensures Val(Half(x)) == Val(x) / 2
  {
    hide Half, Odd;
    Fits64(x);
    LowWithOneMore(Half(x), 63);
  }

  lemma SixShifts(x: bv64)
    ensures x / 64 == Half(Half(Half(Half(Half(Half(x))))))
  {
  }

  lemma SixHalves(v: nat)
    ensures v / 2 / 2 / 2 / 2 / 2 / 2 == v / 64
  {
  }

  lemma ValDiv64(x: bv64)
    ensures Val(x / 64) == Val(x) / 64
  {
    hide Val, Half;
    SixShifts(x);
    ValHalf(x);
    ValHalf(Half(x));
    ValHalf(Half(Half(x)));
    ValHalf(Half(Half(Half(x))));
    ValHalf(Half(Half(Half(Half(x)))));
    ValHalf(Half(Half(Half(Half(Half(x))))));
    SixHalves(Val(x));
  }

  /** A position in a bit array of `n` bits. */
  function Masked(x: bv64, n: bv64): bv64 {
    x & (n - 1)
  }

  /** The bit count of a filter: a positive number of whole words. */
  predicate WholeWords(n: bv64) {
    n != 0 && n % 64 == 0
  }

  lemma MaskBits(x: bv64, n: bv64)
    requires WholeWords(n)
    ensures Subset(Masked(x, n) / 64, (n - 1) / 64)
    ensures Next((n - 1) / 64) == n / 64 && n / 64 != 0
  {
  }

  lemma ValOfNext(x: bv64)
    requires Next(x) != 0
    ensures Val(Next(x)) == Val(x) + 1
  {
    hide Low, Next, Fits;
    Fits64(Next(x));
    LowOfNext(x, 64);
  }

  lemma MaskedBelow(x: bv64, m: bv64)
    requires Subset(x, m) && Next(m) != 0
    ensures Val(x) < Val(Next(m))
  {
    hide Low, Next, Subset;
    LowOfSubset(x, m, 64);
    ValOfNext(m);
  }

  /** A masked position lies in one of the n / 64 words. */
  lemma MaskedInRange(x: bv64, n: bv64)
    requires WholeWords(n)
    ensures Val(Masked(x, n) / 64) < Val(n) / 64
  {
    hide Val, Next, Masked, Subset, WholeWords;
    MaskBits(x, n);
    MaskedBelow(Masked(x, n) / 64, (n - 1) / 64);
    ValDiv64(n);
  }

  // ----- the least power of two that is not less -----

  predicate IsPow2(x: bv64) {
    x != 0 && x & (x - 1) == 0
  }

  /** v | v >> k */
  function Spread(v: bv64, k: bv7): bv64
    requires k <= 64
  {
    v | (v >> k)
  }

  function Smear(x: bv64): bv64 {
    Spread(Spread(Spread(Spread(Spread(Spread(x, 1), 2), 4), 8), 16), 32)
  }

  lemma SmearIsFull(x: bv64)
    ensures Smear(x) & Next(Smear(x)) == 0
  {
  }

  lemma SmearCovers(x: bv64)
    ensures x <= Smear(x)
  {
  }

  lemma SmearIsTight(x: bv64)
    ensures if x == 0 then Smear(x) == 0 else Half(Smear(x)) < x
  {
  }

  /** `s` is all ones from the highest one of `x` down. */
  ghost predicate Filled(x: bv64, s: bv64) {
    s & Next(s) == 0 && x <= s && if x == 0 then s == 0 else Half(s) < x
  }

  lemma FilledPlusOne(v: bv64, s: bv64)
    requires v != 0 && Filled(v - 1, s)
    ensures Next(s) == 0 <==> v > 0x8000_0000_0000_0000
    ensures Next(s) != 0 ==> IsPow2(Next(s)) && v <= Next(s)
  {
  }

  lemma PowerAbove(v: bv64, s: bv64, p: bv64)
    requires v != 0 && Filled(v - 1, s)
    requires IsPow2(p) && v <= p
    ensures Next(s) <= p
  {
  }

  /** `r` is the least power of two not below `v`, or zero when that would need 65 bits. */
  ghost predicate RoundedUp(v: bv64, r: bv64) {
    && (r == 0 <==> v > 0x8000_0000_0000_0000)
    && (r != 0 ==> IsPow2(r) && v <= r)
    && forall p: bv64 :: IsPow2(p) && v <= p ==> r <= p
  }

  lemma RoundUp(v0: bv64)
    requires v0 != 0
    ensures RoundedUp(v0, Next(Smear(v0 - 1)))
  {
    hide IsPow2, Smear, Filled, Next;
    SmearFills(v0 - 1);
    FilledPlusOne(v0, Smear(v0 - 1));
    forall p: bv64 | IsPow2(p) && v0 <= p ensures Next(Smear(v0 - 1)) <= p {
      PowerAbove(v0, Smear(v0 - 1), p);
    }
  }

  lemma RoundUpZero()
    ensures RoundedUp(0, 1)
  {
  }

  function PowerFor(v: bv64): bv64 {
    if v == 0 then 1 else Next(Smear(v - 1))
  }

  lemma PowerForRoundsUp(v: bv64)
    ensures RoundedUp(v, PowerFor(v))
  {
    hide RoundedUp, Smear;
    if v == 0 {
      RoundUpZero();
    } else {
      RoundUp(v);
    }
  }

  // ----- how far rounding up goes -----

  lemma HalvesInOrder(x: bv64, y: bv64)
    requires x >> 1 < y >> 1
    ensures x < y
  {
  }

  lemma OddAbove(x: bv64, y: bv64)
    requires x < y && x >> 1 == y >> 1
    ensures !Odd(x) && Odd(y)
  {
  }

  lemma OrderHalves(x: bv64, y: bv64)
    requires x < y
    ensures Half(x) < Half(y) || (Half(x) == Half(y) && !Odd(x) && Odd(y))
  {
    hide Odd;
    if Half(x) == Half(y) {
      OddAbove(x, y);
    } else if Half(y) < Half(x) {
      HalvesInOrder(y, x);
    }
  }

  lemma FitsNothing(x: bv64, y: bv64)
    requires x < y && Fits(x, 0)
    ensures !Fits(y, 0)
  {
  }

  lemma FitsHalf(x: bv64, n: nat)
    requires n > 0 && Fits(x, n)
    ensures Fits(Half(x), n - 1)
  {
    hide Half;
  }

  /** The order of words is the order of the numbers they stand for. */
  lemma {:induction false} LowOrder(x: bv64, y: bv64, n: nat)
    requires x < y && Fits(x, n) && Fits(y, n)
    ensures Low(x, n) < Low(y, n)
    decreases n
  {
    hide Half, Odd, Fits;
    if n == 0 {
      FitsNothing(x, y);
    } else {
      OrderHalves(x, y);
      FitsHalf(x, n);
      FitsHalf(y, n);
      if Half(x) < Half(y) {
        LowOrder(Half(x), Half(y), n - 1);
      }
    }
  }

  lemma PowerHalves(p: bv64)
    requires IsPow2(p) && p != 1
    ensures IsPow2(Half(p)) && Half(p) < p
  {
  }

  lemma ValOfSmallest()
    ensures Val(0) == 0 && Val(1) <= 1
  {
    hide Val;
    ZeroVal();
    HalfOfOne();
    ValHalf(1);
  }

  lemma ZeroVal()
    ensures Val(0) == 0
  {
    ZeroWord(64);
  }

  lemma HalfOfOne()
    ensures Half(1) == 0
  {
  }

  /** Rounding up at most doubles. */
  lemma PowerForBound(v: bv64)
    ensures Val(PowerFor(v)) <= 2 * Val(v) + 1
  {
    hide Val, IsPow2, Half, PowerFor;
    PowerForRoundsUp(v);
    ValOfSmallest();
    var r := PowerFor(v);
    if r != 0 && r != 1 {
      PowerHalves(r);
      ValHalf(r);
      Fits64(Half(r));
      Fits64(v);
      HalfIsBelow(Half(r), v);
    }
  }

  lemma HalfIsBelow(p: bv64, v: bv64)
    requires !(v <= p)
    ensures Val(p) < Val(v)
  {
    Fits64(p);
    Fits64(v);
    LowOrder(p, v, 64);
  }

  /** nextPowerOf2. */
  method NextPowerOf2(v0: bv64) returns (r: bv64)
    ensures r == PowerFor(v0) && RoundedUp(v0, r)
  {
    hide RoundedUp, Smear;
    PowerForRoundsUp(v0);
    if v0 == 0 {
      return 1;
    }
    var v := SmearDown(v0 - 1);
    r := v + 1;
  }

  lemma BelowTopBit(x: bv64)
    requires IsPow2(x) && x != 0x8000_0000_0000_0000
    ensures Half(x << 1) == x
  {
  }

  /** A power of two stands for at most 2^63. */
  lemma PowerBound(x: bv64)
    requires IsPow2(x)
    ensures Val(x) <= 0x8000_0000_0000_0000
  {
    hide Val, IsPow2, Half, Next;
    if x != 0x8000_0000_0000_0000 {
      BelowTopBit(x);
      ValHalf(x << 1);
      WordOfVal(x << 1);
    } else {
      var y := 0x7FFF_FFFF_FFFF_FFFF as bv64;
      TopBit();
      ValOfNext(y);
      ValHalf(y << 1);
      WordOfVal(y << 1);
    }
  }

  lemma TopBit()
    ensures Next(0x7FFF_FFFF_FFFF_FFFF) == 0x8000_0000_0000_0000
    ensures Half((0x7FFF_FFFF_FFFF_FFFF as bv64) << 1) == 0x7FFF_FFFF_FFFF_FFFF
  {
  }

  lemma PowersAreWholeWords(r: bv64)
    requires IsPow2(r) && r >= 64
    ensures WholeWords(r)
  {
  }

  lemma SmearFills(x: bv64)
    ensures Filled(x, Smear(x))
  {
    hide Smear;
    SmearIsFull(x);
    SmearCovers(x);
    SmearIsTight(x);
  }

  method SmearDown(x: bv64) returns (v: bv64)
    ensures v == Smear(x)
  {
    hide Spread;
    v := x;
    v := Spread(v, 1);
    v := Spread(v, 2);
    v := Spread(v, 4);
    v := Spread(v, 8);
    v := Spread(v, 16);
    v := Spread(v, 32);
  }

  lemma {:induction false} ZeroWord(n: nat)
    ensures LowWord(0, n) == 0 && Low(0, n) == 0
    decreases n
  {
    if n > 0 {
      ZeroWord(n - 1);
      HalvesOfZero();
    }
  }

  lemma HalvesOfZero()
    ensures Half(0) == 0 && !Odd(0) && Glued(0, false) == 0
  {
  }

  /** The filter of a compaction output is sized for 100000 keys at 10 bits each: one million. */
  lemma WordOfMillion()
    ensures Word(1_000_000) == 1_000_000
  {
    ZeroWord(44);
    assert LowWord(1, 45) == 1;
    assert LowWord(7, 47) == 7;
    assert LowWord(30, 49) == 30;
    assert LowWord(122, 51) == 122;
    assert LowWord(488, 53) == 488;
    assert LowWord(1953, 55) == 1953;
    assert LowWord(7812, 57) == 7812;
    assert LowWord(31250, 59) == 31250;
    assert LowWord(125000, 61) == 125000;
    assert LowWord(500000, 63) == 500000;
  }

  lemma ValOfPower20()
    ensures Val(0x10_0000) == 0x10_0000
  {
    ZeroWord(43);
    assert Low(1, 44) == 1;
    assert Low(4, 46) == 4;
    assert Low(16, 48) == 16;
    assert Low(64, 50) == 64;
    assert Low(256, 52) == 256;
    assert Low(1024, 54) == 1024;
    assert Low(4096, 56) == 4096;
    assert Low(16384, 58) == 16384;
    assert Low(65536, 60) == 65536;
    assert Low(262144, 62) == 262144;
  }

  lemma MillionRoundsTo(r: bv64)
    requires IsPow2(r) && 1_000_000 <= r <= 0x10_0000
    ensures r == 0x10_0000
  {
  }

  lemma MillionPower()
    ensures IsPow2(0x10_0000)
  {
  }

  // ----- the word of a number, and its bytes -----

  lemma {:induction false} FitsAtMost(x: bv64, m: nat, n: nat)
    requires Fits(x, m) && m <= n
    ensures Fits(x, n)
    decreases n
  {
    hide Half;
    if m > 0 {
      FitsAtMost(Half(x), m - 1, n - 1);
    } else if n > 0 {
      HalvesOfZero();
      FitsAtMost(0, 0, n - 1);
    }
  }

  lemma FitsTwice(x: bv64, n: nat)
    requires Fits(x, n + 2)
    ensures Fits(Half(Half(x)), n)
  {
    hide Half;
    assert Fits(Half(x), n + 1);
  }

  lemma FitsShifted(x: bv64, n: nat)
    requires Fits(x, n + 8)
    ensures Fits(x >> 8, n)
  {
    hide Half, Fits;
    EightHalves(x);
    var a := Half(Half(x));
    var b := Half(Half(a));
    FitsTwice(x, n + 6);
    FitsTwice(a, n + 4);
    FitsTwice(b, n + 2);
    FitsTwice(Half(Half(b)), n);
  }

  lemma ShiftedBytes(x: bv64)
    ensures (((((((x >> 8) >> 8) >> 8) >> 8) >> 8) >> 8) >> 8) == x >> 56
  {
  }

  lemma TopBitShifted(x: bv64)
    requires Half(Half(Half(Half(Half(Half(Half(x >> 56))))))) == 0
    ensures x < 0x8000_0000_0000_0000
  {
    assert x >> 63 == 0;
  }

  lemma Fits63(x: bv64)
    requires Fits(x, 63)
    ensures x < 0x8000_0000_0000_0000
  {
    hide Half;
    var a := x >> 8;
    var b := a >> 8;
    var c := b >> 8;
    var d := c >> 8;
    var e := d >> 8;
    var f := e >> 8;
    FitsShifted(x, 55);
    FitsShifted(a, 47);
    FitsShifted(b, 39);
    FitsShifted(c, 31);
    FitsShifted(d, 23);
    FitsShifted(e, 15);
    FitsShifted(f, 7);
    ShiftedBytes(x);
    FitsSeven(f >> 8);
    TopBitShifted(x);
  }

  lemma FitsSeven(y: bv64)
    requires Fits(y, 7)
    ensures Half(Half(Half(Half(Half(Half(Half(y))))))) == 0
  {
    hide Half;
    FitsTwice(y, 5);
    FitsTwice(Half(Half(y)), 3);
    FitsTwice(Half(Half(Half(Half(y)))), 1);
  }

  lemma GluedHalves(h: bv64, odd: bool)
    requires h < 0x8000_0000_0000_0000
    ensures Half(Glued(h, odd)) == h && Odd(Glued(h, odd)) == odd
  {
  }

  lemma {:induction false} LowOfWord(v: nat, n: nat)
    requires v < Pow2(n) && n <= 64
    ensures Fits(LowWord(v, n), n) && Low(LowWord(v, n), n) == v
    decreases n
  {
    hide Half, Odd, Glued;
    if n > 0 {
      var h := LowWord(v / 2, n - 1);
      LowOfWord(v / 2, n - 1);
      FitsAtMost(h, n - 1, 63);
      Fits63(h);
      GluedHalves(h, v % 2 == 1);
    }
  }

  lemma Pow2Of64()
    ensures Pow2(8) == 256 && Pow2(64) == 0x1_0000_0000_0000_0000
  {
    Pow2Of16();
    assert Pow2(4) == 16;
    Pow2Sum(4, 4);
    Pow2Sum(16, 16);
    Pow2Sum(32, 32);
  }

  /** A number below 2^64 is read back from its word. */
  lemma ValOfWord(v: nat)
    requires v < 0x1_0000_0000_0000_0000
    ensures Val(Word(v)) == v
  {
    Pow2Of64();
    LowOfWord(v, 64);
  }

  /** `k` one bits. */
  function Ones(k: nat): bv64 {
    if k == 0 then 0 else Glued(Ones(k - 1), true)
  }

  function Common(x: bv64, m: bv64): bv64 {
    x & m
  }

  lemma MaskHalves(x: bv64, m: bv64)
    ensures Half(Common(x, Glued(m, true))) == Common(Half(x), m) && Odd(Common(x, Glued(m, true))) == Odd(x)
  {
  }

  lemma NoMask(x: bv64)
    ensures Common(x, 0) == 0
  {
  }

  lemma DoubledRest(a: nat, p: nat, odd: nat)
    requires p > 0 && odd <= 1
    ensures 2 * (a % p) + odd == (2 * a + odd) % (2 * p)
  {
    var q, r := a / p, a % p;
    assert a == p * q + r;
    assert 2 * a + odd == (2 * p) * q + (2 * r + odd);
    RestIs(2 * a + odd, 2 * p, q, 2 * r + odd);
  }

  lemma RestIs(x: nat, m: nat, q: nat, r: nat)
    requires x == m * q + r && r < m
    ensures x % m == r
  {
    var d := x / m - q;
    assert m * d == r - x % m;
    WholeMultiples(m, d);
  }

  lemma WholeMultiples(m: nat, d: int)
    ensures d >= 1 ==> m * d >= m
    ensures d <= -1 ==> m * d <= 0 - m
  {
  }

  lemma {:induction false} LowMasked(x: bv64, k: nat, n: nat)
    requires k <= n
    ensures Low(Common(x, Ones(k)), n) == Low(x, n) % Pow2(k)
    decreases n
  {
    hide Half, Odd, Glued, Common;
    if k == 0 {
      NoMask(x);
      ZeroWord(n);
    } else {
      MaskHalves(x, Ones(k - 1));
      LowMasked(Half(x), k - 1, n - 1);
      DoubledRest(Low(Half(x), n - 1), Pow2(k - 1), if Odd(x) then 1 else 0);
    }
  }

  lemma EightOnes()
    ensures Ones(8) == 0xFF
  {
    assert Ones(2) == 3;
    assert Ones(4) == 15;
    assert Ones(6) == 63;
  }

  /** The lowest byte of a word. */
  function LowByte(x: bv64): bv64 {
    x & 0xFF
  }

  /** The word without its lowest byte. */
  function AboveByte(x: bv64): bv64 {
    x >> 8
  }

  lemma ByteOfVal(x: bv64)
    ensures Val(LowByte(x)) == Val(x) % 256 && Val(AboveByte(x)) == Val(x) / 256
  {
    hide Half, Odd, Low;
    EightOnes();
    Pow2Of64();
    LowMasked(x, 8, 64);
    EightHalves(x);
    ValHalf(x);
    ValHalf(Half(x));
    ValHalf(Half(Half(x)));
    ValHalf(Half(Half(Half(x))));
    ValHalf(Half(Half(Half(Half(x)))));
    ValHalf(Half(Half(Half(Half(Half(x))))));
    ValHalf(Half(Half(Half(Half(Half(Half(x)))))));
    ValHalf(Half(Half(Half(Half(Half(Half(Half(x))))))));
    SixHalves(Val(x));
  }

  // ----- rounding up, in numbers -----

  predicate NoMore(x: bv64, y: bv64) {
    x <= y
  }

  predicate Under(x: bv64, y: bv64) {
    x < y
  }

  lemma OddIsAbove(x: bv64, y: bv64)
    requires Half(x) == Half(y) && !Odd(x) && Odd(y)
    ensures Under(x, y)
  {
  }

  lemma HalfBelow(x: bv64, y: bv64)
    ensures Under(Half(x), Half(y)) ==> Under(x, y)
  {
    if x >> 1 < y >> 1 {
      HalvesInOrder(x, y);
    }
  }

  lemma {:induction false} Trichotomy(x: bv64, y: bv64, n: nat)
    requires Fits(x, n) && Fits(y, n) && !Under(x, y) && !Under(y, x)
    ensures x == y
    decreases n
  {
    hide Half, Odd, Under;
    if n > 0 {
      HalfBelow(x, y);
      HalfBelow(y, x);
      Trichotomy(Half(x), Half(y), n - 1);
      JoinHalves(x);
      JoinHalves(y);
      if Odd(x) != Odd(y) {
        if Odd(x) {
          OddIsAbove(y, x);
        } else {
          OddIsAbove(x, y);
        }
      }
    }
  }

  lemma NeitherLess(x: bv64, y: bv64)
    requires NoMore(x, y) && NoMore(y, x)
    ensures !Under(x, y) && !Under(y, x)
  {
  }

  lemma ValStrict(x: bv64, y: bv64)
    requires !NoMore(y, x)
    ensures Val(x) < Val(y)
  {
    hide Val;
    HalfIsBelow(x, y);
  }

  /** Words and the numbers they stand for are ordered alike. */
  lemma ValOrder(x: bv64, y: bv64)
    ensures NoMore(x, y) <==> Val(x) <= Val(y)
  {
    hide Val, NoMore, Fits, Under;
    if !NoMore(x, y) {
      ValStrict(y, x);
    } else if !NoMore(y, x) {
      ValStrict(x, y);
    } else {
      NeitherLess(x, y);
      Fits64(x);
      Fits64(y);
      Trichotomy(x, y, 64);
    }
  }

  const TOP: bv64 := 0x8000_0000_0000_0000

  lemma ValOf128()
    ensures Val(128) == 128
  {
    ZeroWord(56);
    assert Low(1, 57) == 1;
    assert Low(4, 59) == 4;
    assert Low(16, 61) == 16;
    assert Low(64, 63) == 64;
  }

  lemma ZeroByteBelow(x: bv64, y: bv64)
    requires LowByte(x) == 0 && AboveByte(x) == y
    ensures Val(x) == 256 * Val(y)
  {
    hide Val, LowByte, AboveByte;
    ByteOfVal(x);
    ZeroVal();
  }

  lemma TopBytes()
    ensures LowByte(TOP) == 0 && AboveByte(TOP) == 0x80_0000_0000_0000
    ensures LowByte(0x80_0000_0000_0000) == 0 && AboveByte(0x80_0000_0000_0000) == 0x8000_0000_0000
    ensures LowByte(0x8000_0000_0000) == 0 && AboveByte(0x8000_0000_0000) == 0x80_0000_0000
    ensures LowByte(0x80_0000_0000) == 0 && AboveByte(0x80_0000_0000) == 0x8000_0000
    ensures LowByte(0x8000_0000) == 0 && AboveByte(0x8000_0000) == 0x80_0000
    ensures LowByte(0x80_0000) == 0 && AboveByte(0x80_0000) == 0x8000
    ensures LowByte(0x8000) == 0 && AboveByte(0x8000) == 0x80
  {
  }

  lemma ValOfTop()
    ensures Val(TOP) == 0x8000_0000_0000_0000
  {
    hide Val, LowByte, AboveByte;
    TopBytes();
    ValOf128();
    ZeroByteBelow(0x8000, 0x80);
    ZeroByteBelow(0x80_0000, 0x8000);
    ZeroByteBelow(0x8000_0000, 0x80_0000);
    ZeroByteBelow(0x80_0000_0000, 0x8000_0000);
    ZeroByteBelow(0x8000_0000_0000, 0x80_0000_0000);
    ZeroByteBelow(0x80_0000_0000_0000, 0x8000_0000_0000);
    ZeroByteBelow(TOP, 0x80_0000_0000_0000);
  }

  lemma PowerIsEven(p: bv64)
    requires IsPow2(p) && p != 1
    ensures !Odd(p)
  {
  }

  lemma ValDoubled(x: bv64)
    requires !Odd(x)
    ensures Val(x) == 2 * Val(Half(x))
  {
    hide Half, Odd;
    Fits64(x);
    LowWithOneMore(Half(x), 63);
  }

  lemma ZeroRounded()
    ensures Word(0) == 0 && PowerFor(0) == 1
  {
    hide LowWord;
    ZeroWord(64);
  }

  lemma RoundedNoMore(w: bv64, r: bv64)
    requires RoundedUp(w, r)
    ensures (r == 0 <==> !NoMore(w, TOP)) && (r != 0 ==> IsPow2(r) && NoMore(w, r))
  {
    hide IsPow2;
  }

  lemma RoundedLeast(w: bv64, r: bv64, p: bv64)
    requires RoundedUp(w, r) && IsPow2(p) && NoMore(w, p)
    ensures NoMore(r, p)
  {
    hide IsPow2;
  }

  lemma HalfIsLess(p: bv64)
    requires IsPow2(p) && p != 1
    ensures IsPow2(Half(p)) && !NoMore(p, Half(p))
  {
    PowerHalves(p);
  }

  lemma PowerForFacts(w: bv64)
    ensures var r := PowerFor(w);
      && (r == 0 <==> !NoMore(w, TOP)) && (r != 0 ==> IsPow2(r) && NoMore(w, r))
      && (r != 0 && r != 1 ==> !NoMore(w, Half(r)))
  {
    hide IsPow2, Half, PowerFor, NoMore, RoundedUp;
    PowerForRoundsUp(w);
    var r := PowerFor(w);
    RoundedNoMore(w, r);
    if r != 0 && r != 1 {
      HalfIsLess(r);
      if NoMore(w, Half(r)) {
        RoundedLeast(w, r, Half(r));
      }
    }
  }

  /** Rounding a number up gives a power of two that is not below it and, but for 0, below twice the number; above
      2^63 it gives zero. */
  lemma PowerForNumber(v: nat)
    requires v < 0x1_0000_0000_0000_0000
    ensures var r := PowerFor(Word(v));
      if v > 0x8000_0000_0000_0000 then r == 0
      else IsPow2(r) && v <= Val(r) && if v == 0 then r == 1 else Val(r) < 2 * v
  {
    hide Val, Word, IsPow2, Half, PowerFor, Odd, NoMore;
    var w := Word(v);
    var r := PowerFor(w);
    ValOfWord(v);
    ZeroRounded();
    PowerForFacts(w);
    ValOfTop();
    ValOrder(w, TOP);
    if r != 0 {
      ValOrder(w, r);
      if r == 1 {
        ValOfSmallest();
      } else {
        PowerIsEven(r);
        ValDoubled(r);
        ValOrder(w, Half(r));
      }
    }
  }
}
