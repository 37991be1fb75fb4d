/** The 64-bit FNV-1a hash of the filter, and what its low bits do on zero bytes. */
module Hashing {
  import opened Bytes

  const FNV_OFFSET: bv64 := 14695981039346656037
  const FNV_PRIME: bv64 := 1099511628211

  function FnvStep(h: bv64, b: byte): bv64 {
    (h ^ (b as bv64)) * FNV_PRIME
  }

  function Fnv(h: bv64, data: Str): bv64
    decreases |data|
  {
    if data == [] then h else Fnv(FnvStep(h, data[0]), data[1..])
  }

  /** FNV-1a, 64 bits. */
  function Fnv1a(data: Str): bv64 {
    Fnv(FNV_OFFSET, data)
  }

  lemma FnvByte(h: bv64, b: byte, rest: Str)
    ensures Fnv(h, [b] + rest) == Fnv(FnvStep(h, b), rest)
  {
    hide FnvStep;
    assert ([b] + rest)[1..] == rest;
  }

  /** The hash of "LSM", which the second hash starts with. */
  lemma StepsOfLsm()
    ensures FnvStep(FNV_OFFSET, 76) == 0xaf64014c86022b6b
    ensures FnvStep(0xaf64014c86022b6b, 83) == 0x09196d07b5af7028
    ensures FnvStep(0x09196d07b5af7028, 77) == 0x25a4a919b91bfb9f
  {
  }

  function Low6(h: bv64): bv64 {
    h & 63
  }

  lemma ZeroBits(h: bv64, w: bv64)
    requires w == 0
    ensures ((h ^ w) * FNV_PRIME) & 63 == ((h & 63) * 51) & 63
    ensures h & 511 == 256 ==> ((h ^ w) * FNV_PRIME) & 511 == 256
  {
  }

  function Turn(x: bv64): bv64 {
    (x * 51) & 63
  }

  /** What `n` zero bytes do to the low six bits. */
  function Turned(x: bv64, n: nat): bv64
    decreases n
  {
    if n == 0 then x else Turned(Turn(x), n - 1)
  }

  lemma StepLow(h: bv64)
    ensures Low6(FnvStep(h, 0)) == Turn(Low6(h))
    ensures h & 511 == 256 ==> FnvStep(h, 0) & 511 == 256
  {
    ZeroBits(h, 0 as byte as bv64);
  }

  lemma {:induction false} FnvZeros(h: bv64, n: nat)
    ensures Low6(Fnv(h, Zeros(n))) == Turned(Low6(h), n)
    decreases n
  {
    hide Low6, FnvStep, Turn;
    if n > 0 {
      StepLow(h);
      assert Zeros(n)[1..] == Zeros(n - 1);
      FnvZeros(FnvStep(h, 0), n - 1);
    }
  }

  /** A hash whose low nine bits are 256 keeps them over zero bytes: it stays a multiple of 64, and is
      never zero. */
  lemma {:induction false} FnvZerosKeep(h: bv64, n: nat)
    requires h & 511 == 256
    ensures Fnv(h, Zeros(n)) & 511 == 256
    decreases n
  {
    hide Low6, FnvStep, Turn;
    if n > 0 {
      StepLow(h);
      assert Zeros(n)[1..] == Zeros(n - 1);
      FnvZerosKeep(FnvStep(h, 0), n - 1);
    }
  }

  lemma FourTurns(x: bv64)
    ensures Turned(x, 4) == Turn(Turn(Turn(Turn(x))))
  {
    hide Turn;
    var y := Turn(Turn(x));
    assert Turned(y, 2) == Turned(Turn(y), 1) == Turned(Turn(Turn(y)), 0);
    assert Turned(x, 4) == Turned(Turn(x), 3) == Turned(y, 2);
  }

  lemma FourBits(x: bv64)
    ensures Turn(Turn(Turn(Turn(x)))) == (x * 17) & 63
  {
  }

  lemma MoreBits(x: bv64)
    requires x & 63 == x
    ensures (((x * 17) & 63) * 17) & 63 == (x * 33) & 63
    ensures (((x * 33) & 63) * 33) & 63 == x
  {
  }

  lemma TurnBits(x: bv64)
    requires x & 63 == x
    ensures Turned(x, 4) == (x * 17) & 63
    ensures (((x * 17) & 63) * 17) & 63 == (x * 33) & 63
    ensures (((x * 33) & 63) * 33) & 63 == x
  {
    FourTurns(x);
    FourBits(x);
    MoreBits(x);
  }

  lemma {:induction false} TurnedAppend(x: bv64, m: nat, n: nat)
    ensures Turned(x, m + n) == Turned(Turned(x, m), n)
    decreases m
  {
    hide Turn;
    if m > 0 {
      TurnedAppend(Turn(x), m - 1, n);
    }
  }

  lemma Low6IsLow(x: bv64)
    ensures ((x * 17) & 63) & 63 == (x * 17) & 63
    ensures ((x * 33) & 63) & 63 == (x * 33) & 63
  {
  }

  lemma EightTurns(x: bv64)
    requires x & 63 == x
    ensures Turned(x, 8) == (x * 33) & 63
  {
    hide Turned;
    Low6IsLow(x);
    TurnBits(x);
    TurnBits((x * 17) & 63);
    TurnedAppend(x, 4, 4);
  }

  lemma TwelveBits(x: bv64)
    ensures (((x * 33) & 63) * 17) & 63 == (x * 49) & 63
  {
  }

  lemma TwelveTurns(x: bv64)
    requires x & 63 == x
    ensures Turned(x, 12) == (x * 49) & 63
  {
    hide Turned;
    Low6IsLow(x);
    EightTurns(x);
    TurnBits((x * 33) & 63);
    TwelveBits(x);
    TurnedAppend(x, 8, 4);
  }

  /** The low six bits repeat every sixteen zero bytes. */
  lemma TurnedSixteen(x: bv64)
    requires x & 63 == x
    ensures Turned(x, 16) == x
  {
    hide Turned;
    Low6IsLow(x);
    EightTurns(x);
    EightTurns((x * 33) & 63);
    TurnBits(x);
    TurnedAppend(x, 8, 8);
  }

  lemma {:induction false} TurnedPeriod(x: bv64, m: nat, n: nat)
    requires x & 63 == x
    ensures Turned(x, 16 * m + n) == Turned(x, n)
    decreases m
  {
    hide Turned;
    if m > 0 {
      TurnedSixteen(x);
      TurnedAppend(x, 16, 16 * (m - 1) + n);
      TurnedPeriod(x, m - 1, n);
    }
  }
}
