/** Base-128 varints as Go's encoding/binary writes and reads them (Protocol Buffers encoding
    guide, "Base 128 Varints" and "Signed Integers"), and little-endian fixed-width integers. */
module Varint {
  import opened Bytes
  import opened Versions

  const TWO_32: int := 0x1_0000_0000
  const TWO_63: int := 0x8000_0000_0000_0000
  const TWO_64: int := 0x1_0000_0000_0000_0000

  predicate IsInt64(v: int) {
    -TWO_63 <= v < TWO_63
  }

  /** AppendUvarint. */
  function PutUvarint(v: nat): (s: Str)
    ensures s != []
  {
    if v < 128 then [v] else [v % 128 + 128] + PutUvarint(v / 128)
  }

  datatype Read = Read(value: nat, size: nat)

  /** Uvarint from its (i+1)-th byte on: None where Go returns n <= 0, because the buffer ends
      inside the number or the number does not fit 64 bits. */
  function GetUvarintAt(buf: Str, i: nat): (r: Option<Read>)
    requires i <= 10
    ensures r.Some? ==> 1 <= r.value.size <= |buf|
    decreases |buf|
  {
    if buf == [] || i == 10 then None
    else if buf[0] < 128 then
      if i == 9 && buf[0] > 1 then None else Some(Read(buf[0], 1))
    else
      var r := GetUvarintAt(buf[1..], i + 1);
      if r.None? then None else Some(Read(buf[0] - 128 + 128 * r.value.value, r.value.size + 1))
  }

  function GetUvarint(buf: Str): (r: Option<Read>)
    ensures r.Some? ==> 1 <= r.value.size <= |buf|
  {
    GetUvarintAt(buf, 0)
  }

  /** One more than the greatest number that still fits from the (i+1)-th byte on. */
  function Room(i: nat): (r: nat)
    requires i <= 9
    ensures r >= 2
    decreases 9 - i
  {
    if i == 9 then 2 else 128 * Room(i + 1)
  }

  lemma {:induction false} UvarintAtRoundTrip(v: nat, i: nat, rest: Str)
    requires i <= 9 && v < Room(i)
    ensures |PutUvarint(v)| <= 10 - i
    ensures GetUvarintAt(PutUvarint(v) + rest, i) == Some(Read(v, |PutUvarint(v)|))
    decreases v
  {
    if v >= 128 {
      UvarintAtRoundTrip(v / 128, i + 1, rest);
      assert (PutUvarint(v) + rest)[1..] == PutUvarint(v / 128) + rest;
    }
  }

  lemma RoomIs64Bits()
    ensures Room(0) == TWO_64
  {
    assert Room(7) == 2 * 128 * 128;
    assert Room(5) == 2 * 128 * 128 * 128 * 128;
    assert Room(3) == 2 * 128 * 128 * 128 * 128 * 128 * 128;
    assert Room(1) == 2 * 128 * 128 * 128 * 128 * 128 * 128 * 128 * 128;
  }

  /** Every 64-bit number is read back from its varint, whatever follows. */
  lemma UvarintRoundTrip(v: nat, rest: Str)
    requires v < TWO_64
    ensures |PutUvarint(v)| <= 10
    ensures GetUvarint(PutUvarint(v) + rest) == Some(Read(v, |PutUvarint(v)|))
  {
    RoomIs64Bits();
    UvarintAtRoundTrip(v, 0, rest);
  }

  /** The number the low seven bits of each byte stand for, the lowest first. */
  ghost function Places(s: Str): nat {
    if s == [] then 0 else s[0] % 128 + 128 * Places(s[1..])
  }

  /** The last byte, and no other, is below 128. */
  ghost predicate Terminated(s: Str) {
    s != [] && s[|s| - 1] < 128 && forall i :: 0 <= i < |s| - 1 ==> s[i] >= 128
  }

  lemma {:induction false} UvarintAtExact(buf: Str, i: nat, v: nat, n: nat)
    requires i <= 9
    ensures GetUvarintAt(buf, i) == Some(Read(v, n)) <==>
              1 <= n <= |buf| && n <= 10 - i && Terminated(buf[..n]) && v == Places(buf[..n]) && v < Room(i)
    decreases |buf|
  {
    if 1 <= n <= |buf| {
      var s, t := buf[..n], buf[1..][..n - 1];
      assert s[0] == buf[0] && s[1..] == t;
      if n == 1 {
        assert t == [] && Places(s) == s[0] % 128;
      } else if buf[0] >= 128 {
        TerminatedBehind(s, t);
        if i < 9 {
          UvarintAtExact(buf[1..], i + 1, Places(t), n - 1);
          UvarintAtExact(buf[1..], i + 1, v / 128, n - 1);
        }
      }
    }
  }

  lemma TerminatedBehind(s: Str, t: Str)
    requires s != [] && s[0] >= 128 && t == s[1..]
    ensures Terminated(s) <==> Terminated(t)
  {
    if t != [] {
      assert s[|s| - 1] == t[|t| - 1];
      assert forall j :: 0 <= j < |t| ==> s[j + 1] == t[j];
      if Terminated(t) {
        forall i | 0 <= i < |s| - 1 ensures s[i] >= 128 {
          if i > 0 { assert s[i] == t[i - 1]; }
        }
      }
    }
  }

  /** Exactly the varints of at most ten bytes whose number fits 64 bits are read, as that number. */
  lemma UvarintExact(buf: Str, v: nat, n: nat)
    ensures GetUvarint(buf) == Some(Read(v, n)) <==>
              1 <= n <= |buf| && n <= 10 && Terminated(buf[..n]) && v == Places(buf[..n]) && v < TWO_64
  {
    hide GetUvarintAt, Terminated, Places;
    RoomIs64Bits();
    UvarintAtExact(buf, 0, v, n);
  }

  lemma {:induction false} UvarintAtCutShort(v: nat, i: nat, n: nat)
    requires i <= 10 && n < |PutUvarint(v)|
    ensures GetUvarintAt(PutUvarint(v)[..n], i) == None
    decreases v
  {
    if v >= 128 && n > 0 && i < 10 {
      UvarintAtCutShort(v / 128, i + 1, n - 1);
      assert PutUvarint(v)[..n][1..] == PutUvarint(v / 128)[..n - 1];
    }
  }

  /** No proper prefix of a varint reads as a number. */
  lemma UvarintCutShort(v: nat, n: nat)
    requires n < |PutUvarint(v)|
    ensures GetUvarint(PutUvarint(v)[..n]) == None
  {
    UvarintAtCutShort(v, 0, n);
  }

  /** Zigzag: Go's `uint64(v) << 1`, complemented for a negative `v`. */
  function Zigzag(v: int): nat
  {
    if v >= 0 then 2 * v else -2 * v - 1
  }

  function Unzigzag(u: nat): int {
    if u % 2 == 0 then u / 2 else -(u / 2) - 1
  }

  function PutVarint(v: int): (s: Str)
    ensures s != []
  {
    PutUvarint(Zigzag(v))
  }

  datatype ReadSigned = ReadSigned(value: int, size: nat)

  function GetVarint(buf: Str): (r: Option<ReadSigned>)
    ensures r.Some? ==> 1 <= r.value.size <= |buf|
  {
    var u := GetUvarint(buf);
    if u.None? then None else Some(ReadSigned(Unzigzag(u.value.value), u.value.size))
  }

  lemma VarintRoundTrip(v: int, rest: Str)
    requires IsInt64(v)
    ensures |PutVarint(v)| <= 10
    ensures GetVarint(PutVarint(v) + rest) == Some(ReadSigned(v, |PutVarint(v)|))
  {
    UvarintRoundTrip(Zigzag(v), rest);
  }

  lemma VarintCutShort(v: int, n: nat)
    requires n < |PutVarint(v)|
    ensures GetVarint(PutVarint(v)[..n]) == None
  {
    UvarintCutShort(Zigzag(v), n);
  }

  /** `n` little-endian bytes. */
  function PutFixed(v: nat, n: nat): (s: Str)
    ensures |s| == n
  {
    if n == 0 then [] else [v % 256] + PutFixed(v / 256, n - 1)
  }

  function GetFixed(s: Str): nat {
    if s == [] then 0 else s[0] + 256 * GetFixed(s[1..])
  }

  function Range(n: nat): nat {
    if n == 0 then 1 else 256 * Range(n - 1)
  }

  lemma {:induction false} FixedRoundTrip(v: nat, n: nat)
    requires v < Range(n)
    ensures GetFixed(PutFixed(v, n)) == v
    decreases n
  {
    if n > 0 {
      FixedRoundTrip(v / 256, n - 1);
      assert PutFixed(v, n)[1..] == PutFixed(v / 256, n - 1);
    }
  }

  lemma RangeIs()
    ensures Range(4) == TWO_32 && Range(8) == TWO_64
  {
    assert Range(2) == 256 * 256;
    assert Range(4) == 256 * 256 * 256 * 256;
    assert Range(6) == 256 * 256 * 256 * 256 * 256 * 256;
  }

  lemma Fixed32RoundTrip(v: nat)
    requires v < TWO_32
    ensures GetFixed(PutFixed(v, 4)) == v
  {
    RangeIs();
    FixedRoundTrip(v, 4);
  }

  lemma Fixed64RoundTrip(v: nat)
    requires v < TWO_64
    ensures GetFixed(PutFixed(v, 8)) == v
  {
    RangeIs();
    FixedRoundTrip(v, 8);
  }

  /** A fixed-width field is zero only when its bytes all are. */
  lemma {:induction false} FixedNonZero(s: Str, i: nat)
    requires i < |s| && s[i] != 0
    ensures GetFixed(s) != 0
    decreases |s|
  {
    if i > 0 {
      FixedNonZero(s[1..], i - 1);
    }
  }

  /** Bytes read as a number are what the number is written as. */
  lemma {:induction false} FixedRestored(s: Str)
    ensures PutFixed(GetFixed(s), |s|) == s && GetFixed(s) < Range(|s|)
    decreases |s|
  {
    if s != [] {
      FixedRestored(s[1..]);
    }
  }
}
