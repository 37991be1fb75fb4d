/** The bloom filter: a bit array in 64-bit words, probed at positions h1 + i * h2. */
module Bloom {
  import opened Bytes
  import opened Hashing
  import opened Versions
  import opened Varint
  import opened Words

  // ----- hashing -----

  const LSM: Str := [76, 83, 77]

  function Stride(key: Str): (s: bv64)
    ensures s != 0
  {
    var h2 := Fnv1a(LSM + key);
    if h2 == 0 then 1 else h2
  }

  function Hop(h1: bv64, stride: bv64, i: bv64): bv64 {
    h1 + i * stride
  }

  /** The i-th position of a key among `numBits` bits. */
  function Position(numBits: bv64, key: Str, i: nat): bv64 {
    Masked(Hop(Fnv1a(key), Stride(key), Word(i)), numBits)
  }

  // ----- the filter as a value -----

  datatype Value = Value(bits: seq<bv64>, numBits: bv64, numHash: int)

  predicate WellFormed(f: Value) {
    WholeWords(f.numBits) && |f.bits| == Val(f.numBits) / 64 && 0 <= f.numHash < TWO_63
  }

  function Mask(p: bv64): bv64 {
    1 << (p % 64)
  }

  predicate Shares(word: bv64, mask: bv64) {
    word & mask != 0
  }

  function Or(word: bv64, mask: bv64): bv64 {
    word | mask
  }

  function Slot(p: bv64): nat {
    Val(p / 64)
  }

  predicate InRange(bits: seq<bv64>, p: bv64) {
    Slot(p) < |bits|
  }

  predicate IsSet(bits: seq<bv64>, p: bv64)
    requires InRange(bits, p)
  {
    Shares(bits[Slot(p)], Mask(p))
  }

  function With(bits: seq<bv64>, p: bv64): (r: seq<bv64>)
    requires InRange(bits, p)
    ensures |r| == |bits|
  {
    bits[Slot(p) := Or(bits[Slot(p)], Mask(p))]
  }

  lemma PositionInRange(f: Value, key: Str, i: nat)
    requires WellFormed(f)
    ensures InRange(f.bits, Position(f.numBits, key, i))
  {
    hide Val, Masked, WholeWords, Fnv1a, Stride, Word, Hop;
    MaskedInRange(Hop(Fnv1a(key), Stride(key), Word(i)), f.numBits);
  }

  /** The words after the first `n` positions of a key were set. */
  function SetFirst(f: Value, key: Str, n: nat): (r: seq<bv64>)
    requires WellFormed(f)
    ensures |r| == |f.bits|
  {
    if n == 0 then f.bits
    else
      PositionInRange(f, key, n - 1);
      With(SetFirst(f, key, n - 1), Position(f.numBits, key, n - 1))
  }

  function Added(f: Value, key: Str): (r: Value)
    requires WellFormed(f)
    ensures WellFormed(r) && r.numBits == f.numBits && r.numHash == f.numHash
  {
    f.(bits := SetFirst(f, key, f.numHash))
  }

  predicate Test(f: Value, key: Str, i: nat)
    requires WellFormed(f)
  {
    PositionInRange(f, key, i);
    IsSet(f.bits, Position(f.numBits, key, i))
  }

  predicate MayContain(f: Value, key: Str)
    requires WellFormed(f)
  {
    forall i: nat :: i < f.numHash ==> Test(f, key, i)
  }

  function AddedAll(f: Value, keys: seq<Str>): (r: Value)
    requires WellFormed(f)
    ensures WellFormed(r)
  {
    if keys == [] then f else Added(AddedAll(f, keys[..|keys| - 1]), keys[|keys| - 1])
  }

  // ----- what adding sets -----

  predicate SameBit(p: bv64, q: bv64) {
    p % 64 == q % 64
  }

  lemma OrKeeps(w: bv64, x: bv64, m: bv64)
    requires Shares(w, m)
    ensures Shares(Or(w, x), m)
  {
  }

  lemma OrAdds(w: bv64, x: bv64, m: bv64)
    requires Shares(x, m)
    ensures Shares(Or(w, x), m)
  {
  }

  lemma OrIsNoMore(w: bv64, x: bv64, m: bv64)
    requires !Shares(w, m) && !Shares(x, m)
    ensures !Shares(Or(w, x), m)
  {
  }

  lemma OrShares(w: bv64, x: bv64, m: bv64)
    ensures Shares(Or(w, x), m) <==> Shares(w, m) || Shares(x, m)
  {
    hide Shares, Or;
    if Shares(w, m) {
      OrKeeps(w, x, m);
    } else if Shares(x, m) {
      OrAdds(w, x, m);
    } else {
      OrIsNoMore(w, x, m);
    }
  }

  lemma OneBit(a: bv64, b: bv64)
    requires a < 64 && b < 64
    ensures Shares(1 << a, 1 << b) <==> a == b
  {
  }

  lemma MasksShare(p: bv64, q: bv64)
    ensures Shares(Mask(p), Mask(q)) <==> SameBit(p, q)
  {
    hide Shares;
    OneBit(p % 64, q % 64);
  }

  lemma OrBits(w: bv64, p: bv64, q: bv64)
    ensures Shares(Or(w, Mask(p)), Mask(q)) <==> Shares(w, Mask(q)) || SameBit(p, q)
  {
    hide Mask, Shares, Or, SameBit;
    OrShares(w, Mask(p), Mask(q));
    MasksShare(p, q);
  }

  lemma SamePosition(p: bv64, q: bv64)
    requires p / 64 == q / 64 && SameBit(p, q)
    ensures p == q
  {
  }

  lemma SlotAndBit(p: bv64, q: bv64)
    requires Slot(p) == Slot(q) && SameBit(p, q)
    ensures p == q
  {
    hide Val, SameBit;
    WordOfVal(p / 64);
    WordOfVal(q / 64);
    SamePosition(p, q);
  }

  /** Setting a position sets it, and no other. */
  lemma WithSets(bits: seq<bv64>, p: bv64, q: bv64)
    requires InRange(bits, p) && InRange(bits, q)
    ensures IsSet(With(bits, p), q) <==> IsSet(bits, q) || p == q
  {
    hide Mask, Slot, Shares, Or, SameBit;
    OrBits(bits[Slot(p)], p, q);
    if Slot(p) == Slot(q) && SameBit(p, q) {
      SlotAndBit(p, q);
    }
    if p == q {
      SameBitItself(p);
    }
  }

  lemma SameBitItself(p: bv64)
    ensures SameBit(p, p)
  {
  }

  lemma SameRange(a: seq<bv64>, b: seq<bv64>)
    requires |a| == |b|
    ensures forall p :: InRange(a, p) <==> InRange(b, p)
  {
  }

  /** The position is among the first `n` of the key. */
  ghost predicate Hits(numBits: bv64, key: Str, n: nat, q: bv64) {
    exists i: nat :: i < n && Position(numBits, key, i) == q
  }

  lemma {:induction false} SetFirstExact(f: Value, key: Str, n: nat, q: bv64)
    requires WellFormed(f) && InRange(f.bits, q)
    ensures InRange(SetFirst(f, key, n), q)
    ensures IsSet(SetFirst(f, key, n), q) <==> IsSet(f.bits, q) || Hits(f.numBits, key, n, q)
    decreases n
  {
    hide IsSet, With, Position, WholeWords, Val, InRange;
    SameRange(f.bits, SetFirst(f, key, n));
    if n > 0 {
      PositionInRange(f, key, n - 1);
      SetFirstExact(f, key, n - 1, q);
      SameRange(f.bits, SetFirst(f, key, n - 1));
      WithSets(SetFirst(f, key, n - 1), Position(f.numBits, key, n - 1), q);
    }
  }

  /** The position is one of an added key. */
  ghost predicate Reached(f: Value, keys: seq<Str>, q: bv64)
    requires WellFormed(f)
  {
    exists k :: k in keys && Hits(f.numBits, k, f.numHash, q)
  }

  lemma {:induction false} AddedAllExact(f: Value, keys: seq<Str>, q: bv64)
    requires WellFormed(f) && InRange(f.bits, q)
    ensures var g := AddedAll(f, keys);
      && g.numBits == f.numBits && g.numHash == f.numHash && |g.bits| == |f.bits| && InRange(g.bits, q)
      && (IsSet(g.bits, q) <==> IsSet(f.bits, q) || Reached(f, keys, q))
    decreases |keys|
  {
    hide IsSet, WholeWords, Val, InRange, SetFirst, Hits;
    if keys != [] {
      var n := |keys| - 1;
      assert keys == keys[..n] + [keys[n]];
      AddedAllExact(f, keys[..n], q);
      SetFirstExact(AddedAll(f, keys[..n]), keys[n], f.numHash, q);
    }
  }

  /** After adding keys the filter lets a key through exactly when each of its positions was set before or is one
      of an added key's. */
  lemma MayContainExact(f: Value, keys: seq<Str>, k: Str)
    requires WellFormed(f)
    ensures MayContain(AddedAll(f, keys), k) <==>
              forall i: nat :: i < f.numHash ==>
                Test(f, k, i) || Reached(f, keys, Position(f.numBits, k, i))
  {
    hide WholeWords, Val, IsSet, InRange, AddedAll, Position, Reached;
    var g := AddedAll(f, keys);
    PositionInRange(f, k, 0);
    AddedAllExact(f, keys, Position(f.numBits, k, 0));
    forall i: nat ensures Test(g, k, i) <==> Test(f, k, i) || Reached(f, keys, Position(f.numBits, k, i))
    {
      PositionInRange(f, k, i);
      AddedAllExact(f, keys, Position(f.numBits, k, i));
    }
  }

  /** No key that was ever added is reported absent, whatever was added since. */
  lemma NoFalseNegatives(f: Value, keys: seq<Str>, k: Str)
    requires WellFormed(f) && k in keys
    ensures MayContain(AddedAll(f, keys), k)
  {
    hide WellFormed, MayContain, AddedAll, Position;
    MayContainExact(f, keys, k);
    forall i: nat | i < f.numHash ensures Reached(f, keys, Position(f.numBits, k, i)) {
      assert Hits(f.numBits, k, f.numHash, Position(f.numBits, k, i));
    }
  }

  // ----- bytes -----

  function PutWords(bits: seq<bv64>): Str {
    if bits == [] then [] else PutFixed(Val(bits[0]), 8) + PutWords(bits[1..])
  }

  /** Serialize. */
  function PutFilter(f: Value): Str
    requires WellFormed(f)
  {
    PutUvarint(Val(f.numBits)) + (PutUvarint(f.numHash) + PutWords(f.bits))
  }

  /** `n` words; those the bytes no longer hold stay zero. */
  function GetWords(r: Str, n: nat): (w: seq<bv64>)
    ensures |w| == n
  {
    if n == 0 then []
    else if |r| < 8 then seq(n, _ => 0)
    else [Word(GetFixed(r[..8]))] + GetWords(r[8..], n - 1)
  }

  /** Go's int(uint64). */
  function AsInt(v: nat): int {
    if v < TWO_63 then v else v - TWO_64
  }

  /** Deserialize: None where the Go code returns nil. */
  function GetFilter(data: Str): Option<Value> {
    var b := GetUvarint(data);
    if b.None? then None
    else
      var h := GetUvarint(data[b.value.size..]);
      if h.None? then None
      else
        var r := data[b.value.size..][h.value.size..];
        Some(Value(GetWords(r, b.value.value / 64), Word(b.value.value), AsInt(h.value.value)))
  }

  lemma {:induction false} WordsRoundTrip(bits: seq<bv64>)
    ensures GetWords(PutWords(bits), |bits|) == bits
    decreases |bits|
  {
    hide Val, Word, PutFixed, GetFixed;
    if bits != [] {
      var w, t := PutFixed(Val(bits[0]), 8), PutWords(bits[1..]);
      WordOfVal(bits[0]);
      Fixed64RoundTrip(Val(bits[0]));
      WordsRoundTrip(bits[1..]);
      assert (w + t)[..8] == w && (w + t)[8..] == t;
      assert bits == [bits[0]] + bits[1..];
    }
  }

  /** A filter read back from its bytes is the filter that was written. */
  lemma FilterRoundTrip(f: Value)
    requires WellFormed(f)
    ensures GetFilter(PutFilter(f)) == Some(f)
  {
    hide Val, Word, PutUvarint, GetUvarint, PutWords, GetWords, WholeWords;
    var u, h, w := PutUvarint(Val(f.numBits)), PutUvarint(f.numHash), PutWords(f.bits);
    WordOfVal(f.numBits);
    UvarintRoundTrip(Val(f.numBits), h + w);
    UvarintRoundTrip(f.numHash, w);
    WordsRoundTrip(f.bits);
    assert (u + (h + w))[|u|..] == h + w;
    assert (h + w)[|h|..] == w;
  }

  lemma {:induction false} PutWordsAppend(bits: seq<bv64>, w: bv64)
    ensures PutWords(bits + [w]) == PutWords(bits) + PutFixed(Val(w), 8)
    decreases |bits|
  {
    hide Val, PutFixed;
    if bits == [] {
      assert [w] == [w] + [];
      assert PutWords([w]) == PutFixed(Val(w), 8) + PutWords([]);
    } else {
      PutWordsAppend(bits[1..], w);
      assert (bits + [w])[1..] == bits[1..] + [w];
    }
  }

  lemma {:induction false} PutWordsSize(bits: seq<bv64>)
    ensures |PutWords(bits)| == 8 * |bits|
    decreases |bits|
  {
    hide Val, PutFixed;
    if bits != [] {
      PutWordsSize(bits[1..]);
    }
  }

  // ----- sizing -----

  /** The number of hash positions: ln 2 times the bits per key, rounded up, at least one. */
  function HashCount(numBits: nat, numKeys: nat): (n: nat)
    requires numKeys > 0
    ensures n >= 1
  {
    var ceil := -(-(0.6931471805599453 * (numBits as real) / (numKeys as real))).Floor;
    if ceil < 1 then 1 else ceil
  }

  function BitCount(numKeys: nat, bitsPerKey: nat): bv64 {
    var rounded := PowerFor(Word(numKeys * bitsPerKey % TWO_64));
    if rounded < 64 then 64 else rounded
  }

  /** The filter New makes. */
  function Empty(numKeys: int, bitsPerKey: int): Value {
    var perKey: nat := if bitsPerKey <= 0 then 10 else bitsPerKey;
    var keys: nat := if numKeys <= 0 then 1 else numKeys;
    var numBits := BitCount(keys, perKey);
    Value(seq(Val(numBits) / 64, _ => 0), numBits, HashCount(Val(numBits), keys))
  }

  lemma QuotientBelow(a: real, b: real)
    requires a >= 0.0 && b >= 1.0
    ensures 0.0 <= a / b <= a
  {
    assert a == (a / b) * b;
    assert (a / b) * (b - 1.0) >= 0.0;
  }

  lemma HashCountBound(numBits: nat, numKeys: nat)
    requires numKeys > 0 && numBits <= TWO_63
    ensures HashCount(numBits, numKeys) < TWO_63
  {
    QuotientBelow(0.6931471805599453 * (numBits as real), numKeys as real);
  }

  lemma BitCountWhole(numKeys: nat, bitsPerKey: nat)
    ensures WholeWords(BitCount(numKeys, bitsPerKey)) && Val(BitCount(numKeys, bitsPerKey)) <= TWO_63
  {
    hide Word, Val, WholeWords, IsPow2, PowerFor;
    var v := Word(numKeys * bitsPerKey % TWO_64);
    PowerForRoundsUp(v);
    SixtyFour();
    var n := BitCount(numKeys, bitsPerKey);
    assert IsPow2(n) && n >= 64;
    PowersAreWholeWords(n);
    PowerBound(n);
  }

  lemma ValOf64()
    ensures Val(64) == 64
  {
    ZeroWord(57);
    assert Low(1, 58) == 1;
    assert Low(4, 60) == 4;
    assert Low(16, 62) == 16;
  }

  /** The bits of a new filter are a power of two, at least 64, not below the bits asked for and less than twice
      as many; bits asked for are counted in 64 bits, and more than 2^63 of them give 64. */
  lemma BitCountIs(numKeys: nat, bitsPerKey: nat)
    ensures var asked, n := numKeys * bitsPerKey % TWO_64, BitCount(numKeys, bitsPerKey);
      && IsPow2(n) && Val(n) >= 64
      && (asked > TWO_63 ==> Val(n) == 64)
      && (asked <= TWO_63 ==> asked <= Val(n) && (Val(n) < 2 * asked || Val(n) == 64))
  {
    hide Val, Word, IsPow2, PowerFor;
    var asked := numKeys * bitsPerKey % TWO_64;
    PowerForNumber(asked);
    SixtyFour();
    ValOf64();
    ValOrder(64, BitCount(numKeys, bitsPerKey));
    ValOrder(PowerFor(Word(asked)), BitCount(numKeys, bitsPerKey));
  }

  /** The hash positions are the least number, at least one, that is not below ln 2 times the bits per key. */
  lemma HashCountIs(numBits: nat, numKeys: nat)
    requires numKeys > 0
    ensures var h, x := HashCount(numBits, numKeys), 0.6931471805599453 * (numBits as real) / (numKeys as real);
      h >= 1 && h as real >= x && (h > 1 ==> (h - 1) as real < x)
  {
  }

  /** What New makes of the numbers it is given. */
  lemma NewFilterSize(numKeys: int, bitsPerKey: int)
    ensures var keys: nat := if numKeys <= 0 then 1 else numKeys;
      var perKey: nat := if bitsPerKey <= 0 then 10 else bitsPerKey;
      var f := Empty(numKeys, bitsPerKey);
      && (keys * perKey <= TWO_63 ==>
            keys * perKey <= Val(f.numBits) && (Val(f.numBits) < 2 * (keys * perKey) || Val(f.numBits) == 64))
      && var x := 0.6931471805599453 * (Val(f.numBits) as real) / (keys as real);
         f.numHash >= 1 && f.numHash as real >= x && (f.numHash > 1 ==> (f.numHash - 1) as real < x)
  {
    hide Val, BitCount, HashCount, IsPow2;
    var keys: nat := if numKeys <= 0 then 1 else numKeys;
    var perKey: nat := if bitsPerKey <= 0 then 10 else bitsPerKey;
    BitCountSmall(keys, perKey);
    HashCountIs(Val(BitCount(keys, perKey)), keys);
  }

  lemma BitCountSmall(keys: nat, perKey: nat)
    ensures var n := Val(BitCount(keys, perKey));
      keys * perKey <= TWO_63 ==> keys * perKey <= n && (n < 2 * (keys * perKey) || n == 64)
  {
    hide Val, BitCount, IsPow2;
    BitCountIs(keys, perKey);
  }

  lemma SixtyFour()
    ensures IsPow2(64)
  {
  }

  /** Every new filter has a whole number of words, however the product of its sizes wraps. */
  lemma EmptyIsWellFormed(numKeys: int, bitsPerKey: int)
    ensures WellFormed(Empty(numKeys, bitsPerKey))
  {
    hide BitCount, Val, WholeWords, HashCount;
    var perKey: nat := if bitsPerKey <= 0 then 10 else bitsPerKey;
    var keys: nat := if numKeys <= 0 then 1 else numKeys;
    BitCountWhole(keys, perKey);
    HashCountBound(Val(BitCount(keys, perKey)), keys);
  }

  lemma NoBits(m: bv64)
    ensures !Shares(0, m)
  {
  }

  lemma EmptyHasNone(numKeys: int, bitsPerKey: int, k: Str, i: nat)
    requires WellFormed(Empty(numKeys, bitsPerKey))
    ensures !Test(Empty(numKeys, bitsPerKey), k, i)
  {
    hide BitCount, Val, WholeWords, HashCount, Position, Slot, Mask, Shares;
    var f := Empty(numKeys, bitsPerKey);
    PositionInRange(f, k, i);
    NoBits(Mask(Position(f.numBits, k, i)));
  }

  /** A new filter that was given the keys lets a key through exactly when each of its positions is one of an added
      key's. */
  lemma FilterExact(numKeys: int, bitsPerKey: int, keys: seq<Str>, k: Str)
    ensures WellFormed(Empty(numKeys, bitsPerKey))
    ensures var f := Empty(numKeys, bitsPerKey);
      MayContain(AddedAll(f, keys), k) <==>
        forall i: nat :: i < f.numHash ==> Reached(f, keys, Position(f.numBits, k, i))
  {
    hide Empty, WellFormed, MayContain, AddedAll, Position, Reached, Test;
    EmptyIsWellFormed(numKeys, bitsPerKey);
    var f := Empty(numKeys, bitsPerKey);
    MayContainExact(f, keys, k);
    forall i: nat ensures !Test(f, k, i) {
      EmptyHasNone(numKeys, bitsPerKey, k, i);
    }
  }

  // ----- the filter object -----

  class Filter {
    var bits: array<bv64>
    var numBits: bv64
    var numHash: int

    ghost predicate Valid()
      reads this, bits
    {
      WellFormed(State())
    }

    ghost function State(): Value
      reads this, bits
    {
      Value(bits[..], numBits, numHash)
    }

    constructor New(numKeys: int, bitsPerKey: int)
      ensures Valid() && fresh(bits)
      ensures State() == Empty(numKeys, bitsPerKey)
    {
      hide Val, Word, WholeWords, HashCount, PowerFor;
      EmptyIsWellFormed(numKeys, bitsPerKey);
      var perKey: nat := if bitsPerKey <= 0 then 10 else bitsPerKey;
      var keys: nat := if numKeys <= 0 then 1 else numKeys;
      var n := NextPowerOf2(Word(keys * perKey % TWO_64));
      if n < 64 {
        n := 64;
      }
      numHash := HashCount(Val(n), keys);
      bits := new bv64[Val(n) / 64](_ => 0);
      numBits := n;
      new;
      assert bits[..] == seq(Val(n) / 64, _ => 0);
    }

    /** The filter whose parts were read from bytes. */
    constructor NewWithBits(words: seq<bv64>, numBits: bv64, numHash: int)
      ensures State() == Value(words, numBits, numHash) && fresh(bits)
    {
      bits := new bv64[|words|](i requires 0 <= i < |words| => words[i]);
      this.numBits := numBits;
      this.numHash := numHash;
    }

    method Add(key: Str)
      requires Valid()
      modifies bits
      ensures Valid()
      ensures State() == Added(old(State()), key)
    {
      hide Val, WholeWords, Position, Or, Mask, Slot;
      ghost var f := State();
      for i := 0 to numHash
        invariant bits[..] == SetFirst(f, key, i)
      {
        PositionInRange(f, key, i);
        var bit := Position(numBits, key, i);
        var slot := Slot(bit);
        bits[slot] := Or(bits[slot], Mask(bit));
      }
    }

    method Contains(key: Str) returns (r: bool)
      requires Valid()
      ensures r == MayContain(State(), key)
    {
      hide Val, WholeWords, Position, Shares, Mask, Slot;
      ghost var f := State();
      for i := 0 to numHash
        invariant forall j: nat :: j < i ==> Test(f, key, j)
      {
        PositionInRange(f, key, i);
        var bit := Position(numBits, key, i);
        if !Shares(bits[Slot(bit)], Mask(bit)) {
          assert !Test(f, key, i);
          return false;
        }
        assert Test(f, key, i);
      }
      r := true;
    }

    method Serialize() returns (buf: Str)
      requires Valid()
      ensures buf == PutFilter(State())
    {
      hide Val, WholeWords, PutFixed, PutUvarint;
      buf := PutUvarint(Val(numBits));
      buf := buf + PutUvarint(numHash);
      ghost var head := buf;
      for i := 0 to bits.Length
        invariant buf == head + PutWords(bits[..i])
      {
        PutWordsAppend(bits[..i], bits[i]);
        assert bits[..i + 1] == bits[..i] + [bits[i]];
        buf := buf + PutFixed(Val(bits[i]), 8);
      }
      assert bits[..bits.Length] == bits[..];
    }
  }

  lemma NextWord(a: seq<bv64>, w: bv64, rest: seq<bv64>)
    ensures a + ([w] + rest) == (a + [w]) + rest
  {
  }

  lemma WordsStep(r: Str, n: nat)
    requires n > 0 && |r| >= 8
    ensures GetWords(r, n) == [Word(GetFixed(r[..8]))] + GetWords(r[8..], n - 1)
  {
    hide Word, GetFixed;
  }

  lemma WordsEnd(r: Str, n: nat)
    requires n == 0 || |r| < 8
    ensures GetWords(r, n) == seq(n, _ => 0)
  {
    hide Word, GetFixed;
  }

  /** Deserialize's loop over the words. */
  method ReadWords(data: Str, n: nat) returns (words: seq<bv64>)
    ensures words == GetWords(data, n)
  {
    hide Word, GetFixed, GetWords;
    var bits := new bv64[n](_ => 0);
    var r := data;
    var i := 0;
    while i < n && |r| >= 8
      invariant i <= n
      invariant forall j :: i <= j < n ==> bits[j] == 0
      invariant bits[..i] + GetWords(r, n - i) == GetWords(data, n)
      decreases n - i
    {
      var w := Word(GetFixed(r[..8]));
      WordsStep(r, n - i);
      NextWord(bits[..i], w, GetWords(r[8..], n - i - 1));
      bits[i] := w;
      assert bits[..i + 1] == bits[..i] + [w];
      r := r[8..];
      i := i + 1;
    }
    WordsEnd(r, n - i);
    assert bits[i..] == seq(n - i, _ => 0);
    assert bits[..] == bits[..i] + bits[i..];
    words := bits[..];
  }

  /** Deserialize. */
  method Deserialize(data: Str) returns (f: Filter?)
    ensures f == null <==> GetFilter(data).None?
    ensures f != null ==> fresh(f) && fresh(f.bits) && GetFilter(data) == Some(f.State())
  {
    hide GetUvarint, Word, GetWords;
    var b := GetUvarint(data);
    if b.None? {
      return null;
    }
    var r := data[b.value.size..];
    var h := GetUvarint(r);
    if h.None? {
      return null;
    }
    r := r[h.value.size..];
    var words := ReadWords(r, b.value.value / 64);
    f := new Filter.NewWithBits(words, Word(b.value.value), AsInt(h.value.value));
  }
}
