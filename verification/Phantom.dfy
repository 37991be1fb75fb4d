/** A lookup that leaves the data block: a key nobody wrote is found in the index block behind it, past
    the filter. */
module Phantom {
  import opened Bytes
  import opened Entries
  import opened Versions
  import opened Varint
  import opened Records
  import opened Words
  import opened SparseIndex
  import opened Hashing
  import opened TableFormat
  import opened TableLookup
  import Bloom
  import Crc32

  /** The key of a table's only entry, and the key found behind it: the bytes of the index block behind
      the step spell that key. */
  function Seed(): Str {
    [1, 26] + Zeros(125)
  }

  function Stray(): Str {
    [1, 127] + ([1, 26] + Zeros(124))
  }

  // ----- the filter lets it through -----

  lemma StepsOfSeed()
    ensures FnvStep(0xaf63bc4c8601b62c, 26) == 0x082f2c07b4e89dc2 && FnvStep(FNV_OFFSET, 1) == 0xaf63bc4c8601b62c
  {
  }

  lemma StepsOfStray()
    ensures FnvStep(0xaf63bc4c8601b62c, 127) == 0x082f4907b4e8cf09
    ensures FnvStep(0x082f4907b4e8cf09, 1) == 0xd12820186797ca98
    ensures FnvStep(0xd12820186797ca98, 26) == 0xfef90b7806ed1ae6
  {
  }

  lemma StepsOfLsmStray()
    ensures FnvStep(0x25a4a919b91bfb9f, 1) == 0x12c6f4b58a8c8d7a
    ensures FnvStep(0x12c6f4b58a8c8d7a, 127) == 0x749ed57a6cd39f7f
    ensures FnvStep(0x749ed57a6cd39f7f, 1) == 0xfd843d06eb98031a
    ensures FnvStep(0xfd843d06eb98031a, 26) == 0x5fb6b2c2534d1900
  {
  }

  lemma Fnv2(h: bv64, a: byte, b: byte, rest: Str)
    ensures Fnv(h, [a, b] + rest) == Fnv(FnvStep(FnvStep(h, a), b), rest)
  {
    hide FnvStep, Fnv;
    assert [a, b] + rest == [a] + ([b] + rest);
    FnvByte(h, a, [b] + rest);
    FnvByte(FnvStep(h, a), b, rest);
  }

  lemma SeedBits()
    ensures Low6(0x082f2c07b4e89dc2) == 2 && (2 as bv64) & 63 == 2
    ensures Turn((2 * 49) & 63) == 6
  {
  }

  /** Both keys have the first position 6 in a filter of 64 bits. */
  lemma HashOfSeed()
    ensures Low6(Fnv1a(Seed())) == 6
  {
    hide FnvStep, Fnv, Turned, Low6, Turn;
    StepsOfSeed();
    Fnv2(FNV_OFFSET, 1, 26, Zeros(125));
    FnvZeros(0x082f2c07b4e89dc2, 125);
    SeedBits();
    TurnedPeriod(2, 7, 13);
    TwelveTurns(2);
    TurnedAppend(2, 12, 1);
    TurnedOnce((2 * 49) & 63);
  }

  lemma TurnedOnce(x: bv64)
    ensures Turned(x, 1) == Turn(x)
  {
    hide Turn;
    assert Turned(Turn(x), 0) == Turn(x);
  }

  lemma StrayBits()
    ensures Low6(0xfef90b7806ed1ae6) == 38 && (38 as bv64) & 63 == 38
    ensures (38 * 49) & 63 == 6 as bv64
    ensures 0x5fb6b2c2534d1900 & 511 == 256 as bv64
  {
  }

  lemma HashOfStray()
    ensures Low6(Fnv1a(Stray())) == 6
  {
    hide FnvStep, Fnv, Turned, Low6, Turn;
    StepsOfSeed();
    StepsOfStray();
    Fnv2(FNV_OFFSET, 1, 127, [1, 26] + Zeros(124));
    Fnv2(0x082f4907b4e8cf09, 1, 26, Zeros(124));
    FnvZeros(0xfef90b7806ed1ae6, 124);
    StrayBits();
    TurnedPeriod(38, 7, 12);
    TwelveTurns(38);
  }

  lemma MultipleBits(h: bv64)
    requires h & 511 == 256
    ensures h & 63 == 0 && h != 0
  {
  }

  /** The stray key's stride is a multiple of 64: all its positions are the first one. */
  lemma StrideOfStray()
    ensures Bloom.Stride(Stray()) & 63 == 0
  {
    hide FnvStep, Fnv;
    StepsOfLsm();
    StepsOfLsmStray();
    var key := Stray();
    assert Bloom.LSM + key == [76, 83] + ([77, 1] + ([127, 1] + ([26] + Zeros(124))));
    Fnv2(FNV_OFFSET, 76, 83, [77, 1] + ([127, 1] + ([26] + Zeros(124))));
    Fnv2(0x09196d07b5af7028, 77, 1, [127, 1] + ([26] + Zeros(124)));
    Fnv2(0x12c6f4b58a8c8d7a, 127, 1, [26] + Zeros(124));
    FnvByte(0xfd843d06eb98031a, 26, Zeros(124));
    StrayBits();
    FnvZerosKeep(0x5fb6b2c2534d1900, 124);
    MultipleBits(Fnv1a(Bloom.LSM + key));
  }

  lemma MaskedBits(a: bv64, w: bv64, s: bv64)
    requires s & 63 == 0
    ensures Masked(Bloom.Hop(a, s, w), 64) == Low6(a)
  {
  }

  lemma MaskedZero(a: bv64, s: bv64)
    ensures Masked(Bloom.Hop(a, s, 0), 64) == Low6(a)
  {
  }

  lemma StrayPosition(i: nat)
    ensures Bloom.Position(64, Stray(), i) == 6
  {
    hide Word, Fnv1a, Bloom.Stride, Bloom.Hop, Masked, Low6, Stray;
    HashOfStray();
    StrideOfStray();
    MaskedBits(Fnv1a(Stray()), Word(i), Bloom.Stride(Stray()));
  }

  lemma SeedPosition()
    ensures Bloom.Position(64, Seed(), 0) == 6
  {
    hide Fnv1a, Bloom.Stride, Bloom.Hop, Masked, Low6, Seed;
    HashOfSeed();
    ZeroWord(64);
    MaskedZero(Fnv1a(Seed()), Bloom.Stride(Seed()));
  }

  lemma WordOfTen()
    ensures Word(10) == 10
  {
    ZeroWord(60);
    assert LowWord(1, 61) == 1;
    assert LowWord(2, 62) == 2;
    assert LowWord(5, 63) == 5;
  }

  lemma SixteenIsPower()
    ensures IsPow2(16)
  {
  }

  /** A filter for one key has 64 bits. */
  lemma BitsForOne()
    ensures Bloom.BitCount(1, BITS_PER_KEY) == 64
  {
    hide Word, PowerFor, IsPow2;
    WordOfTen();
    SixteenIsPower();
    PowerForRoundsUp(10);
  }

  lemma OneFilter(e: Entry)
    ensures Bloom.WellFormed(Bloom.Empty(1, BITS_PER_KEY))
    ensures FilterOf([e], 1) == Bloom.Added(Bloom.Empty(1, BITS_PER_KEY), e.key)
    ensures FilterOf([e], 1).numBits == 64
  {
    hide Bloom.Added, Bloom.HashCount, Bloom.BitCount, Bloom.WellFormed;
    Bloom.EmptyIsWellFormed(1, BITS_PER_KEY);
    BitsForOne();
    var f := Bloom.Empty(1, BITS_PER_KEY);
    assert Keys([e]) == [e.key];
    assert [e.key][..0] == [];
    assert Bloom.AddedAll(f, [e.key][..0]) == f;
  }

  /** The filter of a table that holds the seed alone admits the stray key. */
  lemma StrayIsAdmitted(e: Entry)
    requires e.key == Seed()
    ensures Admits(Written([e], STEP, 1), Stray())
  {
    hide Bloom.Position, Bloom.SetFirst, Bloom.IsSet, Bloom.HashCount, Bloom.BitCount, Seed, Stray, FilterOf;
    hide WholeWords, Val, FileBytes, Samples, Data;
    OneFilter(e);
    var f0, f := Bloom.Empty(1, BITS_PER_KEY), FilterOf([e], 1);
    Bloom.EmptyIsWellFormed(1, BITS_PER_KEY);
    forall i: nat | i < f.numHash ensures Bloom.Test(f, Stray(), i) {
      Bloom.PositionInRange(f, Stray(), i);
      StrayPosition(i);
      SeedPosition();
      Bloom.SetFirstExact(f0, e.key, f0.numHash, Bloom.Position(f0.numBits, e.key, 0));
      assert Bloom.Hits(f0.numBits, e.key, f0.numHash, Bloom.Position(f0.numBits, e.key, 0));
    }
  }

  // ----- the bytes behind the data block -----

  lemma FilterHasBits(es: seq<Entry>, expected: nat)
    ensures Val(FilterOf(es, expected).numBits) >= 64 && |FilterOf(es, expected).bits| >= 1
  {
    hide Val, WholeWords, FilterOf;
    MaskedInRange(0, FilterOf(es, expected).numBits);
  }

  lemma FilterBlockShape(f: Bloom.Value)
    requires Bloom.WellFormed(f) && Val(f.numBits) >= 64 && |f.bits| >= 1
    ensures var b := Bloom.PutFilter(f); |b| >= 6 && b[0] != 1
  {
    hide Val, WholeWords;
    Bloom.PutWordsSize(f.bits);
  }

  /** The bytes behind the data block of that table: the stray key as a string, two zeros, and a byte
      that is not one. */
  ghost predicate StrayBytes(b: Str) {
    |b| >= 138 && b[..132] == PutString(Stray()) + [0, 0] && b[132] != 1
  }

  lemma BehindOne(e: Entry, expected: nat)
    requires e.key == Seed()
    ensures StrayBytes(Behind([e], STEP, expected))
  {
    hide FilterOf, Footer, Crc32.ChecksumNumber, Bloom.PutFilter, Bloom.WellFormed, Val, Data, PutString, PutIndex;
    hide Samples, Seed, Stray;
    var es := [e];
    var f := FilterOf(es, expected);
    FilterHasBits(es, expected);
    FilterBlockShape(f);
    SampleOfOne(e);
    IndexOne();
    SamplesIndexable(es, STEP);
    var i := PutIndex(STEP, Samples(es, STEP));
    assert Behind(es, STEP, expected)[..132] == i;
    assert Behind(es, STEP, expected)[132] == Bloom.PutFilter(f)[0];
  }

  lemma IndexOne()
    ensures PutIndex(STEP, [IndexEntry(Seed(), 0)]) == PutString(Stray()) + [0, 0]
    ensures |PutString(Stray()) + [0, 0]| == 132
  {
    hide Zeros;
    SmallNumbers();
    var x := IndexEntry(Seed(), 0);
    assert PutIndexEntries([x]) == (PutString(x.key) + PutUvarint(0)) + PutIndexEntries([]);
    assert Seed() == [1, 26] + Zeros(124) + [0];
  }

  lemma SmallNumbers()
    ensures PutUvarint(0) == [0] && PutUvarint(1) == [1] && PutUvarint(127) == [127] && PutUvarint(128) == [128, 1]
  {
    assert PutUvarint(128) == [128] + PutUvarint(1);
  }

  lemma ScanStray(b: Str)
    requires StrayBytes(b)
    ensures Scan(b, Stray()) == Found(Entry(Stray(), [], 0, false))
  {
    hide GetString, GetTail, PutString, PutTail, Stray;
    IndexOne();
    var p := PutString(Stray());
    var rest := b[|p|..];
    assert b[..|p|] == b[..132][..|p|] == p;
    assert rest[..2] == b[..132][|p|..] == [0, 0];
    assert b == p + rest;
    StrayLength();
    StringRoundTrip(Stray(), rest);
    StrayTail(rest);
    LessIrreflexive(Stray());
  }

  lemma StrayLength()
    ensures |Stray()| < TWO_63
  {
  }

  lemma StrayTail(b: Str)
    requires |b| >= 3 && b[..2] == [0, 0] && b[2] != 1
    ensures GetTail(b) == Parsed(Tail([], 0, false), 3)
  {
    hide GetString, PutString, PutUvarint;
    SmallNumbers();
    assert PutString([]) == [0] by { EmptyString(); }
    StringRoundTrip([], b[1..]);
    assert b[0] == b[..2][0] && b[1] == b[..2][1];
    assert b == [0] + b[1..];
    assert b[1..][0] == 0;
    assert GetVarint(b[1..]) == Some(ReadSigned(0, 1));
  }

  lemma EmptyString()
    ensures PutString([]) == [0]
  {
    SmallNumbers();
    assert [0] + [] == [0];
  }

  lemma SeedBelowStray()
    ensures Less(Seed(), Stray()) && Seed() != Stray()
  {
    assert Seed()[1] == 26 && Stray()[1] == 127;
  }

  /** A key that was never written is found: in a flushed table of one entry, whatever its value, the
      step reads as the length of a key, the sample count and the sampled key as that key, and the
      filter lets it through. */
  lemma StrayIsFound(value: Str, ts: int, tomb: bool)
    requires Storable(Entry(Seed(), value, ts, tomb))
    ensures var es := [Entry(Seed(), value, ts, tomb)];
      FindKey(es, Stray()).None? && Get(Written(es, STEP, 1), Stray()) == Found(Entry(Stray(), [], 0, false))
  {
    hide FilterOf, Footer, Data, Record, Bloom.PutFilter, Bloom.WellFormed, Storable, Admits;
    hide Scan, Get, Written, Behind, Seed, Stray;
    var e := Entry(Seed(), value, ts, tomb);
    var es := [e];
    GetFinds(es, STEP, 1, Stray());
    SeedBelowStray();
    assert AllBelow(es, Stray());
    BehindOne(e, 1);
    ScanStray(Behind(es, STEP, 1));
    StrayIsAdmitted(e);
  }
}
