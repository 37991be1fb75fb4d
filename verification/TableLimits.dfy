/** How large a table file gets, when its blocks fit the writer's mapping, and what Close does when they
    do not. */
module TableLimits {
  import opened Bytes
  import opened Entries
  import opened Varint
  import opened Records
  import opened Crc32
  import opened Words
  import opened SparseIndex
  import opened TableFormat
  import opened TableLookup
  import opened Sstable
  import Bloom

  const MAX_KEY: nat := 1024
  const TARGET_SIZE: nat := 0x40_0000
  const ENTRIES_PER_CHUNK: nat := 100_000

  /** The running size estimate of a compaction output. */
  function ChunkSize(es: seq<Entry>): nat {
    if es == [] then 0 else ChunkSize(es[..|es| - 1]) + Cost(es[|es| - 1])
  }

  /** The entries compaction can write without outgrowing the initial mapping. */
  predicate Bounded(e: Entry) {
    |e.key| <= MAX_KEY && Cost(e) <= TARGET_SIZE && IsInt64(e.ts)
  }

  lemma SmallUvarint(v: nat)
    requires v < 0x1000_0000
    ensures |PutUvarint(v)| <= 4
    ensures v < 0x4000 ==> |PutUvarint(v)| <= 2
  {
    if v >= 128 {
      var a := v / 128;
      assert |PutUvarint(v)| == 1 + |PutUvarint(a)|;
      if a >= 128 {
        var b := a / 128;
        assert |PutUvarint(a)| == 1 + |PutUvarint(b)|;
        if b >= 128 {
          assert |PutUvarint(b)| == 1 + |PutUvarint(b / 128)|;
        }
      }
    }
  }

  lemma RecordSize(e: Entry)
    requires Bounded(e)
    ensures |Record(e)| <= Cost(e) + 5 && Storable(e)
  {
    hide PutUvarint, ChecksumNumber;
    SmallUvarint(|e.key|);
    SmallUvarint(|e.value|);
    VarintRoundTrip(e.ts, []);
  }

  lemma {:induction false} DataBlockSize(es: seq<Entry>)
    requires forall e :: e in es ==> Bounded(e)
    ensures |Data(es)| <= ChunkSize(es) + 5 * |es|
    ensures 16 * |es| <= ChunkSize(es)
    decreases |es|
  {
    hide Record, Bounded;
    if es == [] {
      DataOfNothing();
    } else {
      var n := |es| - 1;
      DataBlockSize(es[..n]);
      RecordSize(es[n]);
      DataAppend(es[..n], [es[n]]);
      DataOne(es[n]);
      assert es == es[..n] + [es[n]];
    }
  }

  lemma {:induction false} SampleCount(es: seq<Entry>)
    ensures |Samples(es, STEP)| == (|es| + STEP - 1) / STEP
    decreases |es|
  {
    if es != [] {
      SampleCount(es[..|es| - 1]);
    }
  }

  lemma {:induction false} IndexSize(idx: seq<IndexEntry>)
    requires forall x :: x in idx ==> |x.key| <= MAX_KEY && 0 <= x.offset < 0x1000_0000
    ensures |PutIndexEntries(idx)| <= 1030 * |idx|
    decreases |idx|
  {
    hide PutUvarint;
    if idx != [] {
      assert idx[0] in idx;
      SmallUvarint(|idx[0].key|);
      SmallUvarint(idx[0].offset);
      IndexSize(idx[1..]);
    }
  }

  lemma FilterSize(es: seq<Entry>, expected: nat)
    requires expected > 0
    ensures |Bloom.PutFilter(FilterOf(es, expected))| <= 20 + Val(Bloom.BitCount(expected, BITS_PER_KEY)) / 8
  {
    hide Bloom.PutWords, PutUvarint, Val, WholeWords, Bloom.HashCount, Bloom.BitCount, FilterOf;
    var f := FilterOf(es, expected);
    KeepsSize(es, expected);
    Bloom.PutWordsSize(f.bits);
    WordOfVal(f.numBits);
    UvarintRoundTrip(Val(f.numBits), []);
    UvarintRoundTrip(f.numHash, []);
  }

  lemma KeepsSize(es: seq<Entry>, expected: nat)
    requires expected > 0
    ensures FilterOf(es, expected).numBits == Bloom.BitCount(expected, BITS_PER_KEY)
  {
    hide Bloom.WellFormed, Bloom.BitCount, Bloom.HashCount, Bloom.Added;
    Bloom.EmptyIsWellFormed(expected, BITS_PER_KEY);
    AddedAllKeepsSize(Bloom.Empty(expected, BITS_PER_KEY), Keys(es));
  }

  lemma {:induction false} AddedAllKeepsSize(f: Bloom.Value, keys: seq<Str>)
    requires Bloom.WellFormed(f)
    ensures Bloom.AddedAll(f, keys).numBits == f.numBits
    decreases |keys|
  {
    hide Bloom.WellFormed, Bloom.Added;
    if keys != [] {
      AddedAllKeepsSize(f, keys[..|keys| - 1]);
    }
  }

  lemma MillionBits()
    ensures Val(Bloom.BitCount(ENTRIES_PER_CHUNK, BITS_PER_KEY)) == 0x10_0000
  {
    hide Val, IsPow2, Word, PowerFor;
    WordOfMillion();
    PowerForRoundsUp(1_000_000);
    MillionPower();
    MillionRoundsTo(PowerFor(1_000_000));
    ValOfPower20();
  }

  /** The filter of a compaction output, sized for 100000 keys at ten bits: 2^20 bits and eight hashes. */
  lemma OutputFilter()
    ensures var f := Bloom.Empty(ENTRIES_PER_CHUNK, BITS_PER_KEY);
      Val(f.numBits) == 0x10_0000 && f.numHash == 8
  {
    hide Val, Bloom.BitCount, Bloom.HashCount;
    MillionBits();
    Bloom.HashCountIs(0x10_0000, ENTRIES_PER_CHUNK);
  }

  /** A filter has at most twice the bits it was asked for, and at least 64. */
  lemma BitCountBound(expected: nat)
    requires expected * BITS_PER_KEY < TWO_64
    ensures Val(Bloom.BitCount(expected, BITS_PER_KEY)) <= 20 * expected + 65
  {
    hide Val, Bloom.BitCount, IsPow2;
    Bloom.BitCountIs(expected, BITS_PER_KEY);
  }

  /** How large the file of bounded entries gets. */
  lemma FileSize(es: seq<Entry>, expected: nat)
    requires forall e :: e in es ==> Bounded(e)
    requires expected > 0 && ChunkSize(es) <= INITIAL_SIZE
    ensures |FileBytes(es, STEP, expected)|
         <= ChunkSize(es) + 5 * |es| + 1030 * ((|es| + 127) / 128) + 64
            + Val(Bloom.BitCount(expected, BITS_PER_KEY)) / 8
    ensures 16 * |es| <= ChunkSize(es)
  {
    hide Data, Samples, FilterOf, PutUvarint, PutIndexEntries, Bloom.PutFilter, ChecksumNumber, Footer, ChunkSize;
    hide Val, Bloom.BitCount;
    DataBlockSize(es);
    SampleCount(es);
    SamplesIndexable(es, STEP);
    var idx := Samples(es, STEP);
    forall x | x in idx ensures |x.key| <= MAX_KEY && 0 <= x.offset < 0x1000_0000 {
      var e :| e in es && e.key == x.key;
    }
    IndexSize(idx);
    FilterSize(es, expected);
    UvarintRoundTrip(STEP, []);
    UvarintRoundTrip(|idx|, []);
  }

  /** Headroom: a compaction output within the target size, of entries within the bounds, fits the
      initial mapping with all its blocks, so none of Close's copies is cut. */
  lemma OutputFits(es: seq<Entry>)
    requires forall e :: e in es ==> Bounded(e)
    requires ChunkSize(es) <= TARGET_SIZE
    ensures |FileBytes(es, STEP, ENTRIES_PER_CHUNK)| <= INITIAL_SIZE
    ensures HasRoom(es, STEP, ENTRIES_PER_CHUNK)
  {
    hide FileBytes, ChunkSize, SizeAfter, Val, Bloom.BitCount, Bounded;
    MillionBits();
    FileSize(es, ENTRIES_PER_CHUNK);
  }

  /** What a memtable can hold so that its flush fits the initial mapping: 48 KiB above the default
      flush threshold. */
  const FLUSH_LIMIT: nat := TARGET_SIZE + 0xC000

  lemma FlushOutputFits(es: seq<Entry>)
    requires forall e :: e in es ==> Bounded(e)
    requires es != [] && ChunkSize(es) <= FLUSH_LIMIT
    ensures |FileBytes(es, STEP, |es|)| <= INITIAL_SIZE
    ensures HasRoom(es, STEP, |es|)
  {
    hide FileBytes, ChunkSize, SizeAfter, Val, Bloom.BitCount, Bounded;
    FileSize(es, |es|);
    BitCountBound(|es|);
  }

  // ----- runs of any size -----

  /** The sizes a mapping can have. */
  predicate MappingSize(p: nat) {
    p == INITIAL_SIZE || (p > INITIAL_SIZE && p % 2 == 0 && MappingSize(p / 2))
  }

  lemma {:induction false} NextSize(p: nat, q: nat)
    requires MappingSize(p) && MappingSize(q) && p < q
    ensures 2 * p <= q
    decreases q
  {
    LeastSize(p);
    LeastSize(q / 2);
    if p > INITIAL_SIZE {
      NextSize(p / 2, q / 2);
    }
  }

  lemma LeastSize(p: nat)
    ensures MappingSize(p) ==> p >= INITIAL_SIZE
  {
  }

  lemma {:induction false} DoubledIsSize(size: nat, target: nat)
    requires MappingSize(size)
    ensures MappingSize(DoubledBeyond(size, target))
    decreases target - size
  {
    LeastSize(size);
    if size <= target {
      DoubledIsSize(2 * size, target);
    }
  }

  lemma {:induction false} MappingAfter(es: seq<Entry>)
    ensures MappingSize(SizeAfter(es))
    decreases |es|
  {
    hide Data, MappingSize;
    SmallestMapping();
    if es != [] {
      MappingAfter(es[..|es| - 1]);
      if |Data(es)| > SizeAfter(es[..|es| - 1]) {
        DoubledIsSize(SizeAfter(es[..|es| - 1]), |Data(es)|);
      }
    }
  }

  lemma SmallestMapping()
    ensures MappingSize(INITIAL_SIZE)
  {
  }

  lemma {:induction false} AnyIndexSize(idx: seq<IndexEntry>)
    requires forall x :: x in idx ==> |x.key| <= MAX_KEY && 0 <= x.offset < TWO_64
    ensures |PutIndexEntries(idx)| <= 1036 * |idx|
    decreases |idx|
  {
    hide PutUvarint;
    if idx != [] {
      assert idx[0] in idx;
      SmallUvarint(|idx[0].key|);
      UvarintRoundTrip(idx[0].offset, []);
      AnyIndexSize(idx[1..]);
    }
  }

  /** How large the file of bounded entries gets, whatever their number. */
  lemma AnyFileSize(es: seq<Entry>)
    requires forall e :: e in es ==> Bounded(e)
    requires es != [] && ChunkSize(es) + 5 * |es| < TWO_63
    ensures |FileBytes(es, STEP, |es|)| <= ChunkSize(es) + 17 * |es| + 1200
    ensures 16 * |es| <= ChunkSize(es)
  {
    hide Data, Samples, FilterOf, PutUvarint, PutIndexEntries, Bloom.PutFilter, ChecksumNumber, Footer, ChunkSize;
    hide Val, Bloom.BitCount;
    DataBlockSize(es);
    SampleCount(es);
    SamplesIndexable(es, STEP);
    var idx := Samples(es, STEP);
    forall x | x in idx ensures |x.key| <= MAX_KEY && 0 <= x.offset < TWO_64 {
      var e :| e in es && e.key == x.key;
    }
    AnyIndexSize(idx);
    FilterSize(es, |es|);
    BitCountBound(|es|);
    UvarintRoundTrip(STEP, []);
    UvarintRoundTrip(|idx|, []);
  }

  /** Bounded entries whose data block outgrows one size of the mapping, but stays well inside the next, fit. */
  lemma BigRunFits(es: seq<Entry>, p: nat)
    requires forall e :: e in es ==> Bounded(e)
    requires es != [] && MappingSize(p) && p < |Data(es)| && ChunkSize(es) + 17 * |es| + 1200 <= 2 * p < TWO_63
    ensures HasRoom(es, STEP, |es|) && |es| < TWO_63 && |FileBytes(es, STEP, |es|)| < TWO_63
  {
    hide FileBytes, Data, ChunkSize, MappingSize, SizeAfter, Bounded;
    AnyFileSize(es);
    MappingAfter(es);
    NextSize(p, SizeAfter(es));
  }

  /** Without a bound on keys there is no such room: an entry whose key is more than half of the
      initial mapping is written there twice, the second copy does not fit, and Close panics. */
  lemma NoRoomForLongKey(e: Entry, expected: nat)
    requires 2 * |e.key| > INITIAL_SIZE && |Record(e)| <= INITIAL_SIZE
    ensures !HasRoom([e], STEP, expected) && CloseOf([e], STEP, expected) == Panics
  {
    hide Record, FilterOf, PutUvarint, Bloom.PutFilter, ChecksumNumber, Footer, PutIndexEntries;
    OneMapping(e);
    RecordHoldsKey(e);
    SamplesIndexable([e], STEP);
    SampleOfOne(e);
    IndexHoldsKey(IndexEntry(e.key, 0));
  }

  lemma OneMapping(e: Entry)
    ensures Data([e]) == Record(e)
    ensures |Record(e)| <= INITIAL_SIZE ==> SizeAfter([e]) == INITIAL_SIZE
  {
    hide Record;
    DataOne(e);
    EmptyStart();
    assert [e][..0] == [];
    assert SizeAfter([e]) == GrownFor(SizeAfter([]), |Data([e])|);
  }

  lemma RecordHoldsKey(e: Entry)
    ensures |Record(e)| >= |e.key|
  {
    hide PutUvarint, ChecksumNumber;
  }

  lemma IndexHoldsKey(x: IndexEntry)
    requires x.offset >= 0
    ensures |PutIndexEntries([x])| >= |x.key|
  {
    hide PutUvarint;
  }

  // ----- a value for every excess -----

  /** The bytes of a file of one entry that do not depend on its value. */
  function Overhead(key: Str): nat {
    |PutIndex(STEP, [IndexEntry(key, 0)])| + |Bloom.PutFilter(FilterOf([Entry(key, [], 0, false)], 1))| + FOOTER_SIZE
  }

  lemma OneFileSize(e: Entry)
    ensures |FileBytes([e], STEP, 1)| == |Record(e)| + Overhead(e.key) && Overhead(e.key) > 25
  {
    hide Record, PutUvarint, PutIndexEntries, Bloom.PutWords, ChecksumNumber, Bloom.AddedAll, Bloom.Empty;
    DataOne(e);
    SamplesIndexable([e], STEP);
    SampleOfOne(e);
    assert Keys([e]) == [e.key];
    assert Keys([Entry(e.key, [], 0, false)]) == [e.key];
  }

  lemma FourBytes(v: nat)
    requires 0x20_0000 <= v < 0x1000_0000
    ensures |PutUvarint(v)| == 4
  {
    var a := v / 128;
    var b := a / 128;
    var c := b / 128;
    assert |PutUvarint(c)| == 1;
    assert |PutUvarint(b)| == 2;
    assert |PutUvarint(a)| == 3;
  }

  /** Between 2 MiB and 256 MiB a longer value makes the record longer by as much. */
  lemma RecordGrows(e: Entry, f: Entry)
    requires e == f.(value := e.value)
    requires 0x20_0000 <= |e.value| < 0x1000_0000 && 0x20_0000 <= |f.value| < 0x1000_0000
    ensures |Record(e)| - |e.value| == |Record(f)| - |f.value|
  {
    hide PutUvarint, ChecksumNumber, Zigzag;
    FourBytes(|e.value|);
    FourBytes(|f.value|);
  }

  lemma OneEntrySize(e: Entry)
    requires Bounded(e)
    ensures |FileBytes([e], STEP, 1)| <= Cost(e) + 1200
  {
    hide FileBytes, Val, Bloom.BitCount;
    assert [e][..0] == [];
    assert ChunkSize([e]) == ChunkSize([e][..0]) + Cost(e);
    BitCountBound(1);
    FileSize([e], 1);
  }

  lemma LongValue(n: nat)
    ensures |Zeros(n)| == n
  {
  }

  /** For every key within the bounds there is a value whose flushed file is `n` bytes larger than its
      mapping. */
  lemma ValueForExcess(key: Str, ts: int, n: nat) returns (v: Str)
    requires |key| <= MAX_KEY && IsInt64(ts) && n <= 25
    ensures var es := [Entry(key, v, ts, false)];
      Writable(es, STEP, 1) && SizeAfter(es) == INITIAL_SIZE && |FileBytes(es, STEP, 1)| == INITIAL_SIZE + n
    ensures INITIAL_SIZE - 2240 <= |v| < INITIAL_SIZE
  {
    hide FileBytes, Record, Overhead, SizeAfter, Data;
    var f := Entry(key, Zeros(0x20_0000), ts, false);
    LongValue(0x20_0000);
    OneEntrySize(f);
    OneFileSize(f);
    var m := 0x20_0000 + (INITIAL_SIZE + n - |FileBytes([f], STEP, 1)|);
    v := Zeros(m);
    LongValue(m);
    var e := Entry(key, v, ts, false);
    RecordHoldsKey(f);
    RecordHoldsValue(f);
    RecordGrows(e, f);
    OneFileSize(e);
    OneMapping(e);
  }

  lemma RecordHoldsValue(e: Entry)
    ensures |Record(e)| >= |e.value|
  {
    hide PutUvarint, ChecksumNumber;
  }

  /** What Close does with it: the file opens if nothing is cut, does not open if up to 24 bytes are, and
      from 25 on Close panics. */
  lemma ExcessDecides(key: Str, v: Str, ts: int, n: nat)
    requires var es := [Entry(key, v, ts, false)];
      Writable(es, STEP, 1) && |FileBytes(es, STEP, 1)| == SizeAfter(es) + n
    ensures var c := CloseOf([Entry(key, v, ts, false)], STEP, 1);
      && (c == Panics <==> n >= 25)
      && (c.Leaves? ==> (Open(c.bytes, false).Opened? <==> n == 0))
      && (5 <= n <= 24 ==> Open(c.bytes, false) == BadMagic)
  {
    hide FileBytes, SizeAfter, Open, Writable;
    var es := [Entry(key, v, ts, false)];
    ClosedOpens(es, STEP, 1, false);
    WholeHasFooter(es, STEP, 1);
    if 1 <= n <= 24 {
      CutFooterDoesNotOpen(FileBytes(es, STEP, 1), SizeAfter(es), false);
    }
  }
}
