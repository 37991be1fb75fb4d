/** The sorted table objects: the writer over a growing mapping, the entry iterator, and the loops
    that read a table. */
module Sstable {
  import opened Bytes
  import opened Entries
  import opened Versions
  import opened Varint
  import opened Records
  import opened Crc32
  import opened SparseIndex
  import opened TableFormat
  import opened TableLookup
  import Bloom
  import opened Words

  const INITIAL_SIZE: nat := 0x80_0000

  /** The mapping is doubled until it exceeds the wanted size. */
  function DoubledBeyond(size: nat, target: nat): (r: nat)
    requires size > 0
    ensures size <= r && target < r
    decreases target - size
  {
    if size <= target then DoubledBeyond(2 * size, target) else size
  }

  /** It ends at the first doubling that does. */
  lemma {:induction false} DoublesBeyond(size: nat, target: nat, k: nat)
    requires size > 0
    ensures DoubledBeyond(size, target) == size * Pow2(k)
       <==> target < size * Pow2(k) && (k == 0 || size * Pow2(k - 1) <= target)
    decreases k
  {
    if k > 0 {
      TwiceAsMuch(size, k);
      if size <= target {
        DoublesBeyond(2 * size, target, k - 1);
        if k > 1 {
          TwiceAsMuch(size, k - 1);
        }
      }
    }
  }

  function GrownFor(size: nat, need: nat): (r: nat)
    requires size > 0
    ensures need <= r && size <= r
  {
    if need > size then DoubledBeyond(size, need) else size
  }

  /** The size of the mapping after the entries were appended. */
  function SizeAfter(es: seq<Entry>): (r: nat)
    ensures INITIAL_SIZE <= r && |Data(es)| <= r
  {
    if es == [] then INITIAL_SIZE else GrownFor(SizeAfter(es[..|es| - 1]), |Data(es)|)
  }

  lemma {:induction false} SomeDoubling(size: nat, target: nat) returns (k: nat)
    requires size > 0
    ensures DoubledBeyond(size, target) == size * Pow2(k)
    ensures size <= target ==> DoubledBeyond(size, target) <= 2 * target
    decreases target - size
  {
    k := 0;
    if size <= target {
      var j := SomeDoubling(2 * size, target);
      k := j + 1;
      TwiceAsMuch(size, k);
      if 2 * size > target {
        DoublesBeyond(2 * size, target, 0);
      }
    }
  }

  /** After any entries the mapping is 8 MiB doubled some number of times, and never more than twice the data once it
      was doubled. */
  lemma {:induction false} MappingIs(es: seq<Entry>) returns (k: nat)
    ensures SizeAfter(es) == 0x80_0000 * Pow2(k) && |Data(es)| <= SizeAfter(es)
    ensures k > 0 ==> SizeAfter(es) <= 2 * |Data(es)|
    decreases |es|
  {
    hide Record, DoubledBeyond;
    k := 0;
    if es != [] {
      var n := |es| - 1;
      assert es == es[..n] + [es[n]];
      DataAppend(es[..n], [es[n]]);
      k := MappingIs(es[..n]);
      var size := SizeAfter(es[..n]);
      if |Data(es)| > size {
        var j := SomeDoubling(size, |Data(es)|);
        Pow2Sum(k, j);
        k := k + j;
      }
    }
  }

  /** All blocks fit the mapping. */
  predicate HasRoom(es: seq<Entry>, step: nat, expected: nat)
    requires step > 0
  {
    |FileBytes(es, step, expected)| <= SizeAfter(es)
  }

  /** What Close does: it leaves a file, or a slice expression behind the end of the mapping panics. */
  datatype Closed = Leaves(bytes: Str) | Panics

  /** Close copies the blocks into the mapping as far as they fit and moves on by their whole length.
      Once index or filter is cut, the next slice starts behind the mapping. If only the footer is cut,
      the file is what fits, and truncating to the whole length fills up with zeros. */
  function CloseOf(es: seq<Entry>, step: nat, expected: nat): Closed
    requires step > 0
  {
    Clipped(FileBytes(es, step, expected), SizeAfter(es))
  }

  function Clipped(whole: Str, cap: nat): Closed {
    if |whole| <= cap then Leaves(whole)
    else if |whole| - cap <= FOOTER_SIZE then Leaves(whole[..cap] + Zeros(|whole| - cap))
    else Panics
  }

  lemma ClippedPanics(whole: Str, cap: nat)
    requires |whole| > cap + FOOTER_SIZE
    ensures Clipped(whole, cap) == Panics
  {
  }

  lemma ClippedLeaves(whole: Str, cap: nat, n: nat)
    requires |whole| <= cap + FOOTER_SIZE && n == Clip(|whole|, cap)
    ensures Clipped(whole, cap) == Leaves(whole[..n] + Zeros(|whole| - n))
  {
    if |whole| <= cap {
      assert whole[..n] + Zeros(0) == whole;
    }
  }

  lemma ClippedBytes(whole: Str, cap: nat)
    requires |whole| > cap && Clipped(whole, cap).Leaves?
    ensures var f := Clipped(whole, cap).bytes;
      |f| == |whole| && f[..cap] == whole[..cap] && f[cap..] == Zeros(|whole| - cap)
  {
  }

  function Clip(n: nat, cap: nat): nat {
    if n <= cap then n else cap
  }

  class Writer {
    var mmap: array<byte>
    var mmapCap: nat
    var count: nat
    var bytePos: nat
    var sparseIndex: Index
    var bloomFilter: Bloom.Filter
    var dataCRC: bv32
    var scratch: Str
    ghost var entries: seq<Entry>
    ghost var expected: nat

    ghost predicate Valid()
      reads this, mmap, sparseIndex, bloomFilter, bloomFilter.bits
    {
      && mmap as object != bloomFilter.bits
      && mmap.Length == mmapCap == SizeAfter(entries)
      && count == |entries|
      && bytePos == |Data(entries)|
      && mmap[..bytePos] == Data(entries)
      && sparseIndex.Valid()
      && sparseIndex.entries == Samples(entries, sparseIndex.step)
      && bloomFilter.Valid()
      && bloomFilter.State() == FilterOf(entries, expected)
      && dataCRC == Checksum(Data(entries))
    }

    /** The writer and the objects it owns. */
    ghost function Repr(): set<object>
      reads this, bloomFilter
    {
      {this, mmap, sparseIndex, bloomFilter, bloomFilter.bits}
    }

    /** CreateWriter. */
    constructor Create(expectedEntries: nat, step: int)
      ensures Valid() && fresh(Repr())
      ensures entries == [] && expected == expectedEntries && sparseIndex.step == if step <= 0 then 128 else step
    {
      hide Bloom.Empty, Bloom.WellFormed, FilterOf, Samples, Data, SizeAfter, Checksum;
      mmap := new byte[INITIAL_SIZE](_ => 0);
      mmapCap := INITIAL_SIZE;
      count, bytePos, dataCRC, scratch := 0, 0, 0, [];
      sparseIndex := new Index.New(step);
      bloomFilter := new Bloom.Filter.New(expectedEntries, BITS_PER_KEY);
      entries, expected := [], expectedEntries;
      new;
      EmptyStart();
      NothingAdded(expectedEntries, sparseIndex.step);
      assert mmap[..0] == [];
    }

    method Grow(target: nat)
      requires mmap.Length == mmapCap > 0
      modifies this`mmap, this`mmapCap
      ensures fresh(mmap) && mmap.Length == mmapCap == DoubledBeyond(old(mmapCap), target)
      ensures mmap[..old(mmapCap)] == old(mmap[..])
    {
      var was := mmap[..];
      while mmapCap <= target
        invariant mmapCap > 0 && mmapCap >= |was| && mmap == old(mmap)
        invariant DoubledBeyond(mmapCap, target) == DoubledBeyond(old(mmapCap), target)
        decreases target - mmapCap
      {
        mmapCap := mmapCap * 2;
      }
      mmap := new byte[mmapCap](i requires 0 <= i => if i < |was| then was[i] else 0);
      assert mmap[..|was|] == was;
    }

    /** Copies `buf` behind the bytes written so far. */
    method CopyIn(buf: Str)
      requires bytePos + |buf| <= mmap.Length
      modifies mmap, this`bytePos
      ensures bytePos == old(bytePos) + |buf|
      ensures mmap[..bytePos] == old(mmap[..bytePos]) + buf
    {
      forall i | 0 <= i < |buf| {
        mmap[bytePos + i] := buf[i];
      }
      assert mmap[..bytePos] == old(mmap[..bytePos]);
      assert mmap[bytePos..bytePos + |buf|] == buf;
      assert mmap[..bytePos + |buf|] == mmap[..bytePos] + mmap[bytePos..bytePos + |buf|];
      bytePos := bytePos + |buf|;
    }

    /** Grows the mapping when the record does not fit, then copies it in. */
    method Store(record: Str)
      requires mmap.Length == mmapCap > 0 && bytePos <= mmapCap
      modifies mmap, this`mmap, this`mmapCap, this`bytePos
      ensures mmap == old(mmap) || fresh(mmap)
      ensures bytePos == old(bytePos) + |record|
      ensures mmap.Length == mmapCap == GrownFor(old(mmapCap), bytePos)
      ensures mmap[..bytePos] == old(mmap[..bytePos]) + record
    {
      var need := bytePos + |record|;
      if need > mmapCap {
        ghost var before := mmap[..bytePos];
        Grow(need);
        assert mmap[..bytePos] == before;
      }
      CopyIn(record);
    }

    /** The key goes into the filter and, every step-th time, into the index. */
    method Note(key: Str, offset: nat)
      requires count > 0 && sparseIndex.Valid() && bloomFilter.Valid()
      modifies sparseIndex, bloomFilter.bits
      ensures bloomFilter.Valid() && bloomFilter.State() == Bloom.Added(old(bloomFilter.State()), key)
      ensures sparseIndex.Valid() && sparseIndex.step == old(sparseIndex.step)
      ensures sparseIndex.entries == old(sparseIndex.entries)
                + (if (count - 1) % sparseIndex.step == 0 then [IndexEntry(key, offset)] else [])
    {
      hide Bloom.WellFormed, Bloom.Added;
      bloomFilter.Add(key);
      if sparseIndex.ShouldIndex(count - 1) {
        sparseIndex.Add(key, offset);
      }
    }

    method Append(entry: Entry)
      requires Valid()
      modifies Repr()
      ensures Valid() && fresh(Repr() - old(Repr()))
      ensures sparseIndex.step == old(sparseIndex.step)
      ensures entries == old(entries) + [entry] && expected == old(expected)
    {
      hide Record, Checksum, FilterOf, Samples, SizeAfter, Data, Bloom.WellFormed, Bloom.Added;
      hide GrownFor, Update, Bloom.Filter.Valid, Bloom.Filter.State;
      scratch := PutRecord(entry);
      AppendFacts(entries, entry, sparseIndex.step, expected);
      SizePositive(entries);
      Store(scratch);
      dataCRC := Update(dataCRC, scratch);
      count := count + 1;
      assert bloomFilter.Valid() && bloomFilter.State() == FilterOf(entries, expected);
      Note(entry.key, bytePos - |scratch|);
      entries := entries + [entry];
    }

    /** copy into the mapping behind the position, as far as it goes; the position moves by all of it. */
    method CopyClipped(buf: Str)
      requires bytePos <= mmap.Length
      modifies mmap, this`bytePos
      ensures bytePos == old(bytePos) + |buf|
      ensures mmap[..Clip(bytePos, mmap.Length)] == (old(mmap[..bytePos]) + buf)[..Clip(bytePos, mmap.Length)]
    {
      var n := Clip(bytePos + |buf|, mmap.Length) - bytePos;
      ghost var before := mmap[..bytePos];
      forall i | 0 <= i < n {
        mmap[bytePos + i] := buf[i];
      }
      assert mmap[..bytePos] == before;
      assert mmap[bytePos..bytePos + n] == buf[..n];
      assert mmap[..bytePos + n] == mmap[..bytePos] + mmap[bytePos..bytePos + n];
      bytePos := bytePos + |buf|;
    }

    /** The copies of Close and its truncation. */
    method CopyBlocks(indexBuf: Str, bloomBuf: Str) returns (r: Closed)
      requires bytePos <= mmap.Length
      modifies mmap, this`bytePos
      ensures r == Clipped(old(mmap[..bytePos]) + indexBuf + bloomBuf
                             + Footer(old(bytePos), old(bytePos) + |indexBuf|, Number(dataCRC)), mmap.Length)
    {
      hide PutFixed, Clipped, Number, Footer;
      ghost var head := mmap[..bytePos];
      var indexOffset := bytePos;
      ghost var footer := Footer(bytePos, bytePos + |indexBuf|, Number(dataCRC));
      ghost var whole := head + indexBuf + bloomBuf + footer;
      CopyClipped(indexBuf);
      var bloomOffset := bytePos;
      if bytePos > mmap.Length {
        ClippedPanics(whole, mmap.Length);
        return Panics;
      }
      assert mmap[..bytePos] == head + indexBuf;
      CopyClipped(bloomBuf);
      if bytePos > mmap.Length {
        ClippedPanics(whole, mmap.Length);
        return Panics;
      }
      assert mmap[..bytePos] == head + indexBuf + bloomBuf;
      var footerBuf := PutFixed(indexOffset, 8) + PutFixed(bloomOffset, 8) + PutFixed(Number(dataCRC), 4) + MAGIC;
      FooterIs(indexOffset, bloomOffset, Number(dataCRC));
      CopyClipped(footerBuf);
      var n := Clip(bytePos, mmap.Length);
      r := Leaves(mmap[..n] + Zeros(bytePos - n));
      ClippedLeaves(whole, mmap.Length, n);
    }

    /** Close. */
    method Close() returns (r: Closed)
      requires Valid()
      modifies Repr()
      ensures r == CloseOf(old(entries), old(sparseIndex.step), old(expected))
    {
      hide Checksum, FilterOf, Samples, SizeAfter, Data, PutIndex, Footer, Bloom.PutFilter, Clipped;
      SamplesIndexable(entries, sparseIndex.step);
      SizePositive(entries);
      var indexBuf := WriteIndexBlock(sparseIndex.step, sparseIndex.entries);
      var bloomBuf := bloomFilter.Serialize();
      r := CopyBlocks(indexBuf, bloomBuf);
    }
  }

  lemma FooterIs(indexOffset: nat, bloomOffset: nat, crc: nat)
    ensures Footer(indexOffset, bloomOffset, crc)
         == PutFixed(indexOffset, 8) + PutFixed(bloomOffset, 8) + PutFixed(crc, 4) + MAGIC
  {
    hide PutFixed;
  }

  lemma SizePositive(es: seq<Entry>)
    ensures SizeAfter(es) > 0
  {
  }

  /** writeIndexBlock. */
  method WriteIndexBlock(step: nat, es: seq<IndexEntry>) returns (buf: Str)
    requires forall x :: x in es ==> x.offset >= 0
    ensures buf == PutIndex(step, es)
  {
    hide PutString, PutUvarint;
    buf := PutUvarint(step);
    buf := buf + PutUvarint(|es|);
    ghost var head := buf;
    for i := 0 to |es|
      invariant forall x :: x in es[..i] ==> x.offset >= 0
      invariant buf == head + PutIndexEntries(es[..i])
    {
      assert es[i] in es;
      IndexAppend(es[..i], es[i]);
      assert es[..i + 1] == es[..i] + [es[i]];
      StringBytes(es[i].key);
      buf := buf + (PutUvarint(|es[i].key|) + es[i].key);
      buf := buf + PutUvarint(es[i].offset);
    }
    assert es[..|es|] == es;
  }

  lemma EmptyStart()
    ensures Data([]) == [] && Checksum([]) == 0 && SizeAfter([]) == INITIAL_SIZE
  {
  }

  lemma NothingAdded(expected: nat, step: nat)
    requires step > 0
    ensures FilterOf([], expected) == Bloom.Empty(expected, BITS_PER_KEY) && Samples([], step) == []
  {
    hide Bloom.Empty, Bloom.WellFormed;
    Bloom.EmptyIsWellFormed(expected, BITS_PER_KEY);
    assert Keys([]) == [];
  }

  lemma StringBytes(s: Str)
    ensures PutString(s) == PutUvarint(|s|) + s
  {
  }

  /** The bytes Append collects in its scratch buffer. */
  method PutRecord(e: Entry) returns (scratch: Str)
    ensures scratch == Record(e)
  {
    hide PutUvarint, Zigzag, ChecksumNumber, PutFixed;
    var tomb := if e.tomb then 1 else 0;
    scratch := PutUvarint(|e.key|);
    scratch := scratch + e.key;
    scratch := scratch + PutUvarint(|e.value|);
    scratch := scratch + e.value;
    scratch := scratch + PutVarint(e.ts);
    scratch := scratch + [tomb];
    assert scratch == PutFields(e);
    scratch := scratch + PutFixed(ChecksumNumber(scratch), 4);
  }

  /** What one more entry adds to each part of a table. */
  lemma AppendFacts(es: seq<Entry>, e: Entry, step: nat, expected: nat)
    requires step > 0
    ensures Data(es + [e]) == Data(es) + Record(e)
    ensures Checksum(Data(es + [e])) == Update(Checksum(Data(es)), Record(e))
    ensures SizeAfter(es + [e]) == GrownFor(SizeAfter(es), |Data(es + [e])|)
    ensures FilterOf(es + [e], expected) == Bloom.Added(FilterOf(es, expected), e.key)
    ensures Samples(es + [e], step)
         == Samples(es, step) + (if |es| % step == 0 then [IndexEntry(e.key, |Data(es)|)] else [])
  {
    hide Record, Checksum, Data, Bloom.WellFormed, Bloom.Empty, Bloom.Added;
    DataAppend(es, [e]);
    DataOne(e);
    UpdateAppend(Data(es), Record(e));
    assert (es + [e])[..|es|] == es;
    assert Keys(es + [e])[..|es|] == Keys(es);
  }

  // ----- reading -----

  /** SSTable.Get's loop. */
  method ScanFor(t: SSTable, key: Str) returns (r: Probe)
    ensures r == Get(t, key)
  {
    hide GetString, GetTail, Bloom.WellFormed, Bloom.MayContain;
    if !Admits(t, key) {
      return Missing;
    }
    var offset := Lookup(t.index.entries, key);
    if !(0 <= offset <= |t.data|) {
      return Panicked;
    }
    var buf := t.data[offset..];
    ghost var start := buf;
    while |buf| > 0
      invariant Scan(buf, key) == Scan(start, key)
      decreases |buf|
    {
      var k := GetString(buf);
      if k.Stop? {
        break;
      }
      if k.Panic? {
        return Panicked;
      }
      var rest := buf[k.size..];
      if Less(key, k.item) {
        break;
      }
      var f := GetTail(rest);
      if f.Stop? {
        break;
      }
      if f.Panic? {
        return Panicked;
      }
      rest := rest[f.size..];
      assert rest == buf[k.size + f.size..];
      if |rest| < 4 {
        break;
      }
      if k.item == key {
        return Found(Entry(k.item, f.item.value, f.item.ts, f.item.tomb));
      }
      buf := rest[4..];
    }
    r := Missing;
  }

  /** The data block of the table holds exactly these entries. */
  ghost predicate Holds(t: SSTable, es: seq<Entry>) {
    t.dataSize <= |t.data| && t.data[..t.dataSize] == Data(es) && AllStorable(es)
  }

  /** An iterator over a table that was written from some entries. */
  class EntryIter {
    const sst: SSTable
    var pos: nat
    ghost var rest: seq<Entry>

    ghost predicate Valid()
      reads this
    {
      && pos <= sst.dataSize <= |sst.data|
      && sst.data[pos..sst.dataSize] == Data(rest)
      && AllStorable(rest)
    }

    constructor Start(t: SSTable, ghost es: seq<Entry>)
      requires Holds(t, es)
      ensures Valid() && rest == es && sst == t
    {
      sst, pos, rest := t, 0, es;
    }

    method Next() returns (r: Option<Entry>)
      requires Valid()
      modifies this
      ensures Valid()
      ensures old(rest) == [] ==> r == None && rest == []
      ensures old(rest) != [] ==> r == Some(old(rest)[0]) && rest == old(rest)[1..]
    {
      hide Record, GetRecord, Storable;
      if rest != [] {
        RecordAtHead(rest);
        assert sst.data[pos..] == Record(rest[0]) + (Data(rest[1..]) + sst.data[sst.dataSize..]) by {
          assert sst.data[pos..] == sst.data[pos..sst.dataSize] + sst.data[sst.dataSize..];
        }
        RecordRoundTrip(rest[0], Data(rest[1..]) + sst.data[sst.dataSize..]);
      }
      if pos >= sst.dataSize {
        return None;
      }
      var e := GetRecord(sst.data[pos..]);
      if !e.Parsed? {
        return None;
      }
      assert rest != [];
      assert sst.data[pos + e.size..sst.dataSize] == sst.data[pos..sst.dataSize][e.size..];
      pos := pos + e.size;
      rest := rest[1..];
      r := Some(e.item);
    }
  }

  lemma RecordAtHead(es: seq<Entry>)
    requires es != [] && AllStorable(es)
    ensures Data(es) == Record(es[0]) + Data(es[1..]) && |Record(es[0])| > 0
    ensures Storable(es[0])
  {
    hide Storable;
    RecordRoundTrip(es[0], []);
  }

  /** AllEntries' loop. */
  method AllEntries(t: SSTable) returns (r: Option<seq<Entry>>)
    requires t.dataSize <= |t.data|
    ensures r == GetAll(t.data[..t.dataSize])
  {
    hide GetRecord;
    var buf := t.data[..t.dataSize];
    var es: seq<Entry> := [];
    ghost var start := buf;
    if GetAll(start).Some? {
      assert [] + GetAll(start).value == GetAll(start).value;
    }
    while |buf| > 0
      invariant GetAll(start)
             == var more := GetAll(buf); if more.None? then None else Some(es + more.value)
      decreases |buf|
    {
      var e := GetRecord(buf);
      if e.Stop? {
        break;
      }
      if e.Panic? {
        return None;
      }
      ghost var more := GetAll(buf[e.size..]);
      if more.Some? {
        assert es + ([e.item] + more.value) == (es + [e.item]) + more.value;
      }
      es := es + [e.item];
      buf := buf[e.size..];
    }
    assert es + [] == es;
    r := Some(es);
  }

  /** parseIndexBlock's loop. */
  method ParseIndexEntries(data: Str, count: nat) returns (r: Option<seq<IndexEntry>>)
    ensures r == GetIndexEntries(data, count)
  {
    hide GetString, GetUvarint;
    var es: seq<IndexEntry> := [];
    var buf := data;
    var i := 0;
    if GetIndexEntries(data, count).Some? {
      assert [] + GetIndexEntries(data, count).value == GetIndexEntries(data, count).value;
    }
    while i < count
      invariant i <= count
      invariant GetIndexEntries(data, count)
             == var more := GetIndexEntries(buf, count - i); if more.None? then None else Some(es + more.value)
    {
      var k := GetString(buf);
      if k.Panic? {
        return None;
      }
      if k.Stop? {
        break;
      }
      var o := GetUvarint(buf[k.size..]);
      if o.None? {
        break;
      }
      ghost var more := GetIndexEntries(buf[k.size..][o.value.size..], count - i - 1);
      if more.Some? {
        assert es + ([IndexEntry(k.item, Bloom.AsInt(o.value.value))] + more.value)
            == (es + [IndexEntry(k.item, Bloom.AsInt(o.value.value))]) + more.value;
      }
      es := es + [IndexEntry(k.item, Bloom.AsInt(o.value.value))];
      buf := buf[k.size..][o.value.size..];
      i := i + 1;
    }
    assert es + [] == es;
    r := Some(es);
  }

  // ----- the whole file -----

  /** A table as Close writes it: sorted entries with lengths and offsets that fit an int. */
  ghost predicate Writable(es: seq<Entry>, step: nat, expected: nat)
    requires step > 0
  {
    && Sorted(es)
    && AllStorable(es)
    && step < TWO_63
    && |es| < TWO_63
    && |FileBytes(es, step, expected)| < TWO_63
  }

  /** Opening a written file gives back its index and its filter, and reading its data block gives
      back exactly the entries, in order. */
  lemma FileRoundTrip(es: seq<Entry>, step: nat, expected: nat, verify: bool)
    requires step > 0 && Writable(es, step, expected)
    ensures Open(FileBytes(es, step, expected), verify) == Opened(Written(es, step, expected))
    ensures Holds(Written(es, step, expected), es)
    ensures GetAll(Written(es, step, expected).data[..|Data(es)|]) == Some(es)
  {
    hide Storable, PutIndex, GetIndex, Bloom.PutFilter, FilterOf, Samples, Data, Footer, Behind, TableFormat.Open;
    hide GetFilterBlock, Assemble, ChecksumNumber;
    FileSplits(es, step, expected);
    SamplesIndexable(es, step);
    var idx := Samples(es, step);
    assert Indexable(idx) by {
      forall x | x in idx ensures |x.key| < TWO_63 && 0 <= x.offset < TWO_63 {
        var e :| e in es && e.key == x.key;
        KeyFits(e);
      }
    }
    IndexRoundTrip(step, idx);
    FilterBlockRoundTrip(FilterOf(es, expected));
    OpenAssembled(Data(es), PutIndex(step, idx), Bloom.PutFilter(FilterOf(es, expected)), IndexValue(step, idx),
                  FilterOf(es, expected), verify);
    DataRoundTrip(es);
  }

  /** A written file in which one byte of the data block has changed is not opened when the checksum is
      verified; without the test it opens with the same index and filter. */
  lemma DamageIsFound(es: seq<Entry>, step: nat, expected: nat, i: nat, c: byte)
    requires step > 0 && Writable(es, step, expected)
    requires i < |Data(es)| && Data(es)[i] != c
    ensures i < |FileBytes(es, step, expected)|
    ensures var file := FileBytes(es, step, expected)[i := c];
      && Open(file, true) == ChecksumMismatch
      && Open(file, false) == Opened(Written(es, step, expected).(data := file))
  {
    hide Storable, PutIndex, Bloom.PutFilter, FilterOf, Samples, Data, TableFormat.Open, Assemble;
    FileRoundTrip(es, step, expected, false);
    SamplesIndexable(es, step);
    DamagedAssembled(Data(es), PutIndex(step, Samples(es, step)), Bloom.PutFilter(FilterOf(es, expected)), i, c);
  }

  /** The same for any three blocks that open. */
  lemma DamagedAssembled(data: Str, index: Str, filter: Str, i: nat, c: byte)
    requires i < |data| && data[i] != c && |Assemble(data, index, filter)| < TWO_63
    requires Open(Assemble(data, index, filter), false).Opened?
    ensures i < |Assemble(data, index, filter)|
    ensures var whole := Assemble(data, index, filter); var file := whole[i := c];
      && Open(file, true) == ChecksumMismatch
      && Open(file, false) == Opened(Open(whole, false).table.(data := file))
  {
    hide Footer, TableFormat.Open, ChecksumNumber, OneOff, GetFixed, Assemble;
    var whole := Assemble(data, index, filter);
    AssembledBlocks(data, index, filter);
    FooterRoundTrip(|data|, |data| + |index|, ChecksumNumber(data));
    ByteChanged(data, i, c);
    OneOffTells(data, data[i := c]);
    var file := whole[i := c];
    assert file[..|data|] == whole[..|data|][i := c];
    assert file[|file| - FOOTER_SIZE..] == whole[|whole| - FOOTER_SIZE..];
    assert file[|data|..] == whole[|data|..];
    DamagedOpens(file, |data|, |data| + |index|, whole);
  }

  lemma ByteChanged(a: Str, i: nat, c: byte)
    requires i < |a| && a[i] != c
    ensures OneOff(a, a[i := c])
  {
  }

  /** Only the data block differs from a file that opens. */
  lemma DamagedOpens(file: Str, n: nat, m: nat, whole: Str)
    requires n <= m && m + FOOTER_SIZE <= |file| == |whole| && file[n..] == whole[n..]
    requires var footer := file[|file| - FOOTER_SIZE..];
      && GetFixed(footer[0..8]) == n && GetFixed(footer[8..16]) == m && footer[20..24] == MAGIC
      && GetFixed(footer[16..20]) != ChecksumNumber(file[..n])
    requires Open(whole, false).Opened?
    ensures Open(file, true) == ChecksumMismatch
    ensures Open(file, false) == Opened(Open(whole, false).table.(data := file))
  {
    hide GetFixed, GetIndex, ChecksumNumber, GetFilterBlock;
    SameBehind(file, whole, n, n, m);
    SameBehind(file, whole, n, m, |file| - FOOTER_SIZE);
    SameBehind(file, whole, n, |file| - FOOTER_SIZE, |file|);
    assert file[|file| - FOOTER_SIZE..] == whole[|file| - FOOTER_SIZE..];
  }

  lemma SameBehind(a: Str, b: Str, n: nat, i: nat, j: nat)
    requires n <= i <= j <= |a| == |b| && a[n..] == b[n..]
    ensures a[i..j] == b[i..j]
  {
    forall k | i <= k < j ensures a[k] == b[k] {
      assert a[n..][k - n] == a[k] && b[n..][k - n] == b[k];
    }
  }

  /** A file whose footer was cut does not open: its last byte is not that of the magic number. */
  lemma CutFooterDoesNotOpen(whole: Str, cap: nat, verify: bool)
    requires FOOTER_SIZE <= |whole| && cap < |whole| <= cap + FOOTER_SIZE
    ensures Open(Clipped(whole, cap).bytes, verify) in {Legacy, BadMagic}
    ensures |whole| >= cap + 5 ==> Open(Clipped(whole, cap).bytes, verify) == BadMagic
  {
    hide GetFixed, GetIndex, GetFilterBlock, ChecksumNumber;
    var file := Clipped(whole, cap).bytes;
    var footer := file[|file| - FOOTER_SIZE..];
    assert footer[20..24][3] == file[|file| - 1] == 0;
    if |whole| >= cap + 5 {
      assert footer[16..20][3] == file[|file| - 5] == 0;
    }
  }

  /** Close leaves a file that opens exactly when all blocks fit the mapping. */
  lemma ClosedOpens(es: seq<Entry>, step: nat, expected: nat, verify: bool)
    requires step > 0 && Writable(es, step, expected)
    ensures (CloseOf(es, step, expected).Leaves? && Open(CloseOf(es, step, expected).bytes, verify).Opened?)
       <==> HasRoom(es, step, expected)
    ensures HasRoom(es, step, expected) ==> CloseOf(es, step, expected) == Leaves(FileBytes(es, step, expected))
  {
    hide FileBytes, SizeAfter, Open, Storable, FilterOf, Samples, Data;
    FileRoundTrip(es, step, expected, verify);
    var whole, cap := FileBytes(es, step, expected), SizeAfter(es);
    WholeHasFooter(es, step, expected);
    if cap < |whole| <= cap + FOOTER_SIZE {
      CutFooterDoesNotOpen(whole, cap, verify);
    }
  }

  lemma WholeHasFooter(es: seq<Entry>, step: nat, expected: nat)
    requires step > 0
    ensures |FileBytes(es, step, expected)| >= FOOTER_SIZE
  {
    hide Data, Samples, FilterOf, PutIndex, Bloom.PutFilter, ChecksumNumber, Footer;
    SamplesIndexable(es, step);
  }

  lemma KeyFits(e: Entry)
    requires Storable(e)
    ensures |e.key| < TWO_63
  {
  }
}
