/** The sorted table as bytes: records, index block, filter block and footer, what Open reads from
    them, and what a lookup finds. */
module TableFormat {
  import opened Bytes
  import opened Entries
  import opened Versions
  import opened Varint
  import opened Records
  import opened Crc32
  import opened SparseIndex
  import Bloom

  const STEP: nat := 128
  const BITS_PER_KEY: nat := 10
  const FOOTER_SIZE: nat := 24
  const MAGIC: Str := [76, 83, 77, 50]
  const LEGACY_MAGIC: Str := [76, 83, 77, 49]

  // ----- the data block -----

  function Record(e: Entry): Str {
    PutFields(e) + PutFixed(ChecksumNumber(PutFields(e)), 4)
  }

  function Data(es: seq<Entry>): Str {
    if es == [] then [] else Record(es[0]) + Data(es[1..])
  }

  /** parseEntry: the fields, then four checksum bytes that are skipped. */
  function GetRecord(buf: Str): (r: Parse<Entry>)
    ensures r.Parsed? ==> 1 <= r.size <= |buf|
  {
    var f := GetFields(buf);
    if f.Parsed? && f.size + 4 > |buf| then Stop
    else if f.Parsed? then Parsed(f.item, f.size + 4)
    else f
  }

  predicate AllStorable(es: seq<Entry>) {
    forall e :: e in es ==> Storable(e)
  }

  lemma {:induction false} DataAppend(a: seq<Entry>, b: seq<Entry>)
    ensures Data(a + b) == Data(a) + Data(b)
    decreases |a|
  {
    hide Record;
    if a == [] {
      assert a + b == b;
    } else {
      DataAppend(a[1..], b);
      assert (a + b)[1..] == a[1..] + b;
    }
  }

  lemma DataOne(e: Entry)
    ensures Data([e]) == Record(e)
  {
    hide Record;
    assert Data([e]) == Record(e) + Data([]);
  }

  lemma RecordRoundTrip(e: Entry, rest: Str)
    requires Storable(e)
    ensures GetRecord(Record(e) + rest) == Parsed(e, |Record(e)|)
  {
    hide PutFields, GetFields, Storable, ChecksumNumber, PutFixed;
    var f, c := PutFields(e), PutFixed(ChecksumNumber(PutFields(e)), 4);
    FieldsRoundTrip(e, c + rest);
    assert Record(e) + rest == f + (c + rest);
  }

  /** AllEntries: the records of a data block, up to the first that cannot be read. */
  function GetAll(buf: Str): (r: Option<seq<Entry>>)
    decreases |buf|
  {
    if buf == [] then Some([])
    else
      var e := GetRecord(buf);
      if e.Stop? then Some([])
      else if e.Panic? then None
      else
        var rest := GetAll(buf[e.size..]);
        if rest.None? then None else Some([e.item] + rest.value)
  }

  lemma {:induction false} DataRoundTrip(es: seq<Entry>)
    requires AllStorable(es)
    ensures GetAll(Data(es)) == Some(es)
    decreases |es|
  {
    hide Record, GetRecord, Storable;
    if es != [] {
      var h, t := Record(es[0]), Data(es[1..]);
      RecordRoundTrip(es[0], t);
      DataRoundTrip(es[1..]);
      assert (h + t)[|h|..] == t;
      assert es == [es[0]] + es[1..];
    }
  }

  lemma RecordCutShort(e: Entry, n: nat)
    requires Storable(e) && n < |Record(e)|
    ensures GetRecord(Record(e)[..n]) == Stop
  {
    hide PutFields, GetFields, Storable, PutFixed, ChecksumNumber;
    var f, c := PutFields(e), PutFixed(ChecksumNumber(PutFields(e)), 4);
    if n < |f| {
      FieldsCutShort(e, n);
      assert Record(e)[..n] == f[..n];
    } else {
      FieldsRoundTrip(e, c[..n - |f|]);
      assert Record(e)[..n] == f + c[..n - |f|];
    }
  }

  /** Of a data block that was cut short the whole records are read, and nothing of the one that was cut. */
  lemma {:induction false} DataCutShort(es: seq<Entry>, k: nat, n: nat)
    requires AllStorable(es) && k < |es| && |Data(es[..k])| <= n < |Data(es[..k + 1])|
    ensures n < |Data(es)| && GetAll(Data(es)[..n]) == Some(es[..k])
    decreases |es|
  {
    hide Record, GetRecord, Storable;
    var h, t := Record(es[0]), Data(es[1..]);
    assert es[..k + 1][1..] == es[1..][..k];
    if k == 0 {
      assert Data(es[..1]) == h + Data([]) == h;
      RecordCutShort(es[0], n);
      assert Data(es)[..n] == h[..n];
    } else {
      assert es[..k][1..] == es[1..][..k - 1];
      DataCutShort(es[1..], k - 1, n - |h|);
      var rest := t[..n - |h|];
      RecordRoundTrip(es[0], rest);
      assert Data(es)[..n] == h + rest && (h + rest)[|h|..] == rest;
      assert es[..k] == [es[0]] + es[1..][..k - 1];
    }
  }

  // ----- the index block -----

  /** The entries the writer samples: every step-th key with the offset of its record. */
  function Samples(es: seq<Entry>, step: nat): seq<IndexEntry>
    requires step > 0
  {
    if es == [] then []
    else
      var n := |es| - 1;
      Samples(es[..n], step)
        + (if n % step == 0 then [IndexEntry(es[n].key, |Data(es[..n])|)] else [])
  }

  function PutIndexEntries(idx: seq<IndexEntry>): Str
    requires forall x :: x in idx ==> x.offset >= 0
  {
    if idx == [] then []
    else PutIndexEntry(idx[0]) + PutIndexEntries(idx[1..])
  }

  function PutIndexEntry(x: IndexEntry): Str
    requires x.offset >= 0
  {
    PutString(x.key) + PutUvarint(x.offset)
  }

  /** writeIndexBlock. */
  function PutIndex(step: nat, idx: seq<IndexEntry>): Str
    requires forall x :: x in idx ==> x.offset >= 0
  {
    PutUvarint(step) + (PutUvarint(|idx|) + PutIndexEntries(idx))
  }

  /** parseIndexBlock's loop; None is a panic. */
  function GetIndexEntries(r: Str, count: nat): Option<seq<IndexEntry>>
    decreases count
  {
    if count == 0 then Some([])
    else
      var k := GetString(r);
      if k.Panic? then None
      else if k.Stop? then Some([])
      else
        var o := GetUvarint(r[k.size..]);
        if o.None? then Some([])
        else
          var rest := GetIndexEntries(r[k.size..][o.value.size..], count - 1);
          if rest.None? then None
          else Some([IndexEntry(k.item, Bloom.AsInt(o.value.value))] + rest.value)
  }

  datatype IndexValue = IndexValue(step: nat, entries: seq<IndexEntry>)

  /** parseIndexBlock. */
  function GetIndex(data: Str): Option<IndexValue> {
    var s := GetUvarint(data);
    if s.None? then Some(IndexValue(DEFAULT_STEP, []))
    else
      var step := StepOf(Bloom.AsInt(s.value.value));
      var c := GetUvarint(data[s.value.size..]);
      if c.None? then Some(IndexValue(step, []))
      else
        var es := GetIndexEntries(data[s.value.size..][c.value.size..], c.value.value);
        if es.None? then None else Some(IndexValue(step, es.value))
  }

  /** Sampled keys and offsets a Go process can hold. */
  predicate Indexable(idx: seq<IndexEntry>) {
    |idx| < TWO_63 && forall x :: x in idx ==> |x.key| < TWO_63 && 0 <= x.offset < TWO_63
  }

  lemma {:induction false} IndexEntriesRoundTrip(idx: seq<IndexEntry>, rest: Str)
    requires Indexable(idx)
    ensures GetIndexEntries(PutIndexEntries(idx) + rest, |idx|) == Some(idx)
    decreases |idx|
  {
    hide PutString, GetString, PutUvarint, GetUvarint;
    if idx != [] {
      var x := idx[0];
      var k, o, t := PutString(x.key), PutUvarint(x.offset), PutIndexEntries(idx[1..]);
      assert x in idx;
      StringRoundTrip(x.key, o + (t + rest));
      UvarintRoundTrip(x.offset, t + rest);
      IndexEntriesRoundTrip(idx[1..], rest);
      assert PutIndexEntries(idx) == (k + o) + t;
      assert PutIndexEntries(idx) + rest == k + (o + (t + rest));
      assert (k + (o + (t + rest)))[|k|..] == o + (t + rest);
      assert (o + (t + rest))[|o|..] == t + rest;
      assert idx == [x] + idx[1..];
    }
  }

  lemma IndexRoundTrip(step: nat, idx: seq<IndexEntry>)
    requires 0 < step < TWO_63 && Indexable(idx)
    ensures GetIndex(PutIndex(step, idx)) == Some(IndexValue(step, idx))
  {
    hide PutUvarint, GetUvarint, PutIndexEntries, GetIndexEntries;
    var s, c, t := PutUvarint(step), PutUvarint(|idx|), PutIndexEntries(idx);
    UvarintRoundTrip(step, c + t);
    UvarintRoundTrip(|idx|, t);
    IndexEntriesRoundTrip(idx, []);
    assert t + [] == t;
    assert (s + (c + t))[|s|..] == c + t && (c + t)[|c|..] == t;
  }

  lemma {:induction false} IndexAppend(idx: seq<IndexEntry>, x: IndexEntry)
    requires forall y :: y in idx ==> y.offset >= 0
    requires x.offset >= 0
    ensures PutIndexEntries(idx + [x]) == PutIndexEntries(idx) + PutIndexEntry(x)
    decreases |idx|
  {
    hide PutIndexEntry;
    if idx == [] {
      assert idx + [x] == [x];
      assert PutIndexEntries([x]) == PutIndexEntry(x) + PutIndexEntries([]);
    } else {
      IndexAppend(idx[1..], x);
      assert (idx + [x])[1..] == idx[1..] + [x];
    }
  }

  /** Every sample is the key and the offset of one of the entries, in their order; the first is
      the first entry's. */
  lemma {:induction false} SamplesSound(es: seq<Entry>, step: nat)
    requires step > 0 && Sorted(es)
    ensures SortedIndex(Samples(es, step))
    ensures forall x :: x in Samples(es, step) ==>
              exists i :: 0 <= i < |es| && SampleOf(x, es, i)
    ensures es != [] ==> Samples(es, step) != [] && SampleOf(Samples(es, step)[0], es, 0)
    decreases |es|
  {
    hide Data;
    if es != [] {
      var n := |es| - 1;
      var init := es[..n];
      SamplesSound(init, step);
      var before, all := Samples(init, step), Samples(es, step);
      forall x | x in before ensures exists i :: 0 <= i < n && SampleOf(x, es, i) && x.key == es[i].key {
        var i :| 0 <= i < |init| && SampleOf(x, init, i);
        assert es[..n][..i] == es[..i];
        assert SampleOf(x, es, i);
      }
      if n % step == 0 {
        assert SampleOf(all[|all| - 1], es, n);
        forall p | 0 <= p < |before| ensures Less(all[p].key, all[|before|].key) {
          assert before[p] in before;
        }
      }
      if n == 0 {
        assert es[..0] == [];
      } else {
        assert all[0] == before[0] && before[0] in before;
        assert es[..n][..0] == es[..0];
      }
    }
  }

  ghost predicate SampleOf(x: IndexEntry, es: seq<Entry>, i: nat)
    requires i < |es|
  {
    x.key == es[i].key && x.offset == |Data(es[..i])|
  }

  // ----- the file -----

  function Keys(es: seq<Entry>): seq<Str> {
    seq(|es|, i requires 0 <= i < |es| => es[i].key)
  }

  /** The filter of a table whose writer was told to expect `expected` entries. */
  function FilterOf(es: seq<Entry>, expected: nat): (f: Bloom.Value)
    ensures Bloom.WellFormed(f)
  {
    Bloom.EmptyIsWellFormed(expected, BITS_PER_KEY);
    Bloom.AddedAll(Bloom.Empty(expected, BITS_PER_KEY), Keys(es))
  }

  function Footer(indexOffset: nat, bloomOffset: nat, crc: nat): (r: Str)
    ensures |r| == FOOTER_SIZE
  {
    PutFixed(indexOffset, 8) + PutFixed(bloomOffset, 8) + PutFixed(crc, 4) + MAGIC
  }

  function Assemble(data: Str, index: Str, filter: Str): Str {
    data + index + filter + Footer(|data|, |data| + |index|, ChecksumNumber(data))
  }

  // ----- opening -----

  datatype SSTable = SSTable(data: Str, dataSize: nat, index: IndexValue, filter: Option<Bloom.Value>)

  datatype Outcome =
    | Opened(table: SSTable)
    | TooSmall
    | BadMagic
    | Legacy
    | ChecksumMismatch
    | OutOfRange

  /** parseBloomBlock on a block of `length` bytes. */
  function GetFilterBlock(block: Str): Option<Bloom.Value> {
    if block == [] || block == [0] then None else Bloom.GetFilter(block)
  }

  /** Open, or OpenNoVerify when `verify` is off. */
  function Open(file: Str, verify: bool): Outcome {
    if |file| < FOOTER_SIZE then TooSmall
    else
      var footer := file[|file| - FOOTER_SIZE..];
      if footer[20..24] != MAGIC then
        if footer[16..20] == LEGACY_MAGIC then Legacy else BadMagic
      else
        var indexOffset := GetFixed(footer[0..8]);
        var bloomOffset := GetFixed(footer[8..16]);
        if indexOffset > |file| then OutOfRange
        else if verify && ChecksumNumber(file[..indexOffset]) != GetFixed(footer[16..20]) then ChecksumMismatch
        else if !(indexOffset <= bloomOffset <= |file|) then OutOfRange
        else
          var index := GetIndex(file[indexOffset..bloomOffset]);
          if index.None? then OutOfRange
          else
            var block := if bloomOffset + FOOTER_SIZE <= |file| then file[bloomOffset..|file| - FOOTER_SIZE] else [];
            Opened(SSTable(file, indexOffset, index.value, GetFilterBlock(block)))
  }

  lemma FooterRoundTrip(i: nat, b: nat, c: nat)
    requires i < TWO_64 && b < TWO_64 && c < TWO_32
    ensures var f := Footer(i, b, c);
      GetFixed(f[0..8]) == i && GetFixed(f[8..16]) == b && GetFixed(f[16..20]) == c && f[20..24] == MAGIC
  {
    hide PutFixed, GetFixed;
    Fixed64RoundTrip(i);
    Fixed64RoundTrip(b);
    Fixed32RoundTrip(c);
    var f := Footer(i, b, c);
    assert f[0..8] == PutFixed(i, 8) && f[8..16] == PutFixed(b, 8) && f[16..20] == PutFixed(c, 4);
  }

  /** What Close assembled opens again: the checksum matches, and index and filter are those that
      were written. */
  lemma OpenAssembled(data: Str, i: Str, b: Str, index: IndexValue, f: Bloom.Value, verify: bool)
    requires GetIndex(i) == Some(index) && GetFilterBlock(b) == Some(f)
    requires |Assemble(data, i, b)| < TWO_63
    ensures Open(Assemble(data, i, b), verify) == Opened(SSTable(Assemble(data, i, b), |data|, index, Some(f)))
  {
    hide GetFixed, GetIndex, GetFilterBlock, Footer, ChecksumNumber, Assemble, Open;
    AssembledBlocks(data, i, b);
    FooterRoundTrip(|data|, |data| + |i|, ChecksumNumber(data));
    OpenBlocks(Assemble(data, i, b), |data|, |data| + |i|, index, f, verify);
  }

  lemma FilterBlockRoundTrip(f: Bloom.Value)
    requires Bloom.WellFormed(f)
    ensures GetFilterBlock(Bloom.PutFilter(f)) == Some(f)
  {
    hide Bloom.WellFormed, Bloom.PutFilter, Bloom.GetFilter;
    Bloom.FilterRoundTrip(f);
    FilterBytes(f);
  }

  lemma OpenBlocks(file: Str, n: nat, m: nat, index: IndexValue, f: Bloom.Value, verify: bool)
    requires n <= m && m + FOOTER_SIZE <= |file|
    requires var footer := file[|file| - FOOTER_SIZE..];
      && GetFixed(footer[0..8]) == n
      && GetFixed(footer[8..16]) == m
      && GetFixed(footer[16..20]) == ChecksumNumber(file[..n])
      && footer[20..24] == MAGIC
    requires GetIndex(file[n..m]) == Some(index)
    requires GetFilterBlock(file[m..|file| - FOOTER_SIZE]) == Some(f)
    ensures Open(file, verify) == Opened(SSTable(file, n, index, Some(f)))
  {
    hide GetFixed, GetIndex, ChecksumNumber, GetFilterBlock;
  }

  lemma AssembledBlocks(data: Str, i: Str, b: Str)
    ensures var file := Assemble(data, i, b);
      && |file| == |data| + |i| + |b| + FOOTER_SIZE
      && file[|file| - FOOTER_SIZE..] == Footer(|data|, |data| + |i|, ChecksumNumber(data))
      && file[..|data|] == data
      && file[|data|..|data| + |i|] == i
      && file[|data| + |i|..|file| - FOOTER_SIZE] == b
  {
    hide Footer, ChecksumNumber;
  }

  lemma FilterBytes(f: Bloom.Value)
    requires Bloom.WellFormed(f)
    ensures |Bloom.PutFilter(f)| >= 2
  {
  }

  // ----- what Open accepts -----

  /** The file ends in the footer for an index block from the data's end to `m`, and the blocks parse. */
  ghost predicate SplitsAt(file: Str, t: SSTable, m: nat)
    requires |file| >= FOOTER_SIZE
  {
    && t.data == file && t.dataSize <= m <= |file|
    && file[|file| - FOOTER_SIZE..] == Footer(t.dataSize, m, ChecksumNumber(file[..t.dataSize]))
    && GetIndex(file[t.dataSize..m]) == Some(t.index)
    && t.filter == GetFilterBlock(if m + FOOTER_SIZE <= |file| then file[m..|file| - FOOTER_SIZE] else [])
  }

  lemma FooterRestored(f: Str)
    requires |f| == FOOTER_SIZE && f[20..24] == MAGIC
    ensures f == Footer(GetFixed(f[0..8]), GetFixed(f[8..16]), GetFixed(f[16..20]))
  {
    hide PutFixed, GetFixed;
    FixedRestored(f[0..8]);
    FixedRestored(f[8..16]);
    FixedRestored(f[16..20]);
    assert f == f[0..8] + f[8..16] + f[16..20] + f[20..24];
  }

  /** Open with verification accepts exactly the files that end in the footer of two offsets inside them and of
      the checksum of the bytes before the first, with an index between the two. */
  lemma OpenExact(file: Str, t: SSTable)
    requires |file| < TWO_63
    ensures Open(file, true) == Opened(t) <==> |file| >= FOOTER_SIZE && exists m :: SplitsAt(file, t, m)
  {
    hide PutFixed, GetFixed, GetIndex, ChecksumNumber, GetFilterBlock, Footer;
    if |file| >= FOOTER_SIZE {
      var f := file[|file| - FOOTER_SIZE..];
      if Open(file, true) == Opened(t) {
        FooterRestored(f);
        assert SplitsAt(file, t, GetFixed(f[8..16]));
      }
      if m :| SplitsAt(file, t, m) {
        FooterRoundTrip(t.dataSize, m, ChecksumNumber(file[..t.dataSize]));
      }
    }
  }

  // ----- the legacy format -----

  lemma HighHalf(v: nat)
    requires v < TWO_64
    ensures PutFixed(v, 8)[4..8] == PutFixed(v / TWO_32, 4)
  {
    hide PutFixed;
    var a, b, c := v / 256, v / 256 / 256, v / 256 / 256 / 256;
    FixedStep(v, 8);
    FixedStep(a, 7);
    FixedStep(b, 6);
    FixedStep(c, 5);
    assert c / 256 == v / TWO_32;
  }

  lemma LegacyNumber()
    ensures GetFixed(LEGACY_MAGIC) == 0x314D_534C && |LEGACY_MAGIC| == 4
  {
    assert GetFixed([77, 49]) == 77 + 256 * 49;
    assert LEGACY_MAGIC[1..][1..] == [77, 49];
  }

  /** A file of the legacy format ends in two offsets and its magic number, 20 bytes. Open looks for that number four
      bytes too early: it refuses the file, unless the upper half of the second offset happens to spell it. */
  lemma LegacyIsRefused(blocks: Str, i: nat, b: nat, verify: bool)
    requires b < TWO_64
    ensures Open(blocks + PutFixed(i, 8) + PutFixed(b, 8) + LEGACY_MAGIC, verify)
         == if |blocks| < 4 then TooSmall else if b / TWO_32 == 0x314D_534C then Legacy else BadMagic
  {
    hide PutFixed, GetFixed, Open, LEGACY_MAGIC;
    var file := blocks + PutFixed(i, 8) + PutFixed(b, 8) + LEGACY_MAGIC;
    HighHalf(b);
    LegacyNumber();
    Fixed32RoundTrip(b / TWO_32);
    FixedRestored(LEGACY_MAGIC);
    if |blocks| < 4 {
      ShortIsTooSmall(file, verify);
    } else {
      LastBytes(blocks, PutFixed(i, 8), PutFixed(b, 8));
      OtherMagic(file, verify);
    }
  }

  lemma ShortIsTooSmall(file: Str, verify: bool)
    requires |file| < FOOTER_SIZE
    ensures Open(file, verify) == TooSmall
  {
    hide PutFixed, GetFixed, GetIndex, ChecksumNumber, GetFilterBlock;
  }

  lemma OtherMagic(file: Str, verify: bool)
    requires |file| >= FOOTER_SIZE
    requires var f := file[|file| - FOOTER_SIZE..]; f[20..24] == LEGACY_MAGIC
    ensures var f := file[|file| - FOOTER_SIZE..];
      Open(file, verify) == if f[16..20] == LEGACY_MAGIC then Legacy else BadMagic
  {
    hide PutFixed, GetFixed, GetIndex, ChecksumNumber, GetFilterBlock;
    assert LEGACY_MAGIC[3] != MAGIC[3];
  }

  lemma LastBytes(blocks: Str, p: Str, q: Str)
    requires |blocks| >= 4 && |p| == 8 && |q| == 8
    ensures var file := blocks + p + q + LEGACY_MAGIC; var f := file[|file| - FOOTER_SIZE..];
      |file| >= FOOTER_SIZE && f[16..20] == q[4..8] && f[20..24] == LEGACY_MAGIC
  {
    var file := blocks + p + q + LEGACY_MAGIC;
    var f := file[|file| - FOOTER_SIZE..];
    assert f == blocks[|blocks| - 4..] + p + q + LEGACY_MAGIC;
    assert f[16..20] == q[4..8];
  }
}
