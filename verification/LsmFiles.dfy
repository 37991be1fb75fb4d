/** The loops over open table files: sorting level 0 by path, the key range of what is compacted,
    splitting level 1 by overlap, searching a level, and merging. */
module LsmFiles {
  import opened Bytes
  import opened Entries
  import opened Versions
  import opened TableFormat
  import opened TableLookup
  import opened Sstable
  import opened Compaction
  import opened Chunks
  import opened Paths
  import opened LsmModel
  import opened LsmTables
  import opened LsmGet
  import DoCompact

  /** An open table: its file's name and what Open read. */
  datatype TableFile = TableFile(name: Name, sst: SSTable)

  function FileOf(t: Table): TableFile {
    TableFile(NameOf(t), Handle(t))
  }

  function OpenedAll(ts: seq<Table>): (fs: seq<TableFile>)
    ensures |fs| == |ts| && forall i :: 0 <= i < |ts| ==> fs[i] == FileOf(ts[i])
  {
    seq(|ts|, i requires 0 <= i < |ts| => FileOf(ts[i]))
  }

  lemma OpenedSlice(ts: seq<Table>, i: nat)
    requires i <= |ts|
    ensures OpenedAll(ts[..i]) == OpenedAll(ts)[..i] && OpenedAll(ts[i..]) == OpenedAll(ts)[i..]
  {
    hide FileOf;
  }

  lemma OpenedAppend(ts: seq<Table>, us: seq<Table>)
    ensures OpenedAll(ts + us) == OpenedAll(ts) + OpenedAll(us)
  {
    hide FileOf;
  }

  lemma OpenedOne(t: Table)
    ensures OpenedAll([t]) == [FileOf(t)]
  {
    hide FileOf;
  }

  // ----- sorting -----

  lemma InsertedStep(ts: seq<Table>, t: Table, p: nat)
    requires 0 < p <= |ts|
    ensures Inserted(ts[..p], t)
         == if NameBelow(t, ts[p - 1]) then Inserted(ts[..p - 1], t) + [ts[p - 1]] else ts[..p] + [t]
  {
    hide NameBelow;
    assert ts[..p][..p - 1] == ts[..p - 1];
  }

  /** One table put in its place. */
  method InsertByPath(fs: seq<TableFile>, f: TableFile, ghost ts: seq<Table>, ghost t: Table)
    returns (r: seq<TableFile>)
    requires fs == OpenedAll(ts) && f == FileOf(t)
    ensures r == OpenedAll(Inserted(ts, t))
  {
    hide Handle, Inserted, FileName;
    var p := |fs|;
    assert ts[..p] == ts && fs[p..] == [];
    while p > 0 && Less(FileName(f.name), FileName(fs[p - 1].name))
      invariant p <= |fs|
      invariant OpenedAll(Inserted(ts, t)) == OpenedAll(Inserted(ts[..p], t)) + fs[p..]
    {
      InsertedStep(ts, t, p);
      OpenedAppend(Inserted(ts[..p - 1], t), [ts[p - 1]]);
      OpenedOne(ts[p - 1]);
      p := p - 1;
    }
    if p > 0 {
      InsertedStep(ts, t, p);
    } else {
      InsertedFirst(t);
      assert ts[..0] == [];
    }
    OpenedAppend(ts[..p], [t]);
    OpenedOne(t);
    OpenedSlice(ts, p);
    r := fs[..p] + [f] + fs[p..];
  }

  lemma InsertedFirst(t: Table)
    ensures Inserted([], t) == [] + [t]
  {
  }

  /** sort.Slice by path on a copy of the list. */
  method SortByPath(fs: seq<TableFile>, ghost ts: seq<Table>) returns (sorted: seq<TableFile>)
    requires fs == OpenedAll(ts)
    ensures sorted == OpenedAll(ByPath(ts))
    ensures forall i, j :: 0 <= i < j < |sorted| ==> !Less(FileName(sorted[j].name), FileName(sorted[i].name))
  {
    hide FileOf, Inserted, FileName;
    sorted := [];
    for i := 0 to |fs|
      invariant sorted == OpenedAll(ByPath(ts[..i]))
    {
      assert ts[..i + 1][..i] == ts[..i];
      sorted := InsertByPath(sorted, fs[i], ByPath(ts[..i]), ts[i]);
    }
    assert ts[..|fs|] == ts;
    PathsInOrder(ts);
  }

  lemma PathsInOrder(ts: seq<Table>)
    ensures var r := OpenedAll(ByPath(ts));
      forall i, j :: 0 <= i < j < |r| ==> !Less(FileName(r[j].name), FileName(r[i].name))
  {
    hide FileName, Handle;
    ByPathSorts(ts);
    var b, r := ByPath(ts), OpenedAll(ByPath(ts));
    forall i, j | 0 <= i < j < |r| ensures !Less(FileName(r[j].name), FileName(r[i].name)) {
      assert !NameBelow(b[j], b[i]);
    }
  }

  // ----- overlap -----

  /** The smallest MinKey and the greatest MaxKey. */
  method KeyRange(fs: seq<TableFile>, ghost ts: seq<Table>) returns (minK: Str, maxK: Str)
    requires fs == OpenedAll(ts) && fs != []
    ensures minK == Smallest(ts) && maxK == Greatest(ts)
  {
    hide Handle, MinKey, MaxKey;
    minK, maxK := MinKey(fs[0].sst), MaxKey(fs[0].sst);
    assert ts[..1][..0] == [];
    for i := 1 to |fs|
      invariant minK == Smallest(ts[..i]) && maxK == Greatest(ts[..i])
    {
      assert ts[..i + 1][..i] == ts[..i];
      if Less(MinKey(fs[i].sst), minK) {
        minK := MinKey(fs[i].sst);
      }
      if Less(maxK, MaxKey(fs[i].sst)) {
        maxK := MaxKey(fs[i].sst);
      }
    }
    assert ts[..|fs|] == ts;
  }

  method SplitByOverlap(fs: seq<TableFile>, ghost ts: seq<Table>, minK: Str, maxK: Str)
    returns (overlapping: seq<TableFile>, nonOverlapping: seq<TableFile>)
    requires fs == OpenedAll(ts)
    ensures overlapping == OpenedAll(Overlapping(ts, minK, maxK))
    ensures nonOverlapping == OpenedAll(NotOverlapping(ts, minK, maxK))
  {
    hide Handle, MinKey, MaxKey;
    overlapping, nonOverlapping := [], [];
    for i := 0 to |fs|
      invariant overlapping == OpenedAll(Overlapping(ts[..i], minK, maxK))
      invariant nonOverlapping == OpenedAll(NotOverlapping(ts[..i], minK, maxK))
    {
      assert ts[..i + 1][..i] == ts[..i];
      OpenedOne(ts[i]);
      OpenedAppend(Overlapping(ts[..i], minK, maxK), [ts[i]]);
      OpenedAppend(NotOverlapping(ts[..i], minK, maxK), [ts[i]]);
      var sst := fs[i].sst;
      if Less(MaxKey(sst), minK) || Less(maxK, MinKey(sst)) {
        nonOverlapping := nonOverlapping + [fs[i]];
        assert Overlapping(ts[..i + 1], minK, maxK) == Overlapping(ts[..i], minK, maxK) + [];
      } else {
        overlapping := overlapping + [fs[i]];
        assert NotOverlapping(ts[..i + 1], minK, maxK) == NotOverlapping(ts[..i], minK, maxK) + [];
      }
    }
    assert ts[..|fs|] == ts;
  }

  // ----- searching -----

  /** The tables of one level in turn, with the filter asked before the table. */
  method FindIn(fs: seq<TableFile>, ghost ts: seq<Table>, key: Str) returns (r: Probe)
    requires fs == OpenedAll(ts)
    ensures r == GetTables(ts, key)
  {
    hide Handle, Scan, SparseIndex.Lookup;
    assert ts[0..] == ts;
    for i := 0 to |fs|
      invariant GetTables(ts[i..], key) == GetTables(ts, key)
    {
      assert ts[i..][1..] == ts[i + 1..] && ts[i..][0] == ts[i];
      if !Admits(fs[i].sst, key) {
        continue;
      }
      r := ScanFor(fs[i].sst, key);
      if !r.Missing? {
        return;
      }
    }
    r := Missing;
  }

  // ----- merging -----

  /** The tables can be read back in full. */
  ghost predicate Readable(ts: seq<Table>) {
    forall t :: t in ts ==> Writable(t.entries, STEP, Expect(t))
  }

  /** The files hold these tables. */
  ghost predicate Carries(files: seq<File>, ts: seq<Table>) {
    |files| == |ts| && forall i :: 0 <= i < |ts| ==> files[i] == File(ts[i].level, ts[i].id, Handle(ts[i]).data)
  }

  function Handles(fs: seq<TableFile>): (r: seq<SSTable>)
    ensures |r| == |fs| && forall i :: 0 <= i < |fs| ==> r[i] == fs[i].sst
  {
    seq(|fs|, i requires 0 <= i < |fs| => fs[i].sst)
  }

  function Runs(ts: seq<Table>): (r: seq<seq<Entry>>)
    ensures |r| == |ts| && forall i :: 0 <= i < |ts| ==> r[i] == ts[i].entries
  {
    seq(|ts|, i requires 0 <= i < |ts| => ts[i].entries)
  }

  lemma RunsHold(ts: seq<Table>)
    ensures DoCompact.AllOf(Runs(ts)) == Held(ts)
  {
    hide DoCompact.AllOf;
    DoCompact.AllOfMembers(Runs(ts));
    forall e | e in DoCompact.AllOf(Runs(ts)) ensures e in Held(ts) {
      var r :| r in Runs(ts) && e in r;
      var i :| 0 <= i < |ts| && Runs(ts)[i] == r;
      assert ts[i] in ts;
    }
    forall e | e in Held(ts) ensures e in DoCompact.AllOf(Runs(ts)) {
      var t :| t in ts && e in t.entries;
      assert t.entries in Runs(ts);
    }
  }

  lemma ReadableIsInput(t: Table)
    requires Readable([t])
    ensures DoCompact.InputOf(Handle(t), t.entries)
    ensures TableFormat.Open(Handle(t).data, false) == Opened(Handle(t))
  {
    hide TableFormat.Open, FileBytes, Data, FilterOf, Samples, GetAll;
    assert t in [t];
    FileRoundTrip(t.entries, STEP, Expect(t), false);
  }

  lemma {:induction false} FilesCarry(chunks: seq<seq<Entry>>, level: nat, id: nat)
    requires level > 0 && Roomy(Numbered(chunks, level, id))
    ensures FilesOf(chunks, level, id).Some?
    ensures Carries(FilesOf(chunks, level, id).value, Numbered(chunks, level, id))
    decreases |chunks|
  {
    hide FileBytes, Data, FilterOf, Samples, SizeAfter;
    if chunks != [] {
      var n := |chunks| - 1;
      var ts := Numbered(chunks, level, id);
      assert ts == Numbered(chunks[..n], level, id) + [ts[n]];
      assert ts[n] in ts;
      FilesCarry(chunks[..n], level, id);
    }
  }

  lemma RunsOfNumbered(chunks: seq<seq<Entry>>, level: nat, id: nat)
    ensures Runs(Numbered(chunks, level, id)) == chunks
  {
  }

  /** DoCompact on open tables: its files are those of the tables the model's merge makes. */
  method Merge(inputs: seq<TableFile>, ghost ts: seq<Table>, level: nat, id: nat)
    returns (files: Option<seq<File>>)
    requires inputs == OpenedAll(ts) && Readable(ts) && NoTies(Held(ts))
    ensures files == FilesOf(Runs(Outputs(ts, level, id)), level, id)
  {
    hide Handle, Held, NoTies, Survivors, SortedEntries, Merged, FilesOf, ChunksOf, DoCompact.AllOf;
    hide Readable, DoCompact.InputOf, Packed;
    forall i | 0 <= i < |ts| ensures DoCompact.InputOf(Handles(inputs)[i], Runs(ts)[i]) {
      OneReadable(ts, i);
      ReadableIsInput(ts[i]);
    }
    files := DoCompact.DoCompact(Handles(inputs), Runs(ts), level, id);
    RunsHold(ts);
    ghost var es, chunks :|
      Merged(Held(ts), level >= BOTTOM_LEVEL, es) && Packed(chunks, es) && files == FilesOf(chunks, level, id);
    ChunksPacked(es);
    PackedOnce(chunks, ChunksOf(es), es);
    MergedIsSurvivors(Held(ts), level >= BOTTOM_LEVEL, es);
    RunsOfNumbered(ChunksOf(es), level, id);
  }

  lemma OneReadable(ts: seq<Table>, i: nat)
    requires Readable(ts) && i < |ts|
    ensures Readable([ts[i]])
  {
    hide Writable;
    assert ts[i] in ts;
  }
}
