/** The LSM object: its operations change memtable, log, levels, sizes and files in place, and each
    takes the store exactly where the state machine says. */
module Lsm {
  import opened Bytes
  import opened Entries
  import opened Versions
  import opened Varint
  import opened Records
  import opened Crc32
  import opened TableFormat
  import opened TableLookup
  import opened Sstable
  import opened Compaction
  import opened Chunks
  import opened Paths
  import opened LsmModel
  import opened LsmVersions
  import opened LsmTables
  import opened LsmRoom
  import opened LsmRecovery
  import opened LsmSteps
  import opened LsmRuns
  import opened LsmRestarts
  import opened LsmGet
  import opened LsmFiles
  import Memtable
  import WalFormat
  import Wal

  // ----- writing -----

  /** PutBatch's loop with a log: one pass builds the frame and fills the memtable. */
  method LogAndPut(memtable: Memtable.MemTable, kvs: seq<KeyValue>, ts: int) returns (walBuf: Str)
    requires memtable.Valid()
    modifies memtable
    ensures memtable.Valid() && memtable.m == ApplyAll(old(memtable.m), BatchEntries(kvs, ts))
    ensures walBuf == WalFormat.Frame(BatchEntries(kvs, ts))
  {
    hide PutUvarint, ChecksumNumber, PutFixed, WalFormat.Body, Zigzag, PutVarint, ApplyAll, PutFields;
    ghost var es := BatchEntries(kvs, ts);
    walBuf := PutUvarint(|kvs|);
    var crcOff := |walBuf|;
    walBuf := walBuf + [0, 0, 0, 0];
    ghost var head := walBuf;
    NothingWritten(memtable.m);
    assert es[..0] == [];
    for i := 0 to |kvs|
      invariant memtable.Valid() && memtable.m == ApplyAll(old(memtable.m), es[..i])
      invariant walBuf == head + WalFormat.Body(es[..i])
    {
      var key, val, t := kvs[i].key, kvs[i].value, ts + i;
      assert es[i] == Entry(key, val, t, false);
      OneMore(old(memtable.m), es, i);
      ghost var before := walBuf;
      walBuf := walBuf + PutUvarint(|key|);
      walBuf := walBuf + key;
      walBuf := walBuf + PutUvarint(|val|);
      walBuf := walBuf + val;
      walBuf := walBuf + PutVarint(t);
      walBuf := walBuf + [0];
      FieldsInOrder(es[i]);
      assert walBuf == before + PutFields(es[i]);
      memtable.Put(key, val, t);
    }
    assert es[..|kvs|] == es;
    assert walBuf[crcOff + 4..] == WalFormat.Body(es);
    walBuf := walBuf[..crcOff] + PutFixed(ChecksumNumber(walBuf[crcOff + 4..]), 4) + walBuf[crcOff + 4..];
    assert walBuf[..crcOff] == PutUvarint(|kvs|);
  }

  lemma NothingWritten(mem: map<Str, Entry>)
    ensures WalFormat.Body([]) == [] && ApplyAll(mem, []) == mem
  {
  }

  lemma FieldsInOrder(e: Entry)
    requires !e.tomb
    ensures PutFields(e)
         == PutUvarint(|e.key|) + e.key + PutUvarint(|e.value|) + e.value + PutVarint(e.ts) + [0]
  {
    hide PutUvarint, Zigzag;
  }

  /** What one more write adds to memtable and frame. */
  lemma OneMore(mem: map<Str, Entry>, es: seq<Entry>, i: nat)
    requires i < |es|
    ensures ApplyAll(mem, es[..i + 1]) == ApplyAll(mem, es[..i])[es[i].key := Applied(es[i])]
    ensures WalFormat.Body(es[..i + 1]) == WalFormat.Body(es[..i]) + PutFields(es[i])
  {
    hide WalFormat.Body, PutFields;
    assert es[..i + 1][..i] == es[..i];
    assert es[..i + 1] == es[..i] + [es[i]];
    WalFormat.BodyAppend(es[..i], es[i]);
  }

  /** PutBatch's loop without a log. */
  method PutAll(memtable: Memtable.MemTable, kvs: seq<KeyValue>, ts: int)
    requires memtable.Valid()
    modifies memtable
    ensures memtable.Valid() && memtable.m == ApplyAll(old(memtable.m), BatchEntries(kvs, ts))
  {
    hide WalFormat.Body;
    ghost var es := BatchEntries(kvs, ts);
    assert es[..0] == [];
    for i := 0 to |kvs|
      invariant memtable.Valid() && memtable.m == ApplyAll(old(memtable.m), es[..i])
    {
      OneMore(old(memtable.m), es, i);
      memtable.Put(kvs[i].key, kvs[i].value, ts + i);
    }
    assert es[..|kvs|] == es;
  }

  /** recoverWAL's loop. */
  method ApplyLog(memtable: Memtable.MemTable, es: seq<Entry>)
    requires memtable.Valid()
    modifies memtable
    ensures memtable.Valid() && memtable.m == ApplyAll(old(memtable.m), es)
  {
    hide WalFormat.Body;
    assert es[..0] == [];
    for i := 0 to |es|
      invariant memtable.Valid() && memtable.m == ApplyAll(old(memtable.m), es[..i])
    {
      OneMore(old(memtable.m), es, i);
      if es[i].tomb {
        memtable.Delete(es[i].key, es[i].ts);
      } else {
        memtable.Put(es[i].key, es[i].value, es[i].ts);
      }
    }
    assert es[..|es|] == es;
  }

  // ----- tables -----

  /** The tables of one manifest level whose files are there and open. */
  function Opening(names: seq<Name>, files: map<Name, Str>): seq<TableFile> {
    if names == [] then []
    else Opening(names[..|names| - 1], files) + OpeningOne(names[|names| - 1], files)
  }

  function OpeningOne(name: Name, files: map<Name, Str>): seq<TableFile> {
    if name !in files then []
    else
      var o := TableFormat.Open(files[name], true);
      if o.Opened? then [TableFile(name, o.table)] else []
  }

  lemma OpeningStep(names: seq<Name>, files: map<Name, Str>, j: nat)
    requires j < |names|
    ensures Opening(names[..j + 1], files) == Opening(names[..j], files) + OpeningOne(names[j], files)
    ensures names[..j + 1] == names[..j] + [names[j]]
  {
    hide OpeningOne;
    assert names[..j + 1][..j] == names[..j];
  }

  /** loadExistingSSTables' inner loop: what opens of one level, and all its names. */
  method LoadFiles(names: seq<Name>, files: map<Name, Str>) returns (found: seq<TableFile>, seen: set<Name>)
    ensures found == Opening(names, files) && seen == (set n | n in names)
  {
    hide TableFormat.Open, Opening;
    found, seen := [], {};
    assert names[..0] == [] && Opening([], files) == [] by { NoneOpening(files); }
    for j := 0 to |names|
      invariant found == Opening(names[..j], files)
      invariant seen == set n | n in names[..j]
    {
      OpeningStep(names, files, j);
      seen := seen + {names[j]};
      if names[j] in files {
        var o := TableFormat.Open(files[names[j]], true);
        if o.Opened? {
          found := found + [TableFile(names[j], o.table)];
        }
      }
    }
    assert names[..|names|] == names;
  }

  lemma NoneOpening(files: map<Name, Str>)
    ensures Opening([], files) == []
  {
  }

  /** When every table's file opens as the table, what opens is the level. */
  lemma {:induction false} OpeningIsLevel(ts: seq<Table>, files: map<Name, Str>)
    requires AllOpen(files, ts)
    ensures Opening(NamesOf(ts), files) == OpenedAll(ts)
    decreases |ts|
  {
    hide TableFormat.Open, Handle, NameOf;
    if ts != [] {
      var n := |ts| - 1;
      assert ts == ts[..n] + [ts[n]] && NamesOf(ts)[..n] == NamesOf(ts[..n]);
      assert ts[n] in ts && forall t :: t in ts[..n] ==> t in ts;
      OpeningIsLevel(ts[..n], files);
      OpenedAppend(ts[..n], [ts[n]]);
      OpenedOne(ts[n]);
    }
  }

  /** Each of these tables opens from its file, checksum included. */
  ghost predicate AllOpen(files: map<Name, Str>, ts: seq<Table>) {
    forall t :: t in ts ==> NameOf(t) in files && TableFormat.Open(files[NameOf(t)], true) == Opened(Handle(t))
  }

  lemma StoredOpens(s: Store, i: nat)
    requires Stored(s) && i < |s.levels|
    ensures |s.manifest| == |s.levels| && s.manifest[i] == NamesOf(s.levels[i])
    ensures AllOpen(s.files, s.levels[i])
  {
    hide NamesDistinct, RisingIds, SizesOk, Writable, TableFormat.Open, FileBytes, Data, FilterOf, Samples, Storable;
    hide Pow10, GetAll;
    assert TablesOk(s.levels[i], i, s.nextID);
    forall t | t in s.levels[i]
      ensures NameOf(t) in s.files && TableFormat.Open(s.files[NameOf(t)], true) == Opened(Handle(t))
    {
      assert TableOk(t, i, s.nextID);
      FileRoundTrip(t.entries, STEP, Expect(t), true);
    }
  }

  lemma StoredIsOpen(s: Store, levels: seq<seq<TableFile>>)
    requires Stored(s) && |levels| == |s.manifest|
    requires forall i :: 0 <= i < |levels| ==> levels[i] == Opening(s.manifest[i], s.files)
    ensures IsOpen(levels, s.levels)
  {
    hide Stored, AllOpen, Opening, NamesOf, FileOf;
    StoredManifest(s);
    forall i | 0 <= i < |s.levels| ensures levels[i] == OpenedAll(s.levels[i]) {
      StoredOpens(s, i);
      OpeningIsLevel(s.levels[i], s.files);
    }
  }

  lemma StoredManifest(s: Store)
    requires Stored(s)
    ensures |s.manifest| == |s.levels|
  {
    hide NamesDistinct, RisingIds, SizesOk, LevelsOk, FilesOk, Pow10;
  }

  lemma NothingKnown()
    ensures KnownNames([]) == {}
  {
  }

  lemma KnownAppend(manifest: seq<seq<Name>>, i: nat)
    requires i < |manifest|
    ensures KnownNames(manifest[..i + 1]) == KnownNames(manifest[..i]) + set n | n in manifest[i]
  {
    var a, b := manifest[..i], manifest[..i + 1];
    forall n | n in KnownNames(b) ensures n in KnownNames(a) + set n | n in manifest[i] {
      var k, j :| 0 <= k < |b| && 0 <= j < |b[k]| && b[k][j] == n;
      if k < i {
        assert a[k][j] == n;
      }
    }
    forall n | n in KnownNames(a) ensures n in KnownNames(b) {
      var k, j :| 0 <= k < |a| && 0 <= j < |a[k]| && a[k][j] == n;
      assert b[k][j] == n;
    }
    forall n | n in manifest[i] ensures n in KnownNames(b) {
      var j :| 0 <= j < |manifest[i]| && manifest[i][j] == n;
      assert b[i][j] == n;
    }
  }

  /** The table file flushMemtable writes. */
  method WriteTable(es: seq<Entry>) returns (r: Closed)
    ensures r == CloseOf(es, STEP, |es|)
  {
    hide CloseOf, Writer.Valid;
    var w := new Writer.Create(|es|, 128);
    for i := 0 to |es|
      invariant w.Valid() && fresh(w.Repr())
      invariant w.entries == es[..i] && w.expected == |es| && w.sparseIndex.step == STEP
    {
      w.Append(es[i]);
      assert es[..i + 1] == es[..i] + [es[i]];
    }
    assert es[..|es|] == es;
    r := w.Close();
  }

  // ----- what the object keeps -----

  /** The invariants of every reachable store. */
  ghost predicate Good(s: Store, clock: int) {
    Stored(s) && Core(s, clock)
  }

  /** Every level lists the open files of its tables. */
  ghost predicate IsOpen(levels: seq<seq<TableFile>>, tables: seq<seq<Table>>) {
    |levels| == |tables| && forall i :: 0 <= i < |tables| ==> levels[i] == OpenedAll(tables[i])
  }

  lemma OpenCount(levels: seq<seq<TableFile>>, tables: seq<seq<Table>>)
    requires IsOpen(levels, tables)
    ensures |levels| == |tables|
  {
  }

  lemma OpenLevel(levels: seq<seq<TableFile>>, tables: seq<seq<Table>>, i: nat)
    requires IsOpen(levels, tables) && i < |tables|
    ensures levels[i] == OpenedAll(tables[i]) && |levels[i]| == |tables[i]|
  {
  }

  lemma OpenAppendAt(tables: seq<seq<Table>>, t: Table, levels: seq<seq<TableFile>>, i: nat)
    requires IsOpen(levels, tables) && i < |tables|
    ensures IsOpen(levels[i := levels[i] + [FileOf(t)]], tables[i := tables[i] + [t]])
  {
    hide FileOf;
    OpenedAppend(tables[i], [t]);
    OpenedOne(t);
  }

  lemma OpenReplaced(tables: seq<seq<Table>>, levels: seq<seq<TableFile>>, p: Plan)
    requires IsOpen(levels, tables) && p.from + 1 < |tables|
    ensures IsOpen(levels[p.from := OpenedAll(p.keep)][p.from + 1 := OpenedAll(p.keepNext)],
                   tables[p.from := p.keep][p.from + 1 := p.keepNext])
  {
    hide OpenedAll;
  }

  lemma NothingOpen(levels: seq<seq<TableFile>>, tables: seq<seq<Table>>)
    requires IsOpen(levels, tables) && forall i :: 0 <= i < |tables| ==> tables[i] == []
    ensures |levels| == |tables| && forall i :: 0 <= i < |levels| ==> levels[i] == []
  {
  }

  lemma NoneOpen()
    ensures OpenedAll([]) == []
  {
  }

  function NameSet(ts: seq<Table>): set<Name> {
    set t | t in ts :: NameOf(t)
  }

  lemma NameSetAppend(ts: seq<Table>, i: nat)
    requires i < |ts|
    ensures NameSet(ts[..i + 1]) == NameSet(ts[..i]) + {NameOf(ts[i])}
  {
    hide NameOf;
    assert ts[..i + 1] == ts[..i] + [ts[i]];
  }

  /** Each of these tables opens from its file. */
  ghost predicate OpensFrom(files: map<Name, Str>, ts: seq<Table>) {
    forall t :: t in ts ==>
      NameOf(t) in files && TableFormat.Open(files[NameOf(t)], false) == Opened(Handle(t))
  }

  lemma OneOpens(files: map<Name, Str>, t: Table)
    requires OpensFrom(files, [t])
    ensures NameOf(t) in files && TableFormat.Open(files[NameOf(t)], false) == Opened(Handle(t))
    ensures FileOf(t) == TableFile(NameOf(t), Handle(t)) && Handle(t).dataSize == DataSize(t)
  {
    hide TableFormat.Open, FileBytes, Data, FilterOf, Samples;
    assert t in [t];
  }

  lemma OneCarried(files: map<Name, Str>, outputs: seq<File>, ts: seq<Table>, i: nat)
    requires Carries(outputs, ts) && OpensFrom(files, ts) && i < |ts|
    ensures |outputs| == |ts| && Name(outputs[i].level, outputs[i].id) == NameOf(ts[i])
    ensures OpensFrom(files, [ts[i]])
  {
    hide TableFormat.Open, Handle;
  }

  lemma CarriesCount(outputs: seq<File>, ts: seq<Table>)
    requires Carries(outputs, ts)
    ensures |outputs| == |ts|
  {
  }

  lemma InputsRemoved(files: map<Name, Str>, before: map<Name, Str>, p: Plan)
    requires files == before - NameSet(p.take) - NameSet(p.takeNext)
    ensures files == before - InputNames(p)
  {
    hide NameOf;
    assert NameSet(p.take) + NameSet(p.takeNext) == InputNames(p);
  }

  /** The inputs of a compaction can be merged. */
  lemma InputsReadable(s: Store, clock: int, p: Plan)
    requires Good(s, clock) && PlanOk(s.levels, p)
    ensures Readable(p.take + p.takeNext) && NoTies(Held(p.take + p.takeNext))
  {
    hide Core, PlanOk, NoTies, Held, Splits, RisingIds, Storable, Writable, Pow10, Partition, FilesOk, NamesDistinct;
    InputsHaveNoTies(s, clock, p);
    PlanParts(s.levels, p);
    PartitionMembers(s.levels[p.from], p.take, p.keep);
    PartitionMembers(s.levels[p.from + 1], p.takeNext, p.keepNext);
    forall t | t in p.take + p.takeNext ensures Writable(t.entries, STEP, Expect(t)) {
      var k := if t in p.take then p.from else p.from + 1;
      assert TablesOk(s.levels[k], k, s.nextID) && TableOk(t, k, s.nextID);
    }
  }

  lemma PlanParts(levels: seq<seq<Table>>, p: Plan)
    requires PlanOk(levels, p)
    ensures p.from + 1 < |levels|
    ensures Partition(levels[p.from], p.take, p.keep) && Partition(levels[p.from + 1], p.takeNext, p.keepNext)
  {
    hide Splits, RisingIds, Partition;
  }

  /** After the inputs are removed the outputs are still there and open. */
  lemma OutputsThere(s: Store, clock: int, p: Plan)
    requires Good(s, clock) && PlanOk(s.levels, p) && MergeFits(s, p)
    ensures OpensFrom(FilesWith(s.files, PlanOutputs(s, p)) - InputNames(p), PlanOutputs(s, p))
  {
    hide Core, PlanOk, NoTies, Held, RisingIds, Storable, Writable, Pow10, FilesOk, NamesDistinct, LevelsOk, SizesOk;
    hide Outputs, Handle, TableFormat.Open, FilesWith, InputNames, Readable, DistinctNames, MergeFits;
    InputsReadable(s, clock, p);
    InputsStorable(s.levels, p, s.nextID);
    OutputsOk(s, p);
    var outs := PlanOutputs(s, p);
    FilesWithAll(s.files, outs);
    forall t | t in outs
      ensures NameOf(t) !in InputNames(p) && TableFormat.Open(Handle(t).data, false) == Opened(Handle(t))
    {
      OutputFile(s.levels, p, s.nextID, outs, t);
      assert TableOk(t, p.from + 1, s.nextID + |outs|);
      OkIsReadable(t, p.from + 1, s.nextID + |outs|);
      ReadableIsInput(t);
    }
  }

  lemma NoneRoomy()
    ensures Roomy([])
  {
  }

  lemma OutputsCarried(ts: seq<Table>, level: nat, id: nat)
    requires level > 0 && Roomy(Outputs(ts, level, id))
    ensures var r := FilesOf(Runs(Outputs(ts, level, id)), level, id);
      r.Some? && Carries(r.value, Outputs(ts, level, id))
  {
    hide Held, Survivors, SortedEntries, ChunksOf, FilesOf, Carries, Roomy, Handle;
    var v := Held(ts);
    if NoTies(v) {
      var chunks := ChunksOf(SortedEntries(Survivors(v, level >= BOTTOM_LEVEL)));
      RunsOfNumbered(chunks, level, id);
      FilesCarry(chunks, level, id);
    } else {
      assert Numbered([], level, id) == [] && Runs([]) == [];
      NoneRoomy();
      FilesCarry([], level, id);
    }
  }

  lemma OkIsReadable(t: Table, level: nat, nextID: nat)
    requires TableOk(t, level, nextID)
    ensures Readable([t])
  {
    hide Writable;
  }

  lemma AppliesOne(mem: map<Str, Entry>, e: Entry)
    ensures ApplyAll(mem, [e]) == mem[e.key := Applied(e)]
  {
    assert [e][..0] == [];
    assert ApplyAll(mem, [e][..0]) == mem;
  }

  /** The lengths of a flush fit 63 bits. */
  ghost predicate FlushSized(s: Store) {
    s.nextID < TWO_63 && (s.mem != map[] ==> FlushCounts(s))
  }

  lemma StoredLevels(s: Store, clock: int)
    requires Good(s, clock)
    ensures 2 <= |s.levels| == |s.sizes|
  {
  }

  /** The flushed table is what Entries lists; its file opens, and opens as the table, exactly when all
      its blocks fit. */
  lemma FlushFacts(s: Store, clock: int)
    requires Good(s, clock) && FlushSized(s) && s.mem != map[]
    ensures DistinctKeys(s.mem.Values) && SortedMem(s.mem) == SortedEntries(s.mem.Values)
    ensures FlushEnds(s) == Done <==> FlushFits(s)
    ensures FlushEnds(s) == Done ==>
              var t := FlushedTable(s);
              && NameOf(t) == Name(0, s.nextID) && FlushClosed(s) == Leaves(Handle(t).data)
              && OpensFrom(s.files[NameOf(t) := Handle(t).data], [t])
  {
    hide Stored, Core, TableFormat.Open, Handle, SortedEntries, FlushCounts, OpensFrom, FlushEnds, FlushClosed;
    hide FlushFits;
    hide Storable;
    CoreKeyed(s, clock);
    Memtable.ValuesDistinct(s.mem);
    FlushSizedCounts(s);
    MemStorable(s);
    DoneIffFits(s);
    var t := FlushedTable(s);
    if FlushEnds(s) == Done {
      OpensOne(s.files[NameOf(t) := Handle(t).data], t);
    }
  }

  lemma MemStorable(s: Store)
    requires Stored(s)
    ensures forall e :: e in s.mem.Values ==> Storable(e)
  {
    hide LevelsOk, NamesDistinct, RisingIds, SizesOk, FilesOk, Pow10;
  }

  lemma FlushSizedCounts(s: Store)
    requires FlushSized(s) && s.mem != map[]
    ensures FlushCounts(s) && s.nextID < TWO_63
  {
    hide FlushCounts;
  }

  lemma OpensOne(files: map<Name, Str>, t: Table)
    requires NameOf(t) in files && TableFormat.Open(files[NameOf(t)], false) == Opened(Handle(t))
    ensures OpensFrom(files, [t])
  {
    hide TableFormat.Open, Handle;
  }

  lemma NothingToFlush(s: Store)
    requires s.mem == map[]
    ensures LsmModel.Flush(s) == s && FlushEnds(s) == Done
  {
  }

  lemma AllKnown(s: Store)
    requires Stored(s)
    ensures Intact(s, s.files.Keys)
  {
    hide Stored;
  }

  /** Flushing keeps what the compaction behind it needs. */
  lemma FlushKeeps(s: Store, clock: int)
    requires Good(s, clock) && FlushSized(s) && s.mem != map[] && FlushFits(s)
    ensures Good(Flushed(s), clock)
  {
    hide Stored, Core, FlushFits, Flushed, FlushCounts;
    CoreKeyed(s, clock);
    FlushedOk(s, clock);
    AllKnown(s);
    FlushStored(s, s.files.Keys);
  }

  lemma DoneKeeps(s: Store, clock: int)
    requires Good(s, clock) && FlushSized(s) && FlushMergesFit(s) && s.mem != map[] && FlushEnds(s) == Done
    ensures Good(Flushed(s), clock) && RelieveFits(Flushed(s)) && LsmModel.Flush(s) == Relieved(Flushed(s))
  {
    hide Good, FlushSized, FlushEnds, LsmModel.CompactL0, Flushed, FlushFits, FlushClosed, OpensFrom, SortedMem, L0Fits;
    hide RelieveFits, Relieved;
    FlushFacts(s, clock);
    FlushKeeps(s, clock);
  }

  /** So does a flush that fails, or panics. */
  lemma OtherwiseKeeps(s: Store, clock: int)
    requires Good(s, clock) && FlushSized(s) && s.mem != map[] && (FlushEnds(s) == Failed || FlushEnds(s) == Crashed)
    ensures Good(LsmModel.Flush(s), clock)
    ensures LsmModel.Flush(s) == if FlushEnds(s) == Failed then Lost(s) else s.(nextID := s.nextID + 1)
  {
    hide Stored, Core, FlushEnds, Flushed, Lost, FlushCounts, FilesKnown;
    FlushEndsOtherwise(s, clock);
    AllKnown(s);
    LostStored(s, s.files.Keys);
    NextStored(s, s.files.Keys);
  }

  lemma CompactKeeps(s: Store, clock: int, p: Plan)
    requires Good(s, clock) && PlanOk(s.levels, p) && MergeFits(s, p)
    ensures Good(LsmModel.Compact(s, p), clock)
  {
    hide Stored, Core, LsmModel.Compact, PlanOk, Mirrors, PlanOutputs, MergeFits, FilesKnown;
    AllKnown(s);
    CompactOk(s, clock, p, map[], s.files.Keys);
  }

  lemma CompactL0Keeps(s: Store, clock: int)
    requires Good(s, clock) && L0Fits(s)
    ensures Good(LsmModel.CompactL0(s), clock)
    ensures |LsmModel.CompactL0(s).levels| == |s.levels|
  {
    hide Stored, Core, LsmModel.CompactL0, Mirrors, L0Fits, FilesKnown;
    AllKnown(s);
    CompactL0Ok(s, clock, map[], s.files.Keys);
  }

  lemma CompactLevelKeeps(s: Store, level: nat, clock: int)
    requires Good(s, clock) && LevelFits(s, level)
    ensures Good(LsmModel.CompactLevel(s, level), clock)
    ensures |LsmModel.CompactLevel(s, level).levels| == |s.levels| == |LsmModel.CompactLevel(s, level).sizes|
  {
    hide Stored, Core, LsmModel.CompactLevel, Mirrors, LevelFits, FilesKnown;
    AllKnown(s);
    CompactLevelOk(s, level, clock, map[], s.files.Keys);
    StoredLevels(LsmModel.CompactLevel(s, level), clock);
  }

  /** So does a write, at the later clock. */
  lemma WrittenKeeps(s: Store, clock: int, kvs: seq<KeyValue>, now: int)
    requires Good(s, clock) && clock <= now
    requires forall e :: e in BatchEntries(kvs, now) ==> Storable(e)
    ensures Good(Wrote(s, BatchEntries(kvs, now)), now + |kvs|)
  {
    hide Good, Wrote, Storable;
    WroteGood(s, clock, BatchEntries(kvs, now), now);
  }

  lemma WroteGood(s: Store, clock: int, es: seq<Entry>, now: int)
    requires Good(s, clock) && clock <= now && Stamped(es, now)
    requires forall e :: e in es ==> Storable(e)
    ensures Good(Wrote(s, es), now + |es|)
  {
    hide Stored, Core, Wrote, Storable, Mirrors, PlainWrites, FilesKnown;
    WroteOk(s, clock, es, now, map[]);
    CoreKeyed(s, clock);
    AllKnown(s);
    WroteStored(s, es, s.files.Keys);
  }

  /** If the batch fills the memtable, the lengths of the flush fit 63 bits, and the merge behind it its files. */
  ghost predicate PutSized(s: Store, kvs: seq<KeyValue>, now: int) {
    var s1 := Wrote(s, BatchEntries(kvs, now));
    kvs != [] && Memtable.TotalCost(s1.mem.Values) >= s1.threshold ==> FlushSized(s1) && FlushMergesFit(s1)
  }

  /** Every operation of a durable run is one the object takes. */
  lemma DurableIsTaken(w: World, op: Op)
    requires Survives(w) && Durable(w, op) && !op.Restart?
    ensures Good(w.store, w.clock)
    ensures match op
      case Put(kvs, now) =>
        w.clock <= now && |kvs| < TWO_63 && PutSized(w.store, kvs, now) && forall e :: e in Writes(op) ==> Storable(e)
      case Del(key, now) => w.clock <= now && IsInt64(now) && Storable(Entry(key, [], now, true))
      case FlushMem => FlushSized(w.store) && FlushMergesFit(w.store)
      case L0ToL1 => L0Fits(w.store)
      case LevelDown(level) => LevelFits(w.store, level)
      case Pass => PassFits(w.store)
  {
    hide Stored, Core, Mirrors, FilesKnown, Trusted, Memtable.TotalCost, Wrote, FlushCounts, FlushEnds, L0Fits;
    hide LevelFits;
    hide PassFits, RelieveFits;
    if op.FlushMem? && w.store.mem == map[] {
      NothingToFlush(w.store);
    }
    if op.Del? {
      assert Writes(op)[0] in Writes(op);
    }
    WroteID(w.store, Writes(op));
  }

  lemma LaterGood(s: Store, clock: int, later: int)
    requires Good(s, clock) && clock <= later
    ensures Good(s, later)
  {
    hide Stored, RisingIds, Versioned, Pow10;
    ClockAdvances(s.mem, s.levels, clock, later);
  }

  lemma GoodIsCore(s: Store, clock: int)
    requires Good(s, clock)
    ensures Stored(s) && Core(s, clock)
  {
    hide Stored, Core;
  }

  /** One round of the background loop. */
  lemma LoopStep(s: Store, level: nat)
    requires level + 1 < |s.levels| && |s.sizes| == |s.levels|
    ensures var over := s.sizes[level] > LevelSize(BASE_LEVEL_SIZE, level);
      var s1 := if over then LsmModel.CompactLevel(s, level) else s;
      && LoopLevels(s, level) == LoopLevels(s1, level + 1)
      && (LoopFits(s, level) ==> (over ==> LevelFits(s, level)) && LoopFits(s1, level + 1))
  {
    hide LsmModel.CompactLevel, LevelSize, LevelFits;
    CompactLevelShape(s, level);
  }

  lemma LoopEnds(s: Store, level: nat)
    requires level + 1 >= |s.levels|
    ensures LoopLevels(s, level) == s
  {
  }

  // ----- the object -----

  class LSM {
    var memtable: Memtable.MemTable
    var wal: Wal.WAL?
    var levels: seq<seq<TableFile>>
    var sizes: seq<int>
    var nextID: nat
    var manifest: seq<seq<Name>>
    var files: map<Name, Str>
    const flushThreshold: nat
    ghost var tables: seq<seq<Table>>

    ghost predicate Valid()
      reads this, memtable, wal, if wal == null then {} else {wal.mmap}
    {
      && memtable.Valid()
      && (wal != null ==> wal.Valid())
      && IsOpen(levels, tables)
    }

    ghost function State(): Store
      requires Valid()
      reads this, memtable, wal, if wal == null then {} else {wal.mmap}
    {
      Store(memtable.m, if wal == null then None else Some(wal.State()), tables, sizes, nextID, manifest, files,
            flushThreshold)
    }

    /** The objects the store owns. */
    ghost function Repr(): set<object>
      reads this, wal
    {
      if wal == null then {this, memtable} else {this, memtable, wal as object, wal.mmap}
    }

    /** Open on an empty directory. */
    constructor Create(numLevels: nat, threshold: nat, withLog: bool, now: nat)
      ensures Valid() && fresh(Repr())
      ensures State() == Initial(numLevels, threshold, withLog, now)
    {
      memtable := new Memtable.MemTable.New();
      var w: Wal.WAL? := null;
      if withLog {
        w := new Wal.WAL.New([]);
      }
      wal := w;
      levels, sizes := seq(numLevels, _ => []), seq(numLevels, _ => 0);
      nextID, flushThreshold, files := now, threshold, map[];
      manifest := seq(numLevels, _ => []);
      tables := seq(numLevels, _ => []);
      new;
      assert NamesOf([]) == [];
      assert manifest == Names(tables);
    }

    /** Open on the files a stopped process left. A log that makes Replay panic takes the process down. */
    static method Open(manifest: seq<seq<Name>>, files: map<Name, Str>, logFile: Option<Str>, threshold: nat, now: nat,
                       ghost s: Store, ghost crash: bool)
      returns (db: LSM?)
      requires Stored(s) && manifest == s.manifest && files == s.files && threshold == s.threshold
      requires logFile == if s.log.Some? then Some(LogFile(s.log.value, crash)) else None
      ensures db == null <==> (logFile.Some? && WalFormat.Replay(Wal.OpenFile(logFile.value).bytes).Panicked?)
      ensures db != null ==> fresh(db.Repr()) && db.Valid() && db.State() == Reopen(s, crash, now)
    {
      hide Stored, Load, WalFormat.Replay, IsOpen, Wal.OpenFile, ApplyAll, SizesOf, Names, KnownNames, LogFile;
      var lsm := new LSM.Create(|manifest|, threshold, false, now);
      if logFile.Some? {
        lsm.wal := new Wal.WAL.New(logFile.value);
        var panicked := lsm.RecoverWAL();
        if panicked {
          return null;
        }
      }
      LoadsLevels(s);
      StoredManifest(s);
      NothingOpen(lsm.levels, lsm.tables);
      assert |lsm.sizes| == |manifest|;
      lsm.Reload(manifest, files, s);
      db := lsm;
    }

    /** The part of Open behind the log. */
    method Reload(levelFiles: seq<seq<Name>>, found: map<Name, Str>, ghost s: Store)
      requires Stored(s) && levelFiles == s.manifest && found == s.files && |s.levels| == |levelFiles| == |sizes|
      requires |levels| == |tables| == |levelFiles| && forall i :: 0 <= i < |levels| ==> levels[i] == []
      modifies this`levels, this`tables, this`files, this`sizes, this`manifest
      ensures tables == s.levels && IsOpen(levels, tables)
      ensures files == map n | n in s.files && n in KnownNames(levelFiles) :: s.files[n]
      ensures sizes == SizesOf(tables) && manifest == Names(tables)
    {
      hide Stored, IsOpen, SizesOf, Names, KnownNames;
      files := found;
      LoadTables(levelFiles, s);
      OpenCount(levels, tables);
      UpdateLevelStats();
      WriteManifest();
    }

    /** recoverWAL. */
    method RecoverWAL() returns (panicked: bool)
      requires Valid() && wal != null && memtable.m == map[]
      modifies memtable, wal
      ensures Valid() && wal != null && fresh(Repr() - old(Repr()))
      ensures panicked <==> WalFormat.Replay(old(wal.State()).bytes).Panicked?
      ensures !panicked ==>
                var es := WalFormat.Replay(old(wal.State()).bytes).es;
                memtable.m == ApplyAll(map[], es)
                && wal.State() == if |es| > 0 then Wal.Fresh() else old(wal.State())
    {
      hide WalFormat.Replay, ApplyAll, IsOpen;
      var r := wal.Replay();
      if r.Panicked? {
        return true;
      }
      ApplyLog(memtable, r.es);
      if |r.es| > 0 {
        wal.Reset();
      }
      panicked := false;
    }

    /** loadExistingSSTables, from any manifest and any files: a name whose file is missing or does not open is
        passed over, and files the manifest does not name are removed. The files of a stored state give back
        its tables. */
    method LoadTables(levelFiles: seq<seq<Name>>, ghost s: Store)
      requires |levels| == |tables| == |levelFiles| && forall i :: 0 <= i < |levels| ==> levels[i] == []
      modifies this`levels, this`tables, this`files
      ensures |levels| == |levelFiles|
      ensures forall i :: 0 <= i < |levels| ==> levels[i] == Opening(levelFiles[i], old(files))
      ensures files == map n | n in old(files) && n in KnownNames(levelFiles) :: old(files)[n]
      ensures Stored(s) && levelFiles == s.manifest && old(files) == s.files ==>
                tables == s.levels && IsOpen(levels, tables)
    {
      hide Stored, FileOf, NamesOf, AllOpen, KnownNames, Opening, IsOpen;
      var known: set<Name> := {};
      NothingKnown();
      assert levelFiles[..0] == [];
      for level := 0 to |levelFiles|
        invariant |levels| == |levelFiles| && files == old(files)
        invariant forall i :: 0 <= i < level ==> levels[i] == Opening(levelFiles[i], files)
        invariant known == KnownNames(levelFiles[..level])
      {
        var found, seen := LoadFiles(levelFiles[level], files);
        KnownAppend(levelFiles, level);
        levels := levels[level := found];
        known := known + seen;
      }
      assert levelFiles[..|levelFiles|] == levelFiles;
      if Stored(s) && levelFiles == s.manifest && files == s.files {
        StoredIsOpen(s, levels);
        tables := s.levels;
      }
      RemoveOrphans(known);
    }

    /** recoverOrphans. */
    method RemoveOrphans(known: set<Name>)
      modifies this`files
      ensures files == map n | n in old(files) && n in known :: old(files)[n]
    {
      var names := files.Keys;
      while names != {}
        invariant names <= old(files).Keys
        invariant files == map n | n in old(files) && (n in known || n in names) :: old(files)[n]
        decreases |names|
      {
        var name :| name in names;
        assert |names - {name}| < |names|;
        if name !in known {
          files := files - {name};
        }
        names := names - {name};
      }
    }

    method UpdateLevelStats()
      requires IsOpen(levels, tables) && |sizes| == |levels|
      modifies this`sizes
      ensures sizes == SizesOf(tables)
    {
      hide FileBytes, Data, FilterOf, Samples;
      for i := 0 to |levels|
        invariant |sizes| == |levels| && forall k :: 0 <= k < i ==> sizes[k] == TotalSize(tables[k])
      {
        sizes := sizes[i := 0];
        assert tables[i][..0] == [];
        for j := 0 to |levels[i]|
          invariant |sizes| == |levels| && forall k :: 0 <= k < i ==> sizes[k] == TotalSize(tables[k])
          invariant sizes[i] == TotalSize(tables[i][..j])
        {
          assert tables[i][..j + 1][..j] == tables[i][..j];
          sizes := sizes[i := sizes[i] + levels[i][j].sst.dataSize];
        }
        assert tables[i][..|levels[i]|] == tables[i];
      }
    }

    /** Close: the log file it leaves. */
    method Close() returns (logFile: Option<Str>)
      requires Valid()
      ensures logFile == if State().log.Some? then Some(LogFile(State().log.value, false)) else None
    {
      if wal == null {
        return None;
      }
      var file := wal.Close();
      logFile := Some(file);
    }

    // ----- writing -----

    /** Put is a batch of one. */
    method Put(key: Str, value: Str, now: int, ghost clock: int) returns (r: FlushResult)
      requires Valid() && Good(State(), clock) && clock <= now
      requires Storable(Entry(key, value, now, false))
      requires PutSized(State(), [KeyValue(key, value)], now)
      modifies Repr()
      ensures Valid() && fresh(Repr() - old(Repr()))
      ensures r == PutEnds(old(State()), [KeyValue(key, value)], now)
      ensures !r.AsLegacy? ==> State() == LsmModel.PutBatch(old(State()), [KeyValue(key, value)], now)
      ensures !r.AsLegacy? ==> Good(State(), now + 1)
    {
      hide Good, PutSized, Wrote, LsmModel.PutBatch, Storable, IsOpen, PutEnds;
      r := PutBatch([KeyValue(key, value)], now, clock);
    }

    method PutBatch(kvs: seq<KeyValue>, now: int, ghost clock: int) returns (r: FlushResult)
      requires Valid() && Good(State(), clock) && clock <= now
      requires |kvs| < TWO_63 && forall e :: e in BatchEntries(kvs, now) ==> Storable(e)
      requires PutSized(State(), kvs, now)
      modifies Repr()
      ensures Valid() && fresh(Repr() - old(Repr()))
      ensures r == PutEnds(old(State()), kvs, now)
      ensures !r.AsLegacy? ==> State() == LsmModel.PutBatch(old(State()), kvs, now) && Good(State(), now + |kvs|)
    {
      hide Good, WalFormat.Frame, Storable, FlushSized, LsmModel.Flush, BatchEntries, ApplyAll, FlushEnds;
      hide FlushMergesFit;
      hide Memtable.TotalCost, Wal.Doubled, IsOpen;
      ghost var es := BatchEntries(kvs, now);
      ghost var s := State();
      r := Done;
      if |kvs| == 0 {
        LaterGood(s, clock, now);
        return;
      }
      WrittenKeeps(s, clock, kvs, now);
      Write(kvs, now);
      var size := memtable.Size();
      if size >= flushThreshold {
        r := FlushMemtable(now + |kvs|);
      }
    }

    /** The part of PutBatch before the size check. */
    method Write(kvs: seq<KeyValue>, now: int)
      requires Valid() && |kvs| > 0
      modifies memtable, wal, if wal == null then {} else {wal.mmap}
      ensures Valid() && fresh(Repr() - old(Repr()))
      ensures State() == Wrote(old(State()), BatchEntries(kvs, now))
    {
      hide WalFormat.Frame, BatchEntries, ApplyAll, Wal.Doubled, IsOpen;
      if wal == null {
        PutAll(memtable, kvs, now);
      } else {
        var walBuf := LogAndPut(memtable, kvs, now);
        wal.AppendRaw(walBuf);
      }
    }

    method Delete(key: Str, now: int, ghost clock: int)
      requires Valid() && IsInt64(now)
      modifies Repr()
      ensures Valid() && fresh(Repr() - old(Repr()))
      ensures State() == LsmModel.Delete(old(State()), key, now)
      ensures old(Good(State(), clock)) && clock <= now && Storable(Entry(key, [], now, true)) ==>
                Good(State(), now + 1)
    {
      hide WalFormat.Frame, Wal.Doubled, IsOpen, Good, Storable;
      ghost var s := State();
      var e := Entry(key, [], now, true);
      if wal != null {
        wal.AppendBatch([e]);
      }
      memtable.Delete(key, now);
      AppliesOne(old(memtable.m), e);
      if Good(s, clock) && clock <= now && Storable(e) {
        WroteGood(s, clock, [e], now);
      }
    }

    // ----- flushing -----

    method FlushMemtable(ghost clock: int) returns (r: FlushResult)
      requires Valid() && Good(State(), clock) && FlushSized(State()) && FlushMergesFit(State())
      modifies this, memtable, wal
      ensures Valid() && fresh(Repr() - old(Repr())) && r == FlushEnds(old(State()))
      ensures !r.AsLegacy? ==> State() == LsmModel.Flush(old(State())) && Good(State(), clock)
    {
      hide Good, FlushSized, LsmModel.Flush, LsmModel.Flushed, IsOpen, FlushEnds, Lost, FlushFits, FlushClosed;
      hide Relieved, Wal.WAL.Valid, Wal.WAL.State, FlushMergesFit, RelieveFits;
      ghost var s := State();
      var count := memtable.Count();
      if count == 0 {
        NothingToFlush(s);
        return Done;
      }
      r := MoveToLevelZero(clock);
      if !r.Done? {
        if !r.AsLegacy? {
          OtherwiseKeeps(s, clock);
        }
        return;
      }
      DoneKeeps(s, clock);
      RelieveLevelZero(clock);
    }

    /** The compaction a flush makes itself when level 0 is twice as long as it should be. */
    method RelieveLevelZero(ghost clock: int)
      requires Valid() && Good(State(), clock) && RelieveFits(State())
      modifies this
      ensures Valid() && Repr() == old(Repr())
      ensures State() == Relieved(old(State())) && Good(State(), clock)
    {
      hide Good, IsOpen, LsmModel.CompactL0, OpenedAll, Wal.WAL.Valid, Wal.WAL.State, L0Fits;
      StoredLevels(State(), clock);
      OpenCount(levels, tables);
      OpenLevel(levels, tables, 0);
      if |levels[0]| > MAX_L0_FILES * 2 {
        CompactL0Keeps(State(), clock);
        CompactL0ToL1(clock);
      }
    }

    /** flushMemtable up to the signal to the compaction loop. */
    method MoveToLevelZero(ghost clock: int) returns (r: FlushResult)
      requires Valid() && Good(State(), clock) && FlushSized(State()) && memtable.m != map[]
      modifies this, memtable, wal
      ensures Valid() && fresh(Repr() - old(Repr())) && r == FlushEnds(old(State()))
      ensures r.Done? ==> State() == Flushed(old(State()))
      ensures r.Failed? ==> State() == Lost(old(State()))
      ensures r.Crashed? ==> State() == old(State()).(nextID := old(nextID) + 1)
    {
      hide Good, FlushSized, DataSize, IsOpen, SortedEntries, OpensFrom, FilesWith, Names, SortedMem, CloseOf;
      hide Handle, FlushedTable, Wal.WAL.Valid, Wal.WAL.State, TotalSize, TableFormat.Open, FlushFits, OpenedAll;
      hide Memtable.MemTable.Valid;
      ghost var s := State();
      StoredLevels(s, clock);
      OpenCount(levels, tables);
      FlushFacts(s, clock);
      ghost var t := FlushedTable(s);
      var name, closed := WriteMemtable();
      if closed.Panics? {
        return Crashed;
      }
      EmptyMemory();
      var o := TableFormat.Open(files[name], false);
      if !o.Opened? {
        return if o.Legacy? then AsLegacy else Failed;
      }
      AddTable(name, 0, t);
      FilesWithOne(s.files, t);
      WriteManifest();
      r := Done;
    }

    /** The file of the memtable's entries. */
    method WriteMemtable() returns (name: Name, closed: Closed)
      requires Valid() && DistinctKeys(memtable.m.Values)
      modifies memtable, this`nextID, this`files
      ensures Valid() && memtable.m == old(memtable.m) && name == Name(0, old(nextID)) && nextID == old(nextID) + 1
      ensures var es := SortedEntries(old(memtable.m).Values); closed == CloseOf(es, STEP, |es|)
      ensures files == if closed.Leaves? then old(files)[name := closed.bytes] else old(files)
    {
      hide CloseOf, SortedEntries, IsOpen;
      var entries := memtable.Entries();
      name := Name(0, nextID);
      nextID := nextID + 1;
      closed := WriteTable(entries);
      if closed.Leaves? {
        files := files[name := closed.bytes];
      }
    }

    method EmptyMemory()
      requires Valid()
      modifies this`memtable, wal
      ensures Valid() && fresh(memtable) && memtable.m == map[] && wal == old(wal)
      ensures wal != null ==> fresh(wal.mmap) && wal.State() == Wal.Fresh()
    {
      hide IsOpen;
      memtable := new Memtable.MemTable.New();
      if wal != null {
        wal.Reset();
      }
    }

    /** writeManifest: the base names of the tables, level by level. */
    method WriteManifest()
      requires IsOpen(levels, tables)
      modifies this`manifest
      ensures manifest == Names(tables)
    {
      hide Handle;
      var snapshot: seq<seq<Name>> := [];
      for i := 0 to |levels|
        invariant |snapshot| == i && forall k :: 0 <= k < i ==> snapshot[k] == NamesOf(tables[k])
      {
        var names: seq<Name> := [];
        for j := 0 to |levels[i]|
          invariant |names| == j && forall k :: 0 <= k < j ==> names[k] == NameOf(tables[i][k])
        {
          names := names + [levels[i][j].name];
        }
        assert names == NamesOf(tables[i]);
        snapshot := snapshot + [names];
      }
      manifest := snapshot;
    }

    // ----- compacting -----

    method CompactL0ToL1(ghost clock: int)
      requires Valid() && Good(State(), clock) && L0Fits(State())
      modifies this
      ensures Valid() && memtable == old(memtable) && wal == old(wal)
      ensures State() == LsmModel.CompactL0(old(State()))
      ensures Good(State(), clock)
    {
      hide Good, Stored, Core, FileOf, LsmModel.Compact, ByPath, Smallest, Greatest, Overlapping, NotOverlapping;
      hide IsOpen;
      hide PlanOk;
      ghost var s := State();
      StoredLevels(s, clock);
      OpenCount(levels, tables);
      OpenLevel(levels, tables, 0);
      OpenLevel(levels, tables, 1);
      if |levels[0]| == 0 {
        return;
      }
      CompactL0Keeps(s, clock);
      GoodIsCore(s, clock);
      ghost var m := PlanL0Ok(s, clock);
      ghost var p := PlanL0(s);
      var sorted := SortByPath(levels[0], tables[0]);
      ByPathLength(tables[0]);
      var n := |sorted| / 2;
      if n < 1 {
        n := 1;
      }
      if n > MAX_L0_FILES / 2 {
        n := MAX_L0_FILES / 2;
      }
      assert n == TakeCount(|sorted|);
      OpenedSlice(ByPath(tables[0]), n);
      var toCompact, remaining := sorted[..n], sorted[n..];
      var minK, maxK := KeyRange(toCompact, p.take);
      var overlapping, nonOverlapping := SplitByOverlap(levels[1], tables[1], minK, maxK);
      Compact(0, toCompact, remaining, overlapping, nonOverlapping, p, clock);
    }

    method CompactLevel(level: nat, ghost clock: int)
      requires Valid() && Good(State(), clock) && LevelFits(State(), level)
      modifies this
      ensures Valid() && memtable == old(memtable) && wal == old(wal)
      ensures State() == LsmModel.CompactLevel(old(State()), level)
      ensures Good(State(), clock)
      decreases |levels| - level
    {
      hide Good, FileOf, LsmModel.Compact, IsOpen, PlanOk, LevelSize;
      ghost var s := State();
      StoredLevels(s, clock);
      OpenCount(levels, tables);
      if level < 1 || level >= |levels| - 1 {
        return;
      }
      OpenLevel(levels, tables, level);
      OpenLevel(levels, tables, level + 1);
      if |levels[level]| == 0 {
        return;
      }
      var nextLevel := level + 1;
      CompactLevelKeeps(s, level, clock);
      PlanLevelOk(s.levels, s, level);
      ghost var p := PlanLevel(s, level);
      NoneOpen();
      Compact(level, levels[level], [], levels[nextLevel], [], p, clock);
      CompactKeeps(s, clock, p);
      OpenCount(levels, tables);
      CompactFields(s, p);
      if sizes[nextLevel] > LevelSize(BASE_LEVEL_SIZE, nextLevel) && nextLevel < |levels| - 1 {
        CompactLevel(nextLevel, clock);
      }
    }

    /** What both compactions do once they know their inputs: merge, remove the inputs, put the outputs
        behind what stays of the next level. */
    method Compact(from: nat, take: seq<TableFile>, keep: seq<TableFile>, takeNext: seq<TableFile>,
                   keepNext: seq<TableFile>, ghost p: Plan, ghost clock: int)
      requires Valid() && Good(State(), clock) && PlanOk(tables, p) && p.from == from && MergeFits(State(), p)
      requires take == OpenedAll(p.take) && keep == OpenedAll(p.keep)
      requires takeNext == OpenedAll(p.takeNext) && keepNext == OpenedAll(p.keepNext)
      modifies this
      ensures Valid() && memtable == old(memtable) && wal == old(wal)
      ensures State() == LsmModel.Compact(old(State()), p)
    {
      hide Good, OpenedAll, Outputs, PlanOk, FilesWith, InputNames, TotalSize, Handle, Names, IsOpen, Carries;
      hide OpensFrom, Readable, NoTies, Held, NameSet, Roomy, Memtable.MemTable.Valid, Wal.WAL.Valid, Wal.WAL.State;
      ghost var s := State();
      ghost var outs := PlanOutputs(s, p);
      var nextLevel := from + 1;
      StoredLevels(s, clock);
      PlanInRange(tables, p);
      OpenCount(levels, tables);
      InputsReadable(s, clock, p);
      var outputs := WriteMerged(take, takeNext, nextLevel, p);
      RemoveTables(take, from, p.take);
      RemoveTables(takeNext, nextLevel, p.takeNext);
      InputsRemoved(files, FilesWith(s.files, outs), p);
      OutputsThere(s, clock, p);
      ReplaceTables(from, keep, keepNext, outputs, p, outs);
      assert sizes == s.sizes[from := s.sizes[from] - TotalSize(p.take)]
                             [nextLevel := s.sizes[nextLevel] - TotalSize(p.takeNext) + TotalSize(outs)];
      WriteManifest();
    }

    /** Drops the inputs from their levels and puts the outputs behind what stays of the lower one. */
    method ReplaceTables(from: nat, keep: seq<TableFile>, keepNext: seq<TableFile>, outputs: seq<File>, ghost p: Plan,
                         ghost outs: seq<Table>)
      requires IsOpen(levels, tables) && p.from == from && from + 1 < |tables| == |levels| == |sizes|
      requires keep == OpenedAll(p.keep) && keepNext == OpenedAll(p.keepNext)
      requires Carries(outputs, outs) && OpensFrom(files, outs)
      modifies this`levels, this`tables, this`sizes
      ensures IsOpen(levels, tables)
      ensures tables == old(tables)[from := p.keep][from + 1 := p.keepNext + outs]
      ensures sizes == old(sizes)[from + 1 := old(sizes[from + 1]) + TotalSize(outs)]
    {
      hide IsOpen, OpenedAll, Carries, OpensFrom, TotalSize;
      levels := levels[from := keep][from + 1 := keepNext];
      tables := tables[from := p.keep][from + 1 := p.keepNext];
      OpenReplaced(old(tables), old(levels), p);
      AddTables(outputs, from + 1, outs);
    }

    /** DoCompact on the inputs, and the numbers its files take. */
    method WriteMerged(take: seq<TableFile>, takeNext: seq<TableFile>, level: nat, ghost p: Plan)
      returns (outputs: seq<File>)
      requires take == OpenedAll(p.take) && takeNext == OpenedAll(p.takeNext) && level > 0
      requires Readable(p.take + p.takeNext) && NoTies(Held(p.take + p.takeNext))
      requires Roomy(Outputs(p.take + p.takeNext, level, nextID))
      modifies this`files, this`nextID
      ensures var outs := Outputs(p.take + p.takeNext, level, old(nextID));
        Carries(outputs, outs) && files == FilesWith(old(files), outs) && nextID == old(nextID) + |outs|
    {
      hide OpenedAll, Outputs, FilesWith, Carries, Readable, NoTies, Held, Roomy, FilesOf;
      OpenedAppend(p.take, p.takeNext);
      ghost var outs := Outputs(p.take + p.takeNext, level, nextID);
      OutputsCarried(p.take + p.takeNext, level, nextID);
      var merged := Merge(take + takeNext, p.take + p.takeNext, level, nextID);
      outputs := merged.value;
      CarriesCount(outputs, outs);
      WriteFiles(outputs, outs);
      nextID := nextID + |outputs|;
    }

    /** The files DoCompact leaves. */
    method WriteFiles(outputs: seq<File>, ghost outs: seq<Table>)
      requires Carries(outputs, outs)
      modifies this`files
      ensures files == FilesWith(old(files), outs)
    {
      hide Handle;
      assert outs[..0] == [];
      for i := 0 to |outputs|
        invariant files == FilesWith(old(files), outs[..i])
      {
        assert outs[..i + 1][..i] == outs[..i];
        files := files[Name(outputs[i].level, outputs[i].id) := outputs[i].bytes];
      }
      assert outs[..|outputs|] == outs;
    }

    /** Removes the files of merged tables and takes them off the level's size. */
    method RemoveTables(fs: seq<TableFile>, level: nat, ghost ts: seq<Table>)
      requires fs == OpenedAll(ts) && level < |sizes|
      modifies this`files, this`sizes
      ensures files == old(files) - NameSet(ts)
      ensures sizes == old(sizes)[level := old(sizes[level]) - TotalSize(ts)]
    {
      hide FileBytes, Data, FilterOf, Samples;
      assert ts[..0] == [];
      for i := 0 to |fs|
        invariant |sizes| == |old(sizes)|
        invariant files == old(files) - NameSet(ts[..i])
        invariant sizes == old(sizes)[level := old(sizes[level]) - TotalSize(ts[..i])]
      {
        assert ts[..i + 1][..i] == ts[..i];
        NameSetAppend(ts, i);
        files := files - {fs[i].name};
        sizes := sizes[level := sizes[level] - fs[i].sst.dataSize];
      }
      assert ts[..|fs|] == ts;
    }

    /** Opens a table file without verifying it and puts the table behind the others of its level. */
    method AddTable(name: Name, level: nat, ghost t: Table)
      requires name == NameOf(t) && OpensFrom(files, [t])
      requires IsOpen(levels, tables) && level < |levels| == |sizes|
      modifies this`levels, this`tables, this`sizes
      ensures IsOpen(levels, tables) && |levels| == old(|levels|)
      ensures tables == old(tables)[level := old(tables[level]) + [t]]
      ensures sizes == old(sizes)[level := old(sizes[level]) + DataSize(t)]
    {
      hide IsOpen, TableFormat.Open, FileOf, Handle, DataSize, OpensFrom;
      OpenCount(levels, tables);
      OneOpens(files, t);
      OpenAppendAt(tables, t, levels, level);
      var sst := TableFormat.Open(files[name], false).table;
      levels := levels[level := levels[level] + [TableFile(name, sst)]];
      tables := tables[level := tables[level] + [t]];
      sizes := sizes[level := sizes[level] + sst.dataSize];
    }

    /** The loop over the outputs. */
    method AddTables(outputs: seq<File>, level: nat, ghost outs: seq<Table>)
      requires Carries(outputs, outs) && OpensFrom(files, outs)
      requires IsOpen(levels, tables) && level < |levels| == |sizes|
      modifies this`levels, this`tables, this`sizes
      ensures IsOpen(levels, tables) && |levels| == old(|levels|)
      ensures tables == old(tables)[level := old(tables[level]) + outs]
      ensures sizes == old(sizes)[level := old(sizes[level]) + TotalSize(outs)]
    {
      hide IsOpen, FileOf, OpensFrom, Carries, Handle, DataSize;
      OpenCount(levels, tables);
      CarriesCount(outputs, outs);
      assert outs[..0] == [] && tables[level] + [] == tables[level];
      for i := 0 to |outputs|
        invariant IsOpen(levels, tables) && |levels| == |tables| == |sizes| == |old(sizes)|
        invariant tables == old(tables)[level := old(tables[level]) + outs[..i]]
        invariant sizes == old(sizes)[level := old(sizes[level]) + TotalSize(outs[..i])]
      {
        assert outs[..i + 1][..i] == outs[..i];
        assert outs[..i + 1] == outs[..i] + [outs[i]];
        OneCarried(files, outputs, outs, i);
        AddTable(Name(outputs[i].level, outputs[i].id), level, outs[i]);
        assert old(tables[level]) + outs[..i] + [outs[i]] == old(tables[level]) + outs[..i + 1];
      }
      assert outs[..|outputs|] == outs;
    }

    /** One pass of compactionLoop. */
    method LoopPass(ghost clock: int)
      requires Valid() && Good(State(), clock) && PassFits(State())
      modifies this
      ensures Valid() && memtable == old(memtable) && wal == old(wal)
      ensures State() == LsmModel.LoopPass(old(State()))
      ensures Good(State(), clock)
    {
      hide Good, LsmModel.CompactL0, LsmModel.CompactLevel, IsOpen, LevelSize, LevelFits, L0Fits, LoopFits, LoopLevels;
      StoredLevels(State(), clock);
      OpenCount(levels, tables);
      OpenLevel(levels, tables, 0);
      if |levels[0]| > MAX_L0_FILES {
        CompactL0Keeps(State(), clock);
        CompactL0ToL1(clock);
      }
      ghost var s1 := State();
      StoredLevels(s1, clock);
      OpenCount(levels, tables);
      for level := 1 to |levels| - 1
        invariant Valid() && memtable == old(memtable) && wal == old(wal)
        invariant Good(State(), clock) && |levels| == |s1.levels| == |tables| == |sizes|
        invariant LoopFits(State(), level) && LoopLevels(State(), level) == LoopLevels(s1, 1)
      {
        ghost var s2 := State();
        LoopStep(s2, level);
        if sizes[level] > LevelSize(BASE_LEVEL_SIZE, level) {
          CompactLevelKeeps(s2, level, clock);
          CompactLevel(level, clock);
          OpenCount(levels, tables);
        }
      }
      LoopEnds(State(), |levels| - 1);
    }

    // ----- reading -----

    method Get(key: Str) returns (r: Answer)
      requires Valid()
      ensures r == LsmGet.Get(State(), key)
    {
      hide IsOpen, GetTables;
      var e := memtable.Get(key);
      if e.Some? {
        return if e.value.tomb then Absent else Value(e.value.value);
      }
      OpenCount(levels, tables);
      assert tables[0..] == tables;
      for i := 0 to |levels|
        invariant GetLevels(tables[i..], key) == GetLevels(tables, key)
      {
        assert tables[i..][1..] == tables[i + 1..] && tables[i..][0] == tables[i];
        OpenLevel(levels, tables, i);
        var found := FindIn(levels[i], tables[i], key);
        if !found.Missing? {
          return AnswerOf(found);
        }
      }
      r := Absent;
    }
  }
}
