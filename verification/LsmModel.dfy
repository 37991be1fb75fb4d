/** The state machine of the LSM tree: what each operation makes of memtable, log, levels, level
    sizes and files. */
module LsmModel {
  import opened Bytes
  import opened Entries
  import opened Versions
  import opened Records
  import opened TableFormat
  import opened TableLookup
  import opened Sstable
  import opened TableLimits
  import opened Compaction
  import opened Chunks
  import opened Paths
  import WalFormat
  import Wal
  import Memtable

  const MAX_L0_FILES: nat := 8
  const BASE_LEVEL_SIZE: nat := 0x10_0000

  datatype KeyValue = KeyValue(key: Str, value: Str)

  /** A table file by what it was written from: its name and its entries. */
  datatype Table = Table(level: nat, id: nat, entries: seq<Entry>)

  /** How many entries the table's writer was told to expect. */
  function Expect(t: Table): nat {
    if t.level == 0 then |t.entries| else ENTRIES_PER_CHUNK
  }

  /** The table as Open reads it back. */
  function Handle(t: Table): SSTable {
    Written(t.entries, STEP, Expect(t))
  }

  function NameOf(t: Table): Name {
    Name(t.level, t.id)
  }

  function DataSize(t: Table): nat {
    |Data(t.entries)|
  }

  datatype Store = Store(
    mem: map<Str, Entry>,
    log: Option<Wal.LogState>,
    levels: seq<seq<Table>>,
    sizes: seq<int>,
    nextID: nat,
    manifest: seq<seq<Name>>,
    files: map<Name, Str>,
    threshold: nat)

  // ----- what a store holds -----

  ghost function Held(ts: seq<Table>): (s: set<Entry>)
    ensures forall t, e :: t in ts && e in t.entries ==> e in s
    ensures forall e :: e in s ==> exists t :: t in ts && e in t.entries
  {
    set t, e | t in ts && e in t.entries :: e
  }

  ghost function HeldAll(levels: seq<seq<Table>>): (s: set<Entry>)
    ensures forall i, e :: 0 <= i < |levels| && e in Held(levels[i]) ==> e in s
    ensures forall e :: e in s ==> exists i :: 0 <= i < |levels| && e in Held(levels[i])
  {
    set i, e | 0 <= i < |levels| && e in Held(levels[i]) :: e
  }

  ghost function VersionsOf(mem: map<Str, Entry>, levels: seq<seq<Table>>): set<Entry> {
    mem.Values + HeldAll(levels)
  }

  ghost function AllVersions(s: Store): set<Entry> {
    VersionsOf(s.mem, s.levels)
  }

  /** What a reader should see of a key: its newest version anywhere, a deletion being absence. */
  ghost function View(s: Store, k: Str): Option<Str> {
    Visible(AllVersions(s), k)
  }

  // ----- writing -----

  /** The version a log record or a batch puts into the memtable; deletions carry no value. */
  function Applied(e: Entry): Entry {
    if e.tomb then Entry(e.key, [], e.ts, true) else e
  }

  function ApplyAll(mem: map<Str, Entry>, es: seq<Entry>): map<Str, Entry> {
    if es == [] then mem
    else ApplyAll(mem, es[..|es| - 1])[es[|es| - 1].key := Applied(es[|es| - 1])]
  }

  /** The versions of a batch: timestamps count up from the clock. */
  function BatchEntries(kvs: seq<KeyValue>, now: int): seq<Entry> {
    seq(|kvs|, i requires 0 <= i < |kvs| => Entry(kvs[i].key, kvs[i].value, now + i, false))
  }

  ghost function Logged(log: Option<Wal.LogState>, es: seq<Entry>): Option<Wal.LogState> {
    if log.Some? && log.value.size > 0 then Some(Wal.Appended(log.value, WalFormat.Frame(es))) else log
  }

  ghost function Wrote(s: Store, es: seq<Entry>): Store {
    s.(mem := ApplyAll(s.mem, es), log := Logged(s.log, es))
  }

  ghost function PutBatch(s: Store, kvs: seq<KeyValue>, now: int): Store {
    if kvs == [] then s
    else
      var s1 := Wrote(s, BatchEntries(kvs, now));
      if Memtable.TotalCost(s1.mem.Values) >= s.threshold then Flush(s1) else s1
  }

  ghost function Delete(s: Store, key: Str, now: int): Store {
    Wrote(s, [Entry(key, [], now, true)])
  }

  // ----- files -----

  function Names(levels: seq<seq<Table>>): seq<seq<Name>> {
    seq(|levels|, i requires 0 <= i < |levels| => NamesOf(levels[i]))
  }

  function NamesOf(ts: seq<Table>): seq<Name> {
    seq(|ts|, i requires 0 <= i < |ts| => NameOf(ts[i]))
  }

  function FilesWith(files: map<Name, Str>, ts: seq<Table>): map<Name, Str> {
    if ts == [] then files
    else FilesWith(files, ts[..|ts| - 1])[NameOf(ts[|ts| - 1]) := Handle(ts[|ts| - 1]).data]
  }

  function TotalSize(ts: seq<Table>): nat {
    if ts == [] then 0 else TotalSize(ts[..|ts| - 1]) + DataSize(ts[|ts| - 1])
  }

  // ----- flushing -----

  ghost function SortedMem(mem: map<Str, Entry>): seq<Entry> {
    if DistinctKeys(mem.Values) then SortedEntries(mem.Values) else []
  }

  ghost function FlushedTable(s: Store): Table {
    Table(0, s.nextID, SortedMem(s.mem))
  }

  ghost function Flushed(s: Store): Store {
    if |s.levels| == 0 || |s.sizes| == 0 then s
    else
      var t := FlushedTable(s);
      var levels := s.levels[0 := s.levels[0] + [t]];
      s.(mem := map[],
         log := if s.log.Some? then Some(Wal.Fresh()) else None,
         levels := levels,
         sizes := s.sizes[0 := s.sizes[0] + DataSize(t)],
         nextID := s.nextID + 1,
         manifest := Names(levels),
         files := FilesWith(s.files, [t]))
  }

  /** How a flush ends: the table is there; closing its file panics and takes the process down; or the
      file's footer was cut, after which the file does not open, or opens only if the cut footer happens
      to spell the legacy format. */
  datatype FlushResult = Done | Crashed | Failed | AsLegacy

  ghost function ResultOf(c: Closed): FlushResult {
    if c.Panics? then Crashed
    else
      var o := TableFormat.Open(c.bytes, false);
      if o.Opened? then Done else if o.Legacy? then AsLegacy else Failed
  }

  ghost function FlushClosed(s: Store): Closed {
    CloseOf(SortedMem(s.mem), STEP, |SortedMem(s.mem)|)
  }

  ghost function FlushEnds(s: Store): FlushResult {
    if s.mem == map[] then Done else ResultOf(FlushClosed(s))
  }

  /** How a batch ends: it may flush. */
  ghost function PutEnds(s: Store, kvs: seq<KeyValue>, now: int): FlushResult {
    if kvs == [] then Done
    else
      var s1 := Wrote(s, BatchEntries(kvs, now));
      if Memtable.TotalCost(s1.mem.Values) >= s.threshold then FlushEnds(s1) else Done
  }

  /** What a failed flush leaves: the memtable was replaced and the log reset before the file was
      opened. */
  ghost function Lost(s: Store): Store {
    s.(mem := map[],
       log := if s.log.Some? then Some(Wal.Fresh()) else None,
       nextID := s.nextID + 1,
       files := if FlushClosed(s).Leaves? then s.files[Name(0, s.nextID) := FlushClosed(s).bytes] else s.files)
  }

  /** The compaction a flush makes itself when level 0 is twice as long as it should be. */
  ghost function Relieved(s: Store): Store {
    if |s.levels| > 0 && |s.levels[0]| > MAX_L0_FILES * 2 then CompactL0(s) else s
  }

  /** flushMemtable. A panic leaves memory and log as they are, for as long as the process has them. */
  ghost function Flush(s: Store): Store {
    if s.mem == map[] then s
    else match FlushEnds(s)
      case Done => Relieved(Flushed(s))
      case Failed => Lost(s)
      case _ => s.(nextID := s.nextID + 1)
  }

  // ----- compaction -----

  ghost function Numbered(chunks: seq<seq<Entry>>, level: nat, id: nat): seq<Table> {
    seq(|chunks|, i requires 0 <= i < |chunks| => Table(level, id + i, chunks[i]))
  }

  /** The tables DoCompact makes of the inputs. */
  ghost function Outputs(inputs: seq<Table>, level: nat, id: nat): seq<Table> {
    var v := Held(inputs);
    if NoTies(v) then Numbered(ChunksOf(SortedEntries(Survivors(v, level >= BOTTOM_LEVEL))), level, id) else []
  }

  /** Which tables of level `from` and of the level below it are merged, and which stay. */
  datatype Plan = Plan(from: nat, take: seq<Table>, keep: seq<Table>, takeNext: seq<Table>, keepNext: seq<Table>)

  ghost function PlanOutputs(s: Store, p: Plan): seq<Table> {
    Outputs(p.take + p.takeNext, p.from + 1, s.nextID)
  }

  /** The names of the files a compaction removes. */
  ghost function InputNames(p: Plan): (s: set<Name>)
    ensures forall n :: n in s <==> exists t :: (t in p.take || t in p.takeNext) && NameOf(t) == n
  {
    set t | t in p.take + p.takeNext :: NameOf(t)
  }

  /** The part the two compactions share: merge, drop the inputs, append the outputs to the next
      level, account for the sizes, write the manifest. */
  ghost function Compact(s: Store, p: Plan): Store {
    if !(p.from + 1 < |s.levels| && |s.sizes| == |s.levels|) then s
    else
      var outs := PlanOutputs(s, p);
      var next := p.from + 1;
      var levels := s.levels[p.from := p.keep][next := p.keepNext + outs];
      s.(levels := levels,
         sizes := s.sizes[p.from := s.sizes[p.from] - TotalSize(p.take)]
                         [next := s.sizes[next] - TotalSize(p.takeNext) + TotalSize(outs)],
         nextID := s.nextID + |outs|,
         manifest := Names(levels),
         files := FilesWith(s.files, outs) - InputNames(p))
  }

  predicate NameBelow(a: Table, b: Table) {
    Less(FileName(NameOf(a)), FileName(NameOf(b)))
  }

  function Inserted(ts: seq<Table>, t: Table): seq<Table> {
    if ts != [] && NameBelow(t, ts[|ts| - 1]) then Inserted(ts[..|ts| - 1], t) + [ts[|ts| - 1]] else ts + [t]
  }

  /** sort.Slice by path. */
  function ByPath(ts: seq<Table>): seq<Table> {
    if ts == [] then [] else Inserted(ByPath(ts[..|ts| - 1]), ts[|ts| - 1])
  }

  /** How many level-0 tables one compaction takes. */
  function TakeCount(n: nat): nat {
    var half := if n / 2 < 1 then 1 else n / 2;
    if half > MAX_L0_FILES / 2 then MAX_L0_FILES / 2 else half
  }

  function Smallest(ts: seq<Table>): Str
    requires ts != []
  {
    var k := MinKey(Handle(ts[|ts| - 1]));
    if |ts| == 1 then k
    else
      var m := Smallest(ts[..|ts| - 1]);
      if Less(k, m) then k else m
  }

  function Greatest(ts: seq<Table>): Str
    requires ts != []
  {
    var k := MaxKey(Handle(ts[|ts| - 1]));
    if |ts| == 1 then k
    else
      var m := Greatest(ts[..|ts| - 1]);
      if Less(m, k) then k else m
  }

  predicate Apart(t: Table, minK: Str, maxK: Str) {
    Less(MaxKey(Handle(t)), minK) || Less(maxK, MinKey(Handle(t)))
  }

  function Overlapping(ts: seq<Table>, minK: Str, maxK: Str): seq<Table> {
    if ts == [] then []
    else
      var t := ts[|ts| - 1];
      Overlapping(ts[..|ts| - 1], minK, maxK) + (if Apart(t, minK, maxK) then [] else [t])
  }

  function NotOverlapping(ts: seq<Table>, minK: Str, maxK: Str): seq<Table> {
    if ts == [] then []
    else
      var t := ts[|ts| - 1];
      NotOverlapping(ts[..|ts| - 1], minK, maxK) + (if Apart(t, minK, maxK) then [t] else [])
  }

  function PlanL0(s: Store): Plan
    requires |s.levels| >= 2 && s.levels[0] != []
  {
    var sorted := ByPath(s.levels[0]);
    ByPathLength(s.levels[0]);
    var n := TakeCount(|sorted|);
    var take := sorted[..n];
    var minK, maxK := Smallest(take), Greatest(take);
    Plan(0, take, sorted[n..], Overlapping(s.levels[1], minK, maxK), NotOverlapping(s.levels[1], minK, maxK))
  }

  lemma {:induction false} InsertedMembers(ts: seq<Table>, t: Table)
    ensures multiset(Inserted(ts, t)) == multiset(ts) + multiset{t}
    decreases |ts|
  {
    hide NameBelow;
    if ts != [] && NameBelow(t, ts[|ts| - 1]) {
      InsertedMembers(ts[..|ts| - 1], t);
      assert ts == ts[..|ts| - 1] + [ts[|ts| - 1]];
    }
  }

  lemma {:induction false} ByPathMembers(ts: seq<Table>)
    ensures multiset(ByPath(ts)) == multiset(ts)
    decreases |ts|
  {
    hide Inserted;
    if ts != [] {
      ByPathMembers(ts[..|ts| - 1]);
      InsertedMembers(ByPath(ts[..|ts| - 1]), ts[|ts| - 1]);
      assert ts == ts[..|ts| - 1] + [ts[|ts| - 1]];
    }
  }

  /** No table is behind one whose name is greater. */
  ghost predicate InPathOrder(ts: seq<Table>) {
    forall i, j :: 0 <= i < j < |ts| ==> !NameBelow(ts[j], ts[i])
  }

  lemma NotBelowTransitive(a: Table, b: Table, c: Table)
    requires !NameBelow(b, a) && !NameBelow(c, b)
    ensures !NameBelow(c, a)
  {
    hide FileName;
    var x, y, z := FileName(NameOf(a)), FileName(NameOf(b)), FileName(NameOf(c));
    if Less(z, x) {
      LessTotal(x, y);
      if x != y {
        LessTransitive(z, x, y);
      }
    }
  }

  lemma NotBelowBack(a: Table, b: Table)
    requires NameBelow(a, b)
    ensures !NameBelow(b, a)
  {
    hide FileName;
    LessAsymmetric(FileName(NameOf(a)), FileName(NameOf(b)));
  }

  lemma PathSnoc(ts: seq<Table>, t: Table)
    requires InPathOrder(ts) && forall u :: u in ts ==> !NameBelow(t, u)
    ensures InPathOrder(ts + [t])
  {
    hide NameBelow;
    var us := ts + [t];
    forall i, j | 0 <= i < j < |us| ensures !NameBelow(us[j], us[i]) {
      assert us[i] == ts[i] && ts[i] in ts;
    }
  }

  lemma {:induction false} InsertedInOrder(ts: seq<Table>, t: Table)
    requires InPathOrder(ts)
    ensures InPathOrder(Inserted(ts, t))
    decreases |ts|
  {
    hide NameBelow;
    if ts == [] {
    } else {
      var n := |ts| - 1;
      var last := ts[n];
      if NameBelow(t, last) {
        InsertedInOrder(ts[..n], t);
        InsertedMembers(ts[..n], t);
        NotBelowBack(t, last);
        forall u | u in Inserted(ts[..n], t) ensures !NameBelow(last, u) {
          assert u in multiset(Inserted(ts[..n], t));
          if u != t {
            assert u in multiset(ts[..n]) && u in ts[..n];
          }
        }
        PathSnoc(Inserted(ts[..n], t), last);
      } else {
        forall u | u in ts ensures !NameBelow(t, u) {
          if u != last {
            NotBelowTransitive(u, last, t);
          }
        }
        PathSnoc(ts, t);
      }
    }
  }

  /** Sorting by path leaves no table behind one whose name is greater. */
  lemma {:induction false} ByPathSorts(ts: seq<Table>)
    ensures InPathOrder(ByPath(ts))
    decreases |ts|
  {
    hide Inserted, NameBelow;
    if ts != [] {
      ByPathSorts(ts[..|ts| - 1]);
      InsertedInOrder(ByPath(ts[..|ts| - 1]), ts[|ts| - 1]);
    }
  }

  lemma ByPathLength(ts: seq<Table>)
    ensures |ByPath(ts)| == |ts|
  {
    ByPathMembers(ts);
    assert |multiset(ByPath(ts))| == |multiset(ts)|;
  }

  /** compactL0ToL1. */
  ghost function CompactL0(s: Store): Store {
    if |s.levels| < 2 || s.levels[0] == [] then s else Compact(s, PlanL0(s))
  }

  function PlanLevel(s: Store, level: nat): Plan
    requires level + 1 < |s.levels|
  {
    Plan(level, s.levels[level], [], s.levels[level + 1], [])
  }

  /** compactLevel, with the cascade into the next level. */
  ghost function CompactLevel(s: Store, level: nat): Store
    decreases |s.levels| - level
  {
    if level < 1 || level + 1 >= |s.levels| || |s.sizes| != |s.levels| || s.levels[level] == [] then s
    else
      var s1 := Compact(s, PlanLevel(s, level));
      if s1.sizes[level + 1] > LevelSize(BASE_LEVEL_SIZE, level + 1) && level + 2 < |s.levels|
      then CompactLevel(s1, level + 1)
      else s1
  }

  ghost function LoopLevels(s: Store, level: nat): Store
    decreases |s.levels| - level
  {
    if level + 1 >= |s.levels| || |s.sizes| != |s.levels| then s
    else
      var s1 := if s.sizes[level] > LevelSize(BASE_LEVEL_SIZE, level) then CompactLevel(s, level) else s;
      CompactLevelShape(s, level);
      LoopLevels(s1, level + 1)
  }

  lemma {:induction false} CompactLevelShape(s: Store, level: nat)
    ensures |CompactLevel(s, level).levels| == |s.levels|
    ensures |s.sizes| == |s.levels| ==> |CompactLevel(s, level).sizes| == |s.levels|
    decreases |s.levels| - level
  {
    hide Compact, LevelSize;
    if !(level < 1 || level + 1 >= |s.levels| || |s.sizes| != |s.levels| || s.levels[level] == []) {
      CompactCounts(s, PlanLevel(s, level));
      CompactLevelShape(Compact(s, PlanLevel(s, level)), level + 1);
    }
  }

  lemma CompactCounts(s: Store, p: Plan)
    ensures |Compact(s, p).levels| == |s.levels| && |Compact(s, p).sizes| == |s.sizes|
  {
    hide PlanOutputs, TotalSize, Names, FilesWith, InputNames;
  }

  /** One pass of compactionLoop. */
  ghost function LoopPass(s: Store): Store {
    LoopLevels(if |s.levels| > 0 && |s.levels[0]| > MAX_L0_FILES then CompactL0(s) else s, 1)
  }

  // ----- opening -----

  /** The file the log leaves: a killed process leaves the whole mapping, Close what was written. */
  function LogFile(l: Wal.LogState, crash: bool): Str {
    if crash && |l.bytes| <= l.size then Wal.CrashFile(l) else l.bytes
  }

  /** recoverWAL: the replayed entries go into an empty memtable, and the log is reset if there were
      any. */
  function Recovered(file: Str): (map<Str, Entry>, Wal.LogState) {
    var l := Wal.OpenFile(file);
    var r := WalFormat.Replay(l.bytes);
    if r.Panicked? then (map[], l)
    else (ApplyAll(map[], r.es), if |r.es| > 0 then Wal.Fresh() else l)
  }

  /** The tables of one manifest level whose files open. */
  function LoadLevel(names: seq<Name>, files: map<Name, Str>): seq<Table> {
    if names == [] then []
    else
      var n := names[|names| - 1];
      LoadLevel(names[..|names| - 1], files) + LoadTable(n, files)
  }

  function LoadTable(n: Name, files: map<Name, Str>): seq<Table> {
    if n !in files then []
    else
      var o := TableFormat.Open(files[n], true);
      if !o.Opened? || o.table.dataSize > |o.table.data| then []
      else
        var es := GetAll(o.table.data[..o.table.dataSize]);
        if es.None? then [] else [Table(n.level, n.id, es.value)]
  }

  function Load(manifest: seq<seq<Name>>, files: map<Name, Str>): seq<seq<Table>> {
    seq(|manifest|, i requires 0 <= i < |manifest| => LoadLevel(manifest[i], files))
  }

  function SizesOf(levels: seq<seq<Table>>): seq<int> {
    seq(|levels|, i requires 0 <= i < |levels| => TotalSize(levels[i]))
  }

  function KnownNames(manifest: seq<seq<Name>>): set<Name> {
    set i, j | 0 <= i < |manifest| && 0 <= j < |manifest[i]| :: manifest[i][j]
  }

  /** Open on the files a stopped process left, with the same number of levels. */
  function Reopen(s: Store, crash: bool, now: nat): Store {
    var levels := Load(s.manifest, s.files);
    var (mem, log) := if s.log.Some? then
                        var (m, l) := Recovered(LogFile(s.log.value, crash));
                        (m, Some(l))
                      else (map[], None);
    Store(mem, log, levels, SizesOf(levels), now,
          Names(levels), map n | n in s.files && n in KnownNames(s.manifest) :: s.files[n], s.threshold)
  }

  /** A store opened on an empty directory. */
  function Initial(numLevels: nat, threshold: nat, withLog: bool, now: nat): Store {
    var levels := seq(numLevels, _ => []);
    Store(map[], if withLog then Some(Wal.Fresh()) else None, levels, seq(numLevels, _ => 0), now,
          Names(levels), map[], threshold)
  }
}
