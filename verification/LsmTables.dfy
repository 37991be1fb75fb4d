/** What every reachable store keeps about its tables: their shape, their files, the level sizes and
    the file names. */
module LsmTables {
  import opened Bytes
  import opened Entries
  import opened Versions
  import opened Varint
  import opened Records
  import opened TableFormat
  import opened TableLookup
  import opened TableLimits
  import opened Sstable
  import opened Compaction
  import opened Chunks
  import opened Paths
  import opened LsmModel
  import opened LsmVersions
  import Memtable
  import Wal

  const DIGITS: nat := 18

  ghost predicate TableOk(t: Table, level: nat, nextID: nat) {
    && t.level == level && t.id < nextID
    && t.entries != []
    && Writable(t.entries, STEP, Expect(t))
  }

  ghost predicate TablesOk(ts: seq<Table>, level: nat, nextID: nat) {
    forall t :: t in ts ==> TableOk(t, level, nextID)
  }

  ghost predicate LevelsOk(levels: seq<seq<Table>>, nextID: nat) {
    forall i :: 0 <= i < |levels| ==> TablesOk(levels[i], i, nextID)
  }

  /** No two tables of the list share a name. */
  ghost predicate DistinctNames(ms: multiset<Table>) {
    && (forall t :: t in ms ==> ms[t] == 1)
    && (forall t, u :: t in ms && u in ms && NameOf(t) == NameOf(u) ==> t == u)
  }

  ghost predicate NamesDistinct(levels: seq<seq<Table>>) {
    forall i :: 0 <= i < |levels| ==> DistinctNames(multiset(levels[i]))
  }

  /** Level 0 lists its tables by rising number, and the numbers have equally many digits. */
  ghost predicate RisingIds(ts: seq<Table>) {
    && (forall i, j :: 0 <= i < j < |ts| ==> ts[i].id < ts[j].id)
    && (forall t :: t in ts ==> t.level == 0 && Pow10(DIGITS) <= t.id < Pow10(DIGITS + 1))
  }

  ghost predicate SizesOk(sizes: seq<int>, levels: seq<seq<Table>>) {
    |sizes| == |levels| && forall i :: 0 <= i < |levels| ==> sizes[i] == TotalSize(levels[i])
  }

  /** Every table's file is there with its bytes. */
  ghost predicate FilesOk(files: map<Name, Str>, levels: seq<seq<Table>>) {
    forall i, t :: 0 <= i < |levels| && t in levels[i] ==>
      NameOf(t) in files && files[NameOf(t)] == Handle(t).data
  }

  /** There is no other table file, but for those left over. */
  ghost predicate FilesKnown(s: Store, left: set<Name>) {
    forall n :: n in s.files ==> HasName(s.levels, n) || n in left
  }

  ghost predicate HasName(levels: seq<seq<Table>>, n: Name) {
    exists i, t :: 0 <= i < |levels| && t in levels[i] && NameOf(t) == n
  }

  /** The write position lies inside the mapping. */
  ghost predicate LogOk(l: Wal.LogState) {
    0 < |l.bytes| <= l.size
  }

  ghost predicate Stored(s: Store) {
    && 2 <= |s.levels|
    && LevelsOk(s.levels, s.nextID)
    && NamesDistinct(s.levels)
    && RisingIds(s.levels[0])
    && SizesOk(s.sizes, s.levels)
    && FilesOk(s.files, s.levels)
    && s.manifest == Names(s.levels)
    && Pow10(DIGITS) <= s.nextID
    && (s.log.Some? ==> LogOk(s.log.value))
    && forall e :: e in s.mem.Values ==> Storable(e)
  }

  /** What is stored, and no other files than those left over. */
  ghost predicate Intact(s: Store, left: set<Name>) {
    Stored(s) && FilesKnown(s, left)
  }

  // ----- sizes and names of lists of tables -----

  lemma {:induction false} TotalSizeAppend(a: seq<Table>, b: seq<Table>)
    ensures TotalSize(a + b) == TotalSize(a) + TotalSize(b)
    decreases |b|
  {
    hide DataSize;
    if b == [] {
      assert a + b == a;
    } else {
      var n := |b| - 1;
      TotalSizeAppend(a, b[..n]);
      assert (a + b)[..|a + b| - 1] == a + b[..n];
    }
  }

  lemma TotalSizeOne(t: Table)
    ensures TotalSize([t]) == DataSize(t) && TotalSize([]) == 0
  {
    hide DataSize;
    assert [t][..0] == [];
    assert TotalSize([t][..0]) == 0;
  }

  lemma DistinctInit(ts: seq<Table>)
    requires ts != [] && DistinctNames(multiset(ts))
    ensures DistinctNames(multiset(ts[..|ts| - 1]))
    ensures forall t :: t in ts[..|ts| - 1] ==> NameOf(t) != NameOf(ts[|ts| - 1])
    ensures forall t :: t in ts <==> t in ts[..|ts| - 1] || t == ts[|ts| - 1]
  {
    var init, last := ts[..|ts| - 1], ts[|ts| - 1];
    assert ts == init + [last];
    assert multiset(ts) == multiset(init) + multiset{last};
    assert forall t :: t in init ==> t in multiset(init) && multiset(ts)[t] == multiset(init)[t] + multiset{last}[t];
  }

  lemma {:induction false} FilesWithAll(files: map<Name, Str>, ts: seq<Table>)
    requires DistinctNames(multiset(ts))
    ensures forall t :: t in ts ==>
              NameOf(t) in FilesWith(files, ts) && FilesWith(files, ts)[NameOf(t)] == Handle(t).data
    ensures forall n :: n in FilesWith(files, ts) <==> n in files || exists t :: t in ts && NameOf(t) == n
    ensures forall n :: n in files && (forall t :: t in ts ==> NameOf(t) != n) ==>
              FilesWith(files, ts)[n] == files[n]
    decreases |ts|
  {
    hide Handle, DistinctNames;
    if ts != [] {
      DistinctInit(ts);
      FilesWithAll(files, ts[..|ts| - 1]);
    }
  }

  // ----- the parts of a plan -----

  ghost predicate Partition(all: seq<Table>, a: seq<Table>, b: seq<Table>) {
    && multiset(all) == multiset(a) + multiset(b)
    && TotalSize(all) == TotalSize(a) + TotalSize(b)
  }

  lemma PartitionMembers(all: seq<Table>, a: seq<Table>, b: seq<Table>)
    requires Partition(all, a, b)
    ensures forall t :: t in all <==> t in a || t in b
    ensures Held(all) == Held(a) + Held(b)
    ensures DistinctNames(multiset(all)) ==>
              && DistinctNames(multiset(a)) && DistinctNames(multiset(b))
              && forall t, u :: t in a && u in b ==> NameOf(t) != NameOf(u)
  {
    hide TotalSize;
    assert forall t :: t in all <==> t in multiset(all);
    assert forall t :: t in a <==> t in multiset(a);
    assert forall t :: t in b <==> t in multiset(b);
    forall e | e in Held(all) ensures e in Held(a) + Held(b) {
      var t :| t in all && e in t.entries;
    }
    forall e | e in Held(a) + Held(b) ensures e in Held(all) {
      var t :| (t in a || t in b) && e in t.entries;
    }
    if DistinctNames(multiset(all)) {
      forall t, u | t in a && u in b ensures NameOf(t) != NameOf(u) {
        assert t in multiset(all) && u in multiset(all);
        assert t == u ==> multiset(all)[t] >= 2;
      }
    }
  }

  lemma SplitPartition(ts: seq<Table>, n: nat)
    requires n <= |ts|
    ensures Partition(ts, ts[..n], ts[n..])
  {
    TotalSizeAppend(ts[..n], ts[n..]);
    assert ts == ts[..n] + ts[n..];
  }

  lemma AllPartition(ts: seq<Table>)
    ensures Partition(ts, ts, [])
  {
    assert multiset(ts) == multiset(ts) + multiset([]);
  }

  lemma PartitionLeft(all: seq<Table>, a: seq<Table>, b: seq<Table>, t: Table)
    requires Partition(all, a, b)
    ensures Partition(all + [t], a + [t], b)
  {
    TotalSizeAppend(all, [t]);
    TotalSizeAppend(a, [t]);
  }

  lemma PartitionRight(all: seq<Table>, a: seq<Table>, b: seq<Table>, t: Table)
    requires Partition(all, a, b)
    ensures Partition(all + [t], a, b + [t])
  {
    TotalSizeAppend(all, [t]);
    TotalSizeAppend(b, [t]);
  }

  lemma {:induction false} OverlapPartition(ts: seq<Table>, minK: Str, maxK: Str)
    ensures Partition(ts, Overlapping(ts, minK, maxK), NotOverlapping(ts, minK, maxK))
    decreases |ts|
  {
    hide Apart, Partition;
    if ts == [] {
      AllPartition([]);
    } else {
      var n := |ts| - 1;
      var over, not := Overlapping(ts[..n], minK, maxK), NotOverlapping(ts[..n], minK, maxK);
      OverlapPartition(ts[..n], minK, maxK);
      assert ts == ts[..n] + [ts[n]] && over + [] == over && not + [] == not;
      if Apart(ts[n], minK, maxK) {
        PartitionRight(ts[..n], over, not, ts[n]);
      } else {
        PartitionLeft(ts[..n], over, not, ts[n]);
      }
    }
  }

  lemma {:induction false} InsertedSize(ts: seq<Table>, t: Table)
    ensures TotalSize(Inserted(ts, t)) == TotalSize(ts) + DataSize(t)
    decreases |ts|
  {
    hide NameBelow, DataSize;
    TotalSizeOne(t);
    if ts != [] && NameBelow(t, ts[|ts| - 1]) {
      InsertedSize(ts[..|ts| - 1], t);
      TotalSizeAppend(Inserted(ts[..|ts| - 1], t), [ts[|ts| - 1]]);
      TotalSizeOne(ts[|ts| - 1]);
    } else {
      TotalSizeAppend(ts, [t]);
    }
  }

  /** Sorting a level keeps its size. */
  lemma {:induction false} ByPathSize(ts: seq<Table>)
    ensures TotalSize(ByPath(ts)) == TotalSize(ts)
    decreases |ts|
  {
    hide Inserted, DataSize;
    if ts != [] {
      ByPathSize(ts[..|ts| - 1]);
      InsertedSize(ByPath(ts[..|ts| - 1]), ts[|ts| - 1]);
    }
  }

  /** The level-0 compaction splits levels 0 and 1, in whatever order level 0 is. */
  lemma PlanL0Parts(s: Store)
    requires 2 <= |s.levels| && s.levels[0] != []
    ensures var p := PlanL0(s);
      p.from == 0 && Partition(s.levels[0], p.take, p.keep) && Partition(s.levels[1], p.takeNext, p.keepNext)
  {
    hide Smallest, Greatest, Overlapping, NotOverlapping, ByPath, TotalSize;
    var l0, p := s.levels[0], PlanL0(s);
    ByPathMembers(l0);
    ByPathSize(l0);
    ByPathLength(l0);
    SplitPartition(ByPath(l0), TakeCount(|l0|));
    OverlapPartition(s.levels[1], Smallest(p.take), Greatest(p.take));
  }

  // ----- level 0 is already in path order -----

  lemma PathsRise(ts: seq<Table>, i: nat)
    requires RisingIds(ts) && 0 < i < |ts|
    ensures !NameBelow(ts[i], ts[i - 1])
  {
    hide FileName, Pow10;
    assert ts[i - 1] in ts && ts[i] in ts;
    NameOrder(ts[i - 1].id, ts[i].id, DIGITS);
    LessAsymmetric(FileName(NameOf(ts[i - 1])), FileName(NameOf(ts[i])));
  }

  lemma RisingSlice(ts: seq<Table>, m: nat, n: nat)
    requires RisingIds(ts) && m <= n <= |ts|
    ensures RisingIds(ts[m..n])
  {
    hide Pow10;
  }

  lemma {:induction false} ByPathKeeps(ts: seq<Table>)
    requires RisingIds(ts)
    ensures ByPath(ts) == ts
    decreases |ts|
  {
    hide NameBelow, RisingIds;
    if ts != [] {
      var n := |ts| - 1;
      RisingSlice(ts, 0, n);
      assert ts[0..n] == ts[..n];
      ByPathKeeps(ts[..n]);
      assert ts == ts[..n] + [ts[n]];
      if n > 0 {
        PathsRise(ts, n);
        assert ts[..n][n - 1] == ts[n - 1];
      }
    }
  }

  /** Both compactions split their two levels without losing, repeating or mixing up a table. */
  ghost predicate PlanOk(levels: seq<seq<Table>>, p: Plan) {
    && p.from + 1 < |levels|
    && Partition(levels[p.from], p.take, p.keep)
    && Partition(levels[p.from + 1], p.takeNext, p.keepNext)
    && (p.from == 0 ==> RisingIds(p.keep))
    && Splits(levels, p) && (|levels| <= 7 ==> BottomIsLast(levels, p))
  }

  /** What holds of every reachable store whatever its keys and values are. */
  ghost predicate Core(s: Store, clock: int) {
    && 2 <= |s.levels| == |s.sizes|
    && RisingIds(s.levels[0])
    && (forall t :: t in s.levels[0] ==> t.id < s.nextID)
    && Pow10(DIGITS) <= s.nextID
    && Versioned(s.mem, s.levels, clock)
  }

  lemma PlanLevelOk(levels: seq<seq<Table>>, s: Store, level: nat)
    requires levels == s.levels && 1 <= level && level + 1 < |levels|
    ensures PlanOk(levels, PlanLevel(s, level))
  {
    hide Held, Partition, DistinctNames;
    AllPartition(levels[level]);
    AllPartition(levels[level + 1]);
    PartitionMembers(levels[level], levels[level], []);
    PartitionMembers(levels[level + 1], levels[level + 1], []);
    HeldNone();
  }

  /** compactL0ToL1 takes the `n` oldest tables: four of more than eight, half of fewer, but at least one. */
  lemma PlanL0Ok(s: Store, clock: int) returns (n: nat)
    requires Core(s, clock) && s.levels[0] != []
    ensures PlanOk(s.levels, PlanL0(s))
    ensures var m := |s.levels[0]|; 0 < n <= m && n == if m > 8 then 4 else if m == 1 then 1 else m / 2
    ensures PlanL0(s).take == s.levels[0][..n] && PlanL0(s).keep == s.levels[0][n..]
  {
    hide Held, TotalSize, Smallest, Greatest, Overlapping, NotOverlapping, Partition, Newer, InOrder;
    hide RisingIds, Core, ByPath;
    LevelZero(s, clock);
    var l0 := s.levels[0];
    ByPathKeeps(l0);
    var p := PlanL0(s);
    n := TakeCount(|l0|);
    assert p.take == l0[..n] && p.keep == l0[n..];
    SplitPartition(l0, n);
    OverlapPartition(s.levels[1], Smallest(p.take), Greatest(p.take));
    PartitionMembers(l0, p.take, p.keep);
    PartitionMembers(s.levels[1], p.takeNext, p.keepNext);
    SuffixIsNewer(l0, n);
    RisingSlice(l0, n, |l0|);
    assert l0[n..|l0|] == l0[n..];
  }

  lemma LevelZero(s: Store, clock: int)
    requires Core(s, clock)
    ensures 2 <= |s.levels| && RisingIds(s.levels[0]) && InOrder(s.levels[0])
  {
    hide NoTies, Held, Newer, InOrder, RisingIds;
  }

  lemma SuffixIsNewer(ts: seq<Table>, n: nat)
    requires InOrder(ts) && n <= |ts|
    ensures Newer(Held(ts[n..]), Held(ts[..n])) && InOrder(ts[n..])
  {
    forall e, f | e in Held(ts[n..]) && f in Held(ts[..n]) && e.key == f.key ensures e.ts > f.ts {
      var t :| t in ts[n..] && e in t.entries;
      var u :| u in ts[..n] && f in u.entries;
      var j :| n <= j < |ts| && ts[j] == t;
      var i :| 0 <= i < n && ts[i] == u;
      assert Newer(Elems(ts[j].entries), Elems(ts[i].entries));
    }
  }

  // ----- flushing -----

  /** The counts of a flush fit an int. */
  ghost predicate FlushCounts(s: Store) {
    var es := SortedMem(s.mem);
    |es| < TWO_63 && |FileBytes(es, STEP, |es|)| < TWO_63
  }

  /** The flushed file stays inside what the writer maps. */
  ghost predicate FlushFits(s: Store) {
    FlushCounts(s) && HasRoom(SortedMem(s.mem), STEP, |SortedMem(s.mem)|)
  }

  lemma {:induction false} ChunkSizeIsTotal(es: seq<Entry>)
    requires Sorted(es)
    ensures ChunkSize(es) == Memtable.TotalCost(Elems(es))
    decreases |es|
  {
    if es == [] {
      assert Elems(es) == {};
    } else {
      var n := |es| - 1;
      assert es == es[..n] + [es[n]];
      ChunkSizeIsTotal(es[..n]);
      SortedDistinct(es);
      InitElems(es);
      Memtable.TotalCostWithout(Elems(es), es[n]);
    }
  }

  /** A memtable of entries within the bounds, up to 48 KiB above the default threshold, fits. */
  lemma SmallMemtableFits(s: Store)
    requires Memtable.KeyedByKey(s.mem) && s.mem != map[]
    requires forall e :: e in s.mem.Values ==> Bounded(e)
    requires Memtable.TotalCost(s.mem.Values) <= FLUSH_LIMIT
    ensures FlushFits(s)
  {
    hide FileBytes, HasRoom, Bounded, ChunkSize, Memtable.TotalCost;
    FlushedEntries(s);
    var es := SortedMem(s.mem);
    var k :| k in s.mem;
    assert s.mem[k] in Elems(es);
    assert forall e :: e in es ==> e in Elems(es) && Bounded(e);
    ChunkSizeIsTotal(es);
    FlushOutputFits(es);
    FileSize(es, |es|);
  }

  lemma Nineteen()
    ensures TWO_63 < Pow10(DIGITS + 1)
  {
    assert Pow10(4) == 10000;
    assert Pow10(8) == 100000000;
    assert Pow10(12) == 1000000000000;
    assert Pow10(16) == 10000000000000000;
    assert Pow10(19) == 10000000000000000000;
  }

  /** The flushed versions are exactly the memtable's. */
  lemma FlushedEntries(s: Store)
    requires Memtable.KeyedByKey(s.mem)
    ensures Sorted(FlushedTable(s).entries) && Elems(FlushedTable(s).entries) == s.mem.Values
  {
    Memtable.ValuesDistinct(s.mem);
  }

  /** A flush of entries whose lengths and timestamps fit 64 bits is done exactly when it fits the mapping, and
      then the file opens as the table. */
  lemma DoneIffFits(s: Store)
    requires Memtable.KeyedByKey(s.mem) && s.mem != map[] && FlushCounts(s)
    requires forall e :: e in s.mem.Values ==> Storable(e)
    ensures FlushEnds(s) == Done <==> FlushFits(s)
    ensures FlushFits(s) ==> FlushClosed(s) == Leaves(Handle(FlushedTable(s)).data)
    ensures TableFormat.Open(Handle(FlushedTable(s)).data, false) == Opened(Handle(FlushedTable(s)))
  {
    hide FileBytes, HasRoom, TableFormat.Open, Storable, CloseOf, SortedMem, FilterOf, Samples, Data;
    MemtableWritable(s);
    var es := SortedMem(s.mem);
    ClosedOpens(es, STEP, |es|, false);
    FileRoundTrip(es, STEP, |es|, false);
  }

  lemma MemtableWritable(s: Store)
    requires Memtable.KeyedByKey(s.mem) && FlushCounts(s)
    requires forall e :: e in s.mem.Values ==> Storable(e)
    ensures Writable(SortedMem(s.mem), STEP, |SortedMem(s.mem)|)
  {
    hide FileBytes, Storable;
    FlushedEntries(s);
    assert forall e :: e in SortedMem(s.mem) ==> e in Elems(SortedMem(s.mem));
  }

  lemma FlushedTableOk(s: Store)
    requires Stored(s) && Memtable.KeyedByKey(s.mem) && s.mem != map[] && FlushFits(s)
    ensures TableOk(FlushedTable(s), 0, s.nextID + 1)
  {
    hide FileBytes, LevelsOk, FilesOk, NamesDistinct, HasRoom, SizesOk, Pow10, Storable, RisingIds;
    MemtableWritable(s);
    FlushedEntries(s);
    var k :| k in s.mem;
    assert s.mem[k] in Elems(SortedMem(s.mem));
  }

  lemma BoundedAreStorable(es: seq<Entry>)
    requires AllBounded(es)
    ensures AllStorable(es)
  {
  }

  lemma OlderOk(ts: seq<Table>, level: nat, nextID: nat, later: nat)
    requires TablesOk(ts, level, nextID) && nextID <= later
    ensures TablesOk(ts, level, later)
  {
    hide Writable;
  }

  lemma FlushStored(s: Store, left: set<Name>)
    requires Intact(s, left) && Memtable.KeyedByKey(s.mem) && s.mem != map[] && FlushFits(s) && s.nextID < TWO_63
    ensures Intact(Flushed(s), left)
  {
    hide TableOk, FlushFits, Pow10, LevelsOk, NamesDistinct, SizesOk, FilesOk, RisingIds, FilesWith, Names;
    hide DataSize, HasName;
    var t := FlushedTable(s);
    NumbersBelow(s);
    FlushedTableOk(s);
    FlushLevels(s.levels, t, s.nextID);
    FlushRises(s.levels[0], t, s.nextID);
    FlushSizes(s.sizes, s.levels, t);
    FlushFiles(s, t);
    SizesCount(s.sizes, s.levels);
    FlushKnown(s, t, left);
  }

  /** A failed flush leaves one file that is no table's. */
  lemma LostStored(s: Store, left: set<Name>)
    requires Intact(s, left)
    ensures Intact(Lost(s), left + {Name(0, s.nextID)})
  {
    hide TablesOk, Pow10, NamesDistinct, SizesOk, RisingIds, FlushClosed;
    NumbersOlder(s.levels, s.nextID);
    forall i, t | 0 <= i < |s.levels| && t in s.levels[i] ensures NameOf(t) != Name(0, s.nextID) {
      NumberedBelow(s.levels, s.nextID, i, t);
    }
  }

  lemma NumbersOlder(levels: seq<seq<Table>>, nextID: nat)
    requires LevelsOk(levels, nextID)
    ensures LevelsOk(levels, nextID + 1)
  {
    hide TablesOk;
    forall i | 0 <= i < |levels| ensures TablesOk(levels[i], i, nextID + 1) {
      OlderOk(levels[i], i, nextID, nextID + 1);
    }
  }

  lemma NumberedBelow(levels: seq<seq<Table>>, nextID: nat, i: nat, t: Table)
    requires LevelsOk(levels, nextID) && i < |levels| && t in levels[i]
    ensures t.id < nextID && t.level == i
  {
    hide Writable;
    assert TablesOk(levels[i], i, nextID) && TableOk(t, i, nextID);
  }

  /** A flush that panics changes only the next number. */
  lemma NextStored(s: Store, left: set<Name>)
    requires Intact(s, left)
    ensures Intact(s.(nextID := s.nextID + 1), left)
  {
    hide TablesOk, Pow10, NamesDistinct, SizesOk, RisingIds, FilesOk;
    NumbersOlder(s.levels, s.nextID);
  }

  lemma NumbersBelow(s: Store)
    requires Stored(s)
    ensures forall t :: t in s.levels[0] ==> t.id < s.nextID
  {
    hide FilesOk, NamesDistinct, SizesOk, RisingIds, Writable;
    assert TablesOk(s.levels[0], 0, s.nextID);
    assert forall t :: t in s.levels[0] ==> TableOk(t, 0, s.nextID);
  }

  lemma FlushLevels(levels: seq<seq<Table>>, t: Table, nextID: nat)
    requires |levels| > 0 && LevelsOk(levels, nextID) && NamesDistinct(levels)
    requires TableOk(t, 0, nextID + 1) && t.id == nextID
    ensures LevelsOk(levels[0 := levels[0] + [t]], nextID + 1)
    ensures NamesDistinct(levels[0 := levels[0] + [t]])
  {
    hide TableOk, DistinctNames;
    var levels' := levels[0 := levels[0] + [t]];
    forall i | 0 <= i < |levels| ensures TablesOk(levels'[i], i, nextID + 1) {
      OlderOk(levels[i], i, nextID, nextID + 1);
    }
    NewestNumber(levels[0], t, nextID);
  }

  lemma FlushRises(ts: seq<Table>, t: Table, nextID: nat)
    requires RisingIds(ts) && forall u :: u in ts ==> u.id < nextID
    requires t.level == 0 && t.id == nextID && Pow10(DIGITS) <= nextID < TWO_63
    ensures RisingIds(ts + [t]) && forall u :: u in ts + [t] ==> u.id < nextID + 1
  {
    hide Pow10;
    Nineteen();
  }

  lemma FlushSizes(sizes: seq<int>, levels: seq<seq<Table>>, t: Table)
    requires |levels| > 0 && SizesOk(sizes, levels)
    ensures SizesOk(sizes[0 := sizes[0] + DataSize(t)], levels[0 := levels[0] + [t]])
  {
    hide DataSize, TotalSize;
    TotalSizeAppend(levels[0], [t]);
    TotalSizeOne(t);
  }

  lemma NewestNumber(ts: seq<Table>, t: Table, nextID: nat)
    requires TablesOk(ts, 0, nextID) && DistinctNames(multiset(ts)) && t.id == nextID
    ensures DistinctNames(multiset(ts + [t]))
    ensures forall u :: u in ts ==> NameOf(u) != NameOf(t)
  {
    hide Writable, Pow10;
    assert forall u :: u in ts ==> TableOk(u, 0, nextID) && u.id < nextID;
    assert forall u :: u in multiset(ts) ==> u in ts;
    assert multiset(ts + [t]) == multiset(ts) + multiset{t};
  }

  lemma FilesWithOne(files: map<Name, Str>, t: Table)
    ensures FilesWith(files, [t]) == files[NameOf(t) := Handle(t).data]
  {
    hide Handle;
    assert [t][..0] == [];
    assert FilesWith(files, [t][..0]) == files;
  }

  lemma FlushFiles(s: Store, t: Table)
    requires |s.levels| > 0 && FilesOk(s.files, s.levels) && LevelsOk(s.levels, s.nextID)
    requires NameOf(t) == Name(0, s.nextID)
    ensures FilesOk(FilesWith(s.files, [t]), s.levels[0 := s.levels[0] + [t]])
  {
    hide Writable, Pow10, Handle;
    var levels' := s.levels[0 := s.levels[0] + [t]];
    var files' := FilesWith(s.files, [t]);
    FilesWithOne(s.files, t);
    forall i, u | 0 <= i < |levels'| && u in levels'[i]
      ensures NameOf(u) in files' && files'[NameOf(u)] == Handle(u).data
    {
      if u in s.levels[i] {
        assert TableOk(u, i, s.nextID);
      }
    }
  }

  lemma FlushKnown(s: Store, t: Table, left: set<Name>)
    requires |s.levels| > 0 && |s.sizes| > 0 && FilesKnown(s, left) && t == FlushedTable(s)
    ensures FilesKnown(Flushed(s), left)
  {
    hide Handle, HasRoom, FlushedTable, Names, DataSize;
    var s' := Flushed(s);
    FilesWithOne(s.files, t);
    forall n | n in s'.files ensures HasName(s'.levels, n) || n in left {
      if n == NameOf(t) {
        assert t in s'.levels[0];
      } else if n !in left {
        var i, u :| 0 <= i < |s.levels| && u in s.levels[i] && NameOf(u) == n;
        assert u in s'.levels[i];
      }
    }
  }

  // ----- compacting -----

  /** Every output's blocks fit its file's mapping, and their lengths 63 bits. */
  ghost predicate Roomy(ts: seq<Table>) {
    forall t :: t in ts ==>
      && |t.entries| < TWO_63 && |FileBytes(t.entries, STEP, ENTRIES_PER_CHUNK)| < TWO_63
      && HasRoom(t.entries, STEP, ENTRIES_PER_CHUNK)
  }

  /** The outputs of the merge all fit. */
  ghost predicate MergeFits(s: Store, p: Plan) {
    Roomy(PlanOutputs(s, p))
  }

  lemma OutputsOk(s: Store, p: Plan)
    requires NoTies(Held(p.take + p.takeNext)) && MergeFits(s, p)
    requires forall t :: t in p.take + p.takeNext ==> AllStorable(t.entries)
    ensures var outs := PlanOutputs(s, p);
      TablesOk(outs, p.from + 1, s.nextID + |outs|) && DistinctNames(multiset(outs))
      && forall t :: t in outs ==> t.id >= s.nextID
  {
    hide Survivors, ChunksOf, Storable, FileBytes, HasRoom, SortedEntries, NoTies, Held, DistinctNames;
    var v := Held(p.take + p.takeNext);
    var es := SortedEntries(Survivors(v, p.from + 1 >= BOTTOM_LEVEL));
    var chunks := ChunksOf(es);
    SurvivorsStorable(p.take + p.takeNext, p.from + 1 >= BOTTOM_LEVEL);
    ChunksSorted(es);
    var outs := Numbered(chunks, p.from + 1, s.nextID);
    forall t | t in outs ensures TableOk(t, p.from + 1, s.nextID + |outs|) && t.id >= s.nextID {
      var i :| 0 <= i < |outs| && outs[i] == t;
      assert t.entries == chunks[i] && chunks[i] in chunks;
    }
    NumbersDistinct(chunks, p.from + 1, s.nextID);
  }

  lemma SurvivorsStorable(ts: seq<Table>, bottom: bool)
    requires NoTies(Held(ts)) && forall t :: t in ts ==> AllStorable(t.entries)
    ensures AllStorable(SortedEntries(Survivors(Held(ts), bottom)))
  {
    hide Storable, SortedEntries;
    forall e | e in SortedEntries(Survivors(Held(ts), bottom)) ensures Storable(e) {
      assert e in Elems(SortedEntries(Survivors(Held(ts), bottom))) && e in Held(ts);
      var t :| t in ts && e in t.entries;
    }
  }

  lemma ChunksSorted(es: seq<Entry>)
    requires Sorted(es)
    ensures forall c :: c in ChunksOf(es) ==> c != [] && Sorted(c)
    ensures AllStorable(es) ==> forall c :: c in ChunksOf(es) ==> AllStorable(c)
  {
    hide ChunksOf, Storable;
    ChunksJoin(es);
    JoinedSorted(ChunksOf(es));
    JoinedMembers(ChunksOf(es));
  }

  /** Names of outputs are new, and a name tells its level. */
  lemma NamesApart(levels: seq<seq<Table>>, nextID: nat, i: nat, t: Table, outs: seq<Table>)
    requires i < |levels| && LevelsOk(levels, nextID) && t in levels[i]
    requires forall u :: u in outs ==> u.id >= nextID
    ensures forall u :: u in outs ==> NameOf(u) != NameOf(t)
    ensures forall k, u :: 0 <= k < |levels| && u in levels[k] && NameOf(u) == NameOf(t) ==> k == i
  {
    hide Writable, Pow10;
    assert TablesOk(levels[i], i, nextID) && TableOk(t, i, nextID);
    forall k, u | 0 <= k < |levels| && u in levels[k] && NameOf(u) == NameOf(t) ensures k == i {
      assert TablesOk(levels[k], k, nextID) && TableOk(u, k, nextID);
    }
  }

  lemma CompactLevels(levels: seq<seq<Table>>, p: Plan, outs: seq<Table>, nextID: nat)
    requires p.from + 1 < |levels|
    requires PlanOk(levels, p) && LevelsOk(levels, nextID) && NamesDistinct(levels) && RisingIds(levels[0])
    requires TablesOk(outs, p.from + 1, nextID + |outs|) && DistinctNames(multiset(outs))
    requires forall t :: t in outs ==> t.id >= nextID
    ensures LevelsOk(LevelsAfter(levels, p, outs), nextID + |outs|)
    ensures NamesDistinct(LevelsAfter(levels, p, outs))
    ensures RisingIds(LevelsAfter(levels, p, outs)[0])
  {
    hide TableOk, DistinctNames, RisingIds, Partition, Splits;
    var levels' := LevelsAfter(levels, p, outs);
    var from, next := p.from, p.from + 1;
    assert NamesDistinct(levels) && DistinctNames(multiset(levels[from])) && DistinctNames(multiset(levels[next]));
    PartitionMembers(levels[from], p.take, p.keep);
    PartitionMembers(levels[next], p.takeNext, p.keepNext);
    forall i | 0 <= i < |levels'| ensures TablesOk(levels'[i], i, nextID + |outs|) {
      OlderOk(levels[i], i, nextID, nextID + |outs|);
    }
    forall t, u | t in p.keepNext && u in outs ensures NameOf(t) != NameOf(u) {
      NamesApart(levels, nextID, next, t, outs);
    }
    DistinctUnion(p.keepNext, outs);
  }

  lemma DistinctUnion(a: seq<Table>, b: seq<Table>)
    requires DistinctNames(multiset(a)) && DistinctNames(multiset(b))
    requires forall t, u :: t in a && u in b ==> NameOf(t) != NameOf(u)
    ensures DistinctNames(multiset(a + b))
  {
    assert multiset(a + b) == multiset(a) + multiset(b);
    assert forall t :: t in multiset(a) ==> t in a;
    assert forall t :: t in multiset(b) ==> t in b;
  }

  lemma SizesAfter(sizes: seq<int>, levels: seq<seq<Table>>, p: Plan, outs: seq<Table>)
    requires SizesOk(sizes, levels) && p.from + 1 < |levels|
    requires Partition(levels[p.from], p.take, p.keep) && Partition(levels[p.from + 1], p.takeNext, p.keepNext)
    ensures SizesOk(sizes[p.from := sizes[p.from] - TotalSize(p.take)]
                         [p.from + 1 := sizes[p.from + 1] - TotalSize(p.takeNext) + TotalSize(outs)],
                    LevelsAfter(levels, p, outs))
  {
    hide TotalSize;
    TotalSizeAppend(p.keepNext, outs);
  }

  lemma CompactSizes(sizes: seq<int>, levels: seq<seq<Table>>, p: Plan, outs: seq<Table>)
    requires PlanOk(levels, p) && SizesOk(sizes, levels)
    ensures SizesOk(sizes[p.from := sizes[p.from] - TotalSize(p.take)]
                         [p.from + 1 := sizes[p.from + 1] - TotalSize(p.takeNext) + TotalSize(outs)],
                    LevelsAfter(levels, p, outs))
  {
    hide TotalSize, Splits, RisingIds, SizesOk, Partition;
    SizesAfter(sizes, levels, p, outs);
  }

  /** The table stays: it is no input, and its name is no input's. */
  lemma KeptFile(levels: seq<seq<Table>>, p: Plan, nextID: nat, i: nat, t: Table)
    requires PlanOk(levels, p) && LevelsOk(levels, nextID) && NamesDistinct(levels)
    requires i < |levels|
    requires if i == p.from then t in p.keep else if i == p.from + 1 then t in p.keepNext else t in levels[i]
    ensures t in levels[i] && NameOf(t) !in InputNames(p)
  {
    hide LevelsOk, Splits, DistinctNames, RisingIds, Partition;
    PartitionMembers(levels[p.from], p.take, p.keep);
    PartitionMembers(levels[p.from + 1], p.takeNext, p.keepNext);
    assert DistinctNames(multiset(levels[p.from])) && DistinctNames(multiset(levels[p.from + 1]));
    NamesApart(levels, nextID, i, t, []);
    forall u | u in p.take || u in p.takeNext ensures NameOf(u) != NameOf(t) {
      var k := if u in p.take then p.from else p.from + 1;
      assert u in levels[k];
    }
  }

  lemma OutputFile(levels: seq<seq<Table>>, p: Plan, nextID: nat, outs: seq<Table>, t: Table)
    requires PlanOk(levels, p) && LevelsOk(levels, nextID)
    requires t in outs && forall u :: u in outs ==> u.id >= nextID
    ensures NameOf(t) !in InputNames(p)
  {
    hide LevelsOk, Splits, DistinctNames, RisingIds, Partition;
    PartitionMembers(levels[p.from], p.take, p.keep);
    PartitionMembers(levels[p.from + 1], p.takeNext, p.keepNext);
    forall u | u in p.take || u in p.takeNext ensures NameOf(u) != NameOf(t) {
      var k := if u in p.take then p.from else p.from + 1;
      NamesApart(levels, nextID, k, u, outs);
    }
  }

  lemma LiveFilesKept(files: map<Name, Str>, levels: seq<seq<Table>>, p: Plan, outs: seq<Table>, nextID: nat,
                      i: nat, t: Table)
    requires PlanOk(levels, p) && LevelsOk(levels, nextID) && NamesDistinct(levels) && FilesOk(files, levels)
    requires DistinctNames(multiset(outs)) && forall u :: u in outs ==> u.id >= nextID
    requires i < |levels| && t in LevelsAfter(levels, p, outs)[i]
    ensures var files' := FilesWith(files, outs) - InputNames(p);
      NameOf(t) in files' && files'[NameOf(t)] == Handle(t).data
  {
    hide LevelsOk, DistinctNames, RisingIds, Partition, Splits, NamesDistinct, Handle, FilesWith, InputNames;
    FilesWithAll(files, outs);
    if i == p.from + 1 && t in outs {
      OutputFile(levels, p, nextID, outs, t);
    } else {
      KeptFile(levels, p, nextID, i, t);
      NamesApart(levels, nextID, i, t, outs);
    }
  }

  /** A compaction leaves no other files. */
  lemma CompactKnown(s: Store, p: Plan, left: set<Name>)
    requires PlanOk(s.levels, p) && |s.sizes| == |s.levels| && FilesKnown(s, left)
    requires DistinctNames(multiset(PlanOutputs(s, p)))
    ensures FilesKnown(Compact(s, p), left)
  {
    hide DistinctNames, RisingIds, Partition, Splits, Handle, FilesWith, InputNames, Outputs, Names, TotalSize;
    hide BottomIsLast, HasName;
    var outs := PlanOutputs(s, p);
    FilesWithAll(s.files, outs);
    InputsNamed(p);
    forall n | n in Compact(s, p).files ensures HasName(Compact(s, p).levels, n) || n in left {
      KnownAfter(s, p, outs, n, left);
    }
  }

  lemma KnownAfter(s: Store, p: Plan, outs: seq<Table>, n: Name, left: set<Name>)
    requires PlanOk(s.levels, p)
    requires n !in InputNames(p) && ((exists t :: t in outs && NameOf(t) == n) || HasName(s.levels, n) || n in left)
    ensures HasName(LevelsAfter(s.levels, p, outs), n) || n in left
  {
    hide DistinctNames, RisingIds, Splits, Handle, InputNames, Partition, BottomIsLast;
    var levels, levels' := s.levels, LevelsAfter(s.levels, p, outs);
    if t :| t in outs && NameOf(t) == n {
      assert t in levels'[p.from + 1];
    } else if n !in left {
      PartitionMembers(levels[p.from], p.take, p.keep);
      PartitionMembers(levels[p.from + 1], p.takeNext, p.keepNext);
      InputsNamed(p);
      var i, t :| 0 <= i < |levels| && t in levels[i] && NameOf(t) == n;
      assert t in levels'[i];
    }
  }

  lemma CompactFiles(files: map<Name, Str>, levels: seq<seq<Table>>, p: Plan, outs: seq<Table>, nextID: nat)
    requires PlanOk(levels, p) && LevelsOk(levels, nextID) && NamesDistinct(levels) && FilesOk(files, levels)
    requires DistinctNames(multiset(outs)) && forall t :: t in outs ==> t.id >= nextID
    ensures FilesOk(FilesWith(files, outs) - InputNames(p), LevelsAfter(levels, p, outs))
  {
    hide LevelsOk, DistinctNames, PlanOk, NamesDistinct, Handle, FilesWith, InputNames;
    assert p.from + 1 < |levels| by { PlanInRange(levels, p); }
    var levels' := LevelsAfter(levels, p, outs);
    var files' := FilesWith(files, outs) - InputNames(p);
    forall i, t | 0 <= i < |levels'| && t in levels'[i]
      ensures NameOf(t) in files' && files'[NameOf(t)] == Handle(t).data
    {
      LiveFilesKept(files, levels, p, outs, nextID, i, t);
    }
  }

  lemma PlanInRange(levels: seq<seq<Table>>, p: Plan)
    requires PlanOk(levels, p)
    ensures p.from + 1 < |levels|
  {
  }

  lemma InputsNamed(p: Plan)
    ensures forall t :: t in p.take || t in p.takeNext ==> NameOf(t) in InputNames(p)
  {
  }

  /** What a compaction keeps about the tables. */
  lemma CompactStored(s: Store, p: Plan, left: set<Name>)
    requires Intact(s, left) && PlanOk(s.levels, p) && NoTies(Held(p.take + p.takeNext)) && MergeFits(s, p)
    ensures Intact(Compact(s, p), left)
    ensures Compact(s, p).levels == LevelsAfter(s.levels, p, PlanOutputs(s, p))
  {
    hide LevelsOk, NamesDistinct, RisingIds, SizesOk, FilesOk, Pow10, Outputs, Held, NoTies, Storable, Partition;
    hide Splits, TablesOk, DistinctNames, FilesWith, Names, InputNames, TotalSize, FilesKnown, MergeFits, BottomIsLast;
    SizesCount(s.sizes, s.levels);
    InputsStorable(s.levels, p, s.nextID);
    OutputsOk(s, p);
    PlanInRange(s.levels, p);
    var outs := PlanOutputs(s, p);
    CompactLevels(s.levels, p, outs, s.nextID);
    CompactSizes(s.sizes, s.levels, p, outs);
    CompactFiles(s.files, s.levels, p, outs, s.nextID);
    CompactKnown(s, p, left);
  }

  lemma SizesCount(sizes: seq<int>, levels: seq<seq<Table>>)
    requires SizesOk(sizes, levels)
    ensures |sizes| == |levels|
  {
  }

  lemma InputsStorable(levels: seq<seq<Table>>, p: Plan, nextID: nat)
    requires PlanOk(levels, p) && LevelsOk(levels, nextID)
    ensures forall t :: t in p.take + p.takeNext ==> AllStorable(t.entries)
  {
    hide Splits, RisingIds, Storable, FileBytes, Pow10, Partition, BottomIsLast;
    PartitionMembers(levels[p.from], p.take, p.keep);
    PartitionMembers(levels[p.from + 1], p.takeNext, p.keepNext);
    forall t | t in p.take + p.takeNext ensures AllStorable(t.entries) {
      var k := if t in p.take then p.from else p.from + 1;
      assert TablesOk(levels[k], k, nextID) && TableOk(t, k, nextID);
    }
  }

  lemma NumbersDistinct(chunks: seq<seq<Entry>>, level: nat, id: nat)
    ensures DistinctNames(multiset(Numbered(chunks, level, id)))
    decreases |chunks|
  {
    if chunks != [] {
      var n := |chunks| - 1;
      var ts := Numbered(chunks, level, id);
      NumbersDistinct(chunks[..n], level, id);
      var init := Numbered(chunks[..n], level, id);
      assert ts == init + [ts[n]];
      assert multiset(ts) == multiset(init) + multiset{ts[n]};
      forall t: Table | t in multiset(init) ensures t.id < id + n {
        assert t in init;
      }
    }
  }

  lemma ChunksWritable(es: seq<Entry>)
    requires Sorted(es) && AllBounded(es)
    ensures forall c :: c in ChunksOf(es) ==> c != [] && AllBounded(c) && Writable(c, STEP, ENTRIES_PER_CHUNK)
  {
    hide FileBytes, ChunkSize, HasRoom, Bounded;
    ChunksJoin(es);
    ChunksFit(es);
    JoinedSorted(ChunksOf(es));
    forall c | c in ChunksOf(es) ensures Writable(c, STEP, ENTRIES_PER_CHUNK) {
      OutputFits(c);
      BoundedAreStorable(c);
      ChunkCount(c);
    }
  }

  lemma ChunkCount(es: seq<Entry>)
    requires AllBounded(es) && ChunkSize(es) <= TARGET_SIZE
    ensures |es| < TWO_63
  {
    hide ChunkSize, Data, Bounded;
    DataBlockSize(es);
  }

  /** The chunks of a sorted run are sorted, and the keys of an earlier one are below those of a
      later one. */
  lemma {:induction false} JoinedSorted(chunks: seq<seq<Entry>>)
    requires Sorted(Joined(chunks))
    ensures forall c :: c in chunks ==> Sorted(c)
    ensures forall i, j, e, f :: 0 <= i < j < |chunks| && e in chunks[i] && f in chunks[j] ==> Less(e.key, f.key)
    decreases |chunks|
  {
    if chunks != [] {
      var n := |chunks| - 1;
      var a, b := Joined(chunks[..n]), chunks[n];
      SortedParts(a, b);
      JoinedSorted(chunks[..n]);
      JoinedMembers(chunks[..n]);
      forall i, j, e, f | 0 <= i < j < |chunks| && e in chunks[i] && f in chunks[j] ensures Less(e.key, f.key) {
        if j == n {
          assert chunks[..n][i] == chunks[i] && chunks[i] in chunks[..n];
        } else {
          assert chunks[..n][i] == chunks[i] && chunks[..n][j] == chunks[j];
        }
      }
      forall c | c in chunks ensures Sorted(c) {
        assert chunks == chunks[..n] + [b];
      }
    }
  }

  lemma SortedParts(a: seq<Entry>, b: seq<Entry>)
    requires Sorted(a + b)
    ensures Sorted(a) && Sorted(b)
    ensures forall e, f :: e in a && f in b ==> Less(e.key, f.key)
  {
    var ab := a + b;
    assert forall i :: 0 <= i < |a| ==> ab[i] == a[i];
    assert forall i :: 0 <= i < |b| ==> ab[|a| + i] == b[i];
    forall e, f | e in a && f in b ensures Less(e.key, f.key) {
      var i :| 0 <= i < |a| && a[i] == e;
      var j :| 0 <= j < |b| && b[j] == f;
      assert Less(ab[i].key, ab[|a| + j].key);
    }
  }
}
