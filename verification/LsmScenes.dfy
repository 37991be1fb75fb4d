/** Runs of the exported operations followed step by step: batches that fill the memtable, and background
    passes over nine level-0 tables. */
module LsmScenes {
  import opened Bytes
  import opened Entries
  import opened Versions
  import opened Varint
  import opened Records
  import opened TableFormat
  import opened TableLookup
  import opened Sstable
  import Crc32
  import opened TableLimits
  import opened Compaction
  import opened Chunks
  import opened Paths
  import opened LsmModel
  import opened LsmVersions
  import opened LsmTables
  import opened LsmRoom
  import opened LsmSteps
  import opened LsmRuns
  import opened LsmRestarts
  import opened LsmSettle
  import Memtable

  // ----- runs -----

  /** What a user and the background loop can do: batches, deletions and passes. */
  predicate Exported(ops: seq<Op>) {
    forall op :: op in ops ==> op.Put? || op.Del? || op.Pass?
  }

  /** Every flush of the run is done, and every merge fits. */
  ghost predicate Smooth(w: World, ops: seq<Op>) {
    ops == [] ||
    var before, op := After(w, ops[..|ops| - 1]), ops[|ops| - 1];
    Smooth(w, ops[..|ops| - 1]) && Durable(before, op) && Ends(before.store, op).Done?
  }

  /** The run leads from the one world to the other, by exported operations alone, none of which fails. */
  ghost predicate Reaches(w0: World, ops: seq<Op>, w: World) {
    Exported(ops) && Smooth(w0, ops) && After(w0, ops) == w && !w.down
  }

  lemma ReachesItself(w: World)
    requires !w.down
    ensures Reaches(w, [], w)
  {
  }

  lemma ReachesOn(w0: World, ops: seq<Op>, w: World, op: Op)
    requires Reaches(w0, ops, w) && Durable(w, op) && Ends(w.store, op).Done? && (op.Put? || op.Del? || op.Pass?)
    ensures Reaches(w0, ops + [op], Next(w, op))
  {
    hide Run1, NextTrust, PlainWrites, Durable, Ends, Flushes;
    assert (ops + [op])[..|ops|] == ops;
  }

  lemma ReachesUp(w0: World, ops: seq<Op>, w: World)
    requires Reaches(w0, ops, w)
    ensures !w.down
  {
    hide Smooth, After;
  }

  lemma ReachesAfter(w0: World, ops: seq<Op>, w: World)
    requires Reaches(w0, ops, w)
    ensures After(w0, ops) == w
  {
    hide After, Smooth;
  }

  /** Such a run is legal, survives restarts, and nothing of it is lost. */
  lemma ReachesWell(w0: World, ops: seq<Op>, w: World)
    requires Reaches(w0, ops, w)
    ensures LegalRun(w0, ops) && DurableRun(w0, ops) && NoFlushFails(w0, ops) && RestartsSafely(w0, ops)
  {
    hide Smooth, After, LegalRun, DurableRun, NoFlushFails, RestartsSafely;
    SmoothIsLegal(w0, ops);
  }

  lemma {:induction false} SmoothIsLegal(w: World, ops: seq<Op>)
    requires Exported(ops) && Smooth(w, ops)
    ensures LegalRun(w, ops) && DurableRun(w, ops) && NoFlushFails(w, ops) && RestartsSafely(w, ops)
    decreases |ops|
  {
    hide After, Legal, Ends, Restartable, Flushes, Storable, FlushCounts;
    if ops != [] {
      assert ops[|ops| - 1] in ops && forall op :: op in ops[..|ops| - 1] ==> op in ops;
      SmoothIsLegal(w, ops[..|ops| - 1]);
    }
  }

  // ----- batches -----

  /** The keys of the batch rise. */
  predicate Ascending(kvs: seq<KeyValue>) {
    kvs != [] && forall i, j :: 0 <= i < j < |kvs| ==> Less(kvs[i].key, kvs[j].key)
  }

  predicate HasKey(kvs: seq<KeyValue>, k: Str) {
    exists i :: 0 <= i < |kvs| && kvs[i].key == k
  }

  /** The estimate of a batch. */
  function BatchCost(kvs: seq<KeyValue>): nat {
    if kvs == [] then 0
    else BatchCost(kvs[..|kvs| - 1]) + |kvs[|kvs| - 1].key| + |kvs[|kvs| - 1].value| + 16
  }

  lemma {:induction false} BatchCostIsSize(kvs: seq<KeyValue>, now: int)
    ensures ChunkSize(BatchEntries(kvs, now)) == BatchCost(kvs)
    decreases |kvs|
  {
    if kvs != [] {
      var n := |kvs| - 1;
      BatchCostIsSize(kvs[..n], now);
      assert BatchEntries(kvs, now)[..n] == BatchEntries(kvs[..n], now);
    }
  }

  lemma CountOfBatch(kvs: seq<KeyValue>, now: int)
    ensures |BatchEntries(kvs, now)| == |kvs|
  {
  }

  lemma AscendingSorted(kvs: seq<KeyValue>, now: int)
    requires Ascending(kvs)
    ensures Sorted(BatchEntries(kvs, now)) && DistinctKeys(Elems(BatchEntries(kvs, now)))
    ensures SortedEntries(Elems(BatchEntries(kvs, now))) == BatchEntries(kvs, now)
  {
    var es := BatchEntries(kvs, now);
    SortedDistinct(es);
    SortedUnique(SortedEntries(Elems(es)), es);
  }

  /** A sorted run applied to a memtable that has none of its keys adds exactly its entries. */
  lemma {:induction false} AppliedValues(mem: map<Str, Entry>, es: seq<Entry>)
    requires Memtable.KeyedByKey(mem) && Sorted(es) && forall e :: e in es ==> !e.tomb && e.key !in mem
    ensures Memtable.KeyedByKey(ApplyAll(mem, es)) && ApplyAll(mem, es).Values == mem.Values + Elems(es)
    ensures forall k :: k in ApplyAll(mem, es) <==> k in mem || exists e :: e in es && e.key == k
    decreases |es|
  {
    hide Sorted;
    if es == [] {
      assert Elems(es) == {};
    } else {
      var n := |es| - 1;
      var e := es[n];
      assert es == es[..n] + [e] && e in es;
      SortedInit(es);
      AppliedValues(mem, es[..n]);
      Memtable.ValuesAfterUpdate(ApplyAll(mem, es[..n]), e);
      assert e.key !in ApplyAll(mem, es[..n]);
      assert Elems(es) == Elems(es[..n]) + {e};
    }
  }

  lemma SortedInit(es: seq<Entry>)
    requires Sorted(es) && es != []
    ensures Sorted(es[..|es| - 1]) && forall e :: e in es[..|es| - 1] ==> e.key != es[|es| - 1].key
  {
    SortedDistinct(es);
  }

  lemma OneInMemory(x: Entry)
    ensures Memtable.KeyedByKey(map[x.key := x]) && map[x.key := x].Values == {x}
    ensures forall k :: k in map[x.key := x] <==> k == x.key
  {
    var m := map[x.key := x];
    assert x.key in m && m[x.key] == x;
    assert forall y :: y in m.Values ==> y == x;
  }

  /** What the store has when no write is pending and it keeps no log. */
  ghost predicate Quiet(s: Store) {
    && s.mem == map[] && s.log == None && 2 <= |s.levels| == |s.sizes|
    && Accounted(s) && RisingIds(s.levels[0]) && (forall t :: t in s.levels[0] ==> t.id < s.nextID)
    && Pow10(DIGITS) <= s.nextID
  }

  /** The store with one more level-0 table of these entries. */
  ghost predicate Stacks(s: Store, s': Store, es: seq<Entry>) {
    && 0 < |s.levels| && s'.levels == s.levels[0 := s.levels[0] + [Table(0, s.nextID, es)]]
    && s'.nextID == s.nextID + 1 && s'.threshold == s.threshold && Quiet(s')
  }

  /** A flush of the run stays within its mapping. */
  ghost predicate RunFits(es: seq<Entry>) {
    Writable(es, STEP, |es|) && HasRoom(es, STEP, |es|)
  }

  lemma RunIsDone(s: Store)
    requires Memtable.KeyedByKey(s.mem) && s.mem != map[] && RunFits(SortedMem(s.mem))
    ensures FlushEnds(s) == Done && FlushCounts(s)
  {
    hide FileBytes, HasRoom, FlushEnds, Storable, SortedMem, TableFormat.Open, Handle;
    FlushedEntries(s);
    assert FlushedTable(s).entries == SortedMem(s.mem);
    assert forall e :: e in s.mem.Values ==> e in Elems(SortedMem(s.mem));
    DoneIffFits(s);
  }

  /** A batch that fills the memtable and fits its mapping ends in a new level-0 table. */
  lemma PutStacks(s: Store, s0: Store, kvs: seq<KeyValue>, now: int)
    requires Quiet(s0) && s == s0.(mem := s.mem) && Memtable.KeyedByKey(ApplyAll(s.mem, BatchEntries(kvs, now)))
    requires kvs != [] && |s0.levels[0]| < 2 * MAX_L0_FILES && s0.nextID < TWO_63
    requires Memtable.TotalCost(ApplyAll(s.mem, BatchEntries(kvs, now)).Values) >= s.threshold
    requires ApplyAll(s.mem, BatchEntries(kvs, now)) != map[]
    requires RunFits(SortedMem(ApplyAll(s.mem, BatchEntries(kvs, now))))
    ensures Stacks(s0, PutBatch(s, kvs, now), SortedMem(ApplyAll(s.mem, BatchEntries(kvs, now))))
  {
    hide Memtable.TotalCost, SortedMem, ApplyAll, BatchEntries, CompactL0, Names, FilesWith, TotalSize, DataSize;
    hide SizesOk, RisingIds, Pow10, RunFits, FlushEnds, FlushCounts;
    var s1 := Wrote(s, BatchEntries(kvs, now));
    var t := FlushedTable(s1);
    RunIsDone(s1);
    SizesCount(s0.sizes, s0.levels);
    FlushSizes(s0.sizes, s0.levels, t);
    FlushRises(s0.levels[0], t, s0.nextID);
    assert |Flushed(s1).levels[0]| == |s0.levels[0]| + 1;
    assert PutBatch(s, kvs, now) == Flush(s1) == Flushed(s1);
  }

  /** A batch that fits its mapping is durable, whether it fills the memtable or not. */
  lemma PutIsSmooth(w: World, kvs: seq<KeyValue>)
    requires !w.down && w.store.nextID < TWO_63 && 0 < |w.store.levels| && |w.store.levels[0]| < 2 * MAX_L0_FILES
    requires kvs != [] && |kvs| < TWO_63 && AllStorable(BatchEntries(kvs, w.clock))
    requires var m := ApplyAll(w.store.mem, BatchEntries(kvs, w.clock));
      Memtable.KeyedByKey(m) && m != map[] && RunFits(SortedMem(m))
    ensures Durable(w, Put(kvs, w.clock)) && Ends(w.store, Put(kvs, w.clock)).Done?
  {
    hide Memtable.TotalCost, SortedMem, ApplyAll, FlushEnds, FlushCounts, RunFits, Storable, CompactL0, FilesWith;
    hide L0Fits, Names, DataSize;
    RunIsDone(Wrote(w.store, BatchEntries(kvs, w.clock)));
  }

  /** What an ascending batch makes of an empty memtable. */
  lemma BatchInMemory(s: Store, kvs: seq<KeyValue>, now: int)
    requires s.mem == map[] && Ascending(kvs)
    ensures var m := ApplyAll(s.mem, BatchEntries(kvs, now));
      && kvs != [] && Memtable.KeyedByKey(m) && m != map[] && SortedMem(m) == BatchEntries(kvs, now)
      && Memtable.TotalCost(m.Values) == BatchCost(kvs)
  {
    hide Memtable.TotalCost, ChunkSize, BatchCost, SortedEntries;
    var es := BatchEntries(kvs, now);
    AscendingSorted(kvs, now);
    AppliedValues(map[], es);
    var none: map<Str, Entry> := map[];
    assert none.Values == {};
    assert ApplyAll(s.mem, es).Values == Elems(es);
    BatchCostIsSize(kvs, now);
    ChunkSizeIsTotal(es);
    assert es[0] in es;
    assert es[0].key in ApplyAll(map[], es);
  }

  /** The same for an ascending batch into an empty memtable. */
  lemma BatchStacks(s: Store, kvs: seq<KeyValue>, now: int)
    requires Quiet(s) && Ascending(kvs) && s.threshold <= BatchCost(kvs) && RunFits(BatchEntries(kvs, now))
    requires |s.levels[0]| < 2 * MAX_L0_FILES && s.nextID < TWO_63
    ensures Stacks(s, PutBatch(s, kvs, now), BatchEntries(kvs, now))
  {
    hide Quiet, Memtable.TotalCost, PutBatch, BatchCost, SortedMem, Stacks, RunFits, Ascending, ApplyAll;
    QuietMem(s);
    BatchInMemory(s, kvs, now);
    PutStacks(s, s, kvs, now);
  }

  lemma QuietMem(s: Store)
    requires Quiet(s)
    ensures s.mem == map[] && s == s.(mem := map[]) && |s.levels| > 0
  {
  }

  // ----- plain maps -----

  /** What a batch does to a plain map. */
  ghost predicate PlainPut(m: map<Str, Str>, m': map<Str, Str>, kvs: seq<KeyValue>) {
    && (forall i :: 0 <= i < |kvs| ==> kvs[i].key in m' && m'[kvs[i].key] == kvs[i].value)
    && (forall k :: !HasKey(kvs, k) ==> (k in m' <==> k in m) && (k in m ==> m'[k] == m[k]))
  }

  lemma {:induction false} PlainWritesPut(m: map<Str, Str>, kvs: seq<KeyValue>, now: int)
    requires forall i, j :: 0 <= i < j < |kvs| ==> Less(kvs[i].key, kvs[j].key)
    ensures PlainPut(m, PlainWrites(m, BatchEntries(kvs, now)), kvs)
    decreases |kvs|
  {
    if kvs != [] {
      var n := |kvs| - 1;
      var init := kvs[..n];
      PlainWritesPut(m, init, now);
      var es := BatchEntries(kvs, now);
      assert es[..n] == BatchEntries(init, now);
      var before, after := PlainWrites(m, es[..n]), PlainWrites(m, es);
      assert after == before[kvs[n].key := kvs[n].value];
      forall i | 0 <= i < |kvs| ensures kvs[i].key in after && after[kvs[i].key] == kvs[i].value {
        if i < n {
          LessAsymmetric(kvs[i].key, kvs[n].key);
          assert init[i] == kvs[i];
        }
      }
      forall k | !HasKey(kvs, k) ensures (k in after <==> k in m) && (k in m ==> after[k] == m[k]) {
        assert k != kvs[n].key;
        assert forall i :: 0 <= i < n ==> init[i] == kvs[i];
        assert !HasKey(init, k);
      }
    }
  }

  // ----- one batch in a run -----

  /** The world after a filling batch. */
  ghost predicate StacksWorld(w: World, w': World, kvs: seq<KeyValue>) {
    && Stacks(w.store, w'.store, BatchEntries(kvs, w.clock))
    && w'.clock == w.clock + |kvs|
    && PlainPut(w.plain, w'.plain, kvs)
  }

  lemma PutReaches(w0: World, ops: seq<Op>, w: World, kvs: seq<KeyValue>) returns (ops': seq<Op>, w': World)
    requires Reaches(w0, ops, w) && Quiet(w.store) && Ascending(kvs) && w.store.threshold <= BatchCost(kvs)
    requires RunFits(BatchEntries(kvs, w.clock))
    requires |w.store.levels[0]| < 2 * MAX_L0_FILES && w.store.nextID < TWO_63
    ensures Reaches(w0, ops', w') && StacksWorld(w, w', kvs) && ops' == ops + [Put(kvs, w.clock)]
  {
    hide Quiet, Reaches, PutBatch, Stacks, PlainWrites, PlainPut, BatchCost, Durable, Flushes, NextTrust, SortedMem;
    hide ApplyAll, Ascending, FileBytes, HasRoom, Memtable.TotalCost, FlushEnds;
    var op := Put(kvs, w.clock);
    QuietMem(w.store);
    ReachesUp(w0, ops, w);
    BatchStacks(w.store, kvs, w.clock);
    BatchInMemory(w.store, kvs, w.clock);
    AscendingWrites(w.plain, kvs, w.clock);
    PutIsSmooth(w, kvs);
    ReachesOn(w0, ops, w, op);
    ops', w' := ops + [op], Next(w, op);
  }

  lemma AscendingWrites(m: map<Str, Str>, kvs: seq<KeyValue>, now: int)
    requires Ascending(kvs)
    ensures PlainPut(m, PlainWrites(m, BatchEntries(kvs, now)), kvs)
  {
    hide PlainWrites, PlainPut;
    PlainWritesPut(m, kvs, now);
  }

  /** A flush of the batch fits whenever between the two times it is written. */
  ghost predicate Lands(kvs: seq<KeyValue>, lo: int, hi: int) {
    forall now :: lo <= now && now + |kvs| <= hi ==> RunFits(BatchEntries(kvs, now))
  }

  /** Keys and entries of the batch are within the bounds. */
  predicate Small(kvs: seq<KeyValue>) {
    forall kv :: kv in kvs ==> |kv.key| <= MAX_KEY && |kv.key| + |kv.value| + 16 <= TARGET_SIZE
  }

  lemma SmallIsBounded(kvs: seq<KeyValue>, now: int)
    requires Small(kvs) && ClockFits(now, |kvs|)
    ensures AllBounded(BatchEntries(kvs, now))
  {
    forall e | e in BatchEntries(kvs, now) ensures Bounded(e) {
      var i :| 0 <= i < |kvs| && BatchEntries(kvs, now)[i] == e;
      assert kvs[i] in kvs;
    }
  }

  /** A batch of bounded entries, up to 48 KiB above the default threshold, fits. */
  lemma SmallLands(kvs: seq<KeyValue>, lo: int, hi: int)
    requires Small(kvs) && Ascending(kvs) && BatchCost(kvs) <= FLUSH_LIMIT && IsInt64(lo) && IsInt64(hi)
    ensures Lands(kvs, lo, hi)
  {
    hide Small, Ascending, BatchCost, BatchEntries, Bounded, Storable, Sorted, ChunkSize, FileBytes, HasRoom;
    forall now | lo <= now && now + |kvs| <= hi ensures RunFits(BatchEntries(kvs, now)) {
      var es := BatchEntries(kvs, now);
      SmallIsBounded(kvs, now);
      AscendingSorted(kvs, now);
      BatchCostIsSize(kvs, now);
      CountOfBatch(kvs, now);
      AscendsSomewhere(kvs);
      FlushOutputFits(es);
      BoundedAreStorable(es);
      ChunkedCount(es);
    }
  }

  lemma ChunkedCount(es: seq<Entry>)
    requires AllBounded(es)
    ensures 16 * |es| <= ChunkSize(es)
  {
    hide ChunkSize, Data, Bounded;
    DataBlockSize(es);
  }

  lemma AscendsSomewhere(kvs: seq<KeyValue>)
    requires Ascending(kvs)
    ensures kvs != []
  {
  }

  /** More tables of bounded entries in level 0. */
  lemma StockedMore(s: Store, s': Store, ts: seq<Table>)
    requires Stocked(s) && 0 < |s.levels| && s'.levels == s.levels[0 := s.levels[0] + ts]
    requires forall t :: t in ts ==> AllBounded(t.entries)
    ensures Stocked(s')
  {
    hide AllBounded;
  }

  lemma LayersBounded(ts: seq<Table>, kvs: seq<KeyValue>, clock: int, id: nat)
    requires Layers(ts, kvs, clock, id) && Small(kvs) && IsInt64(clock) && IsInt64(Tick(clock, |kvs|, |ts|))
    ensures forall t :: t in ts ==> AllBounded(t.entries)
  {
    hide Small, AllBounded, Tick;
    forall t | t in ts ensures AllBounded(t.entries) {
      var i :| 0 <= i < |ts| && ts[i] == t;
      TickWithin(clock, |kvs|, i, |ts|);
      SmallIsBounded(kvs, Tick(clock, |kvs|, i));
    }
  }

  lemma TickWithin(clock: int, m: nat, i: nat, n: nat)
    requires i < n
    ensures clock <= Tick(clock, m, i) && Tick(clock, m, i) + m <= Tick(clock, m, n)
    decreases n
  {
    if i + 1 < n {
      TickWithin(clock, m, i, n - 1);
    } else if i > 0 {
      TickWithin(clock, m, i - 1, i);
    }
  }

  /** The clock after `i` batches of `m` entries. */
  function Tick(clock: int, m: nat, i: nat): int {
    if i == 0 then clock else Tick(clock, m, i - 1) + m
  }

  /** Level-0 tables of one batch written again and again. */
  ghost predicate Layers(ts: seq<Table>, kvs: seq<KeyValue>, clock: int, id: nat) {
    forall i :: 0 <= i < |ts| ==> ts[i] == Table(0, id + i, BatchEntries(kvs, Tick(clock, |kvs|, i)))
  }

  /** A batch written `n` times. */
  lemma {:induction false} PutsReach(w0: World, ops: seq<Op>, w: World, kvs: seq<KeyValue>, n: nat)
    returns (ops': seq<Op>, w': World, ts: seq<Table>)
    requires Reaches(w0, ops, w) && Quiet(w.store) && Ascending(kvs) && w.store.threshold <= BatchCost(kvs)
    requires |w.store.levels[0]| + n <= 2 * MAX_L0_FILES && w.store.nextID + n <= TWO_63
    requires Lands(kvs, w.clock, Tick(w.clock, |kvs|, n))
    ensures Reaches(w0, ops', w') && Quiet(w'.store)
    ensures |ts| == n && Layers(ts, kvs, w.clock, w.store.nextID)
    ensures w'.store.levels == w.store.levels[0 := w.store.levels[0] + ts]
    ensures w'.store.nextID == w.store.nextID + n && w'.store.threshold == w.store.threshold
    ensures w'.clock == Tick(w.clock, |kvs|, n)
    ensures if n == 0 then w'.plain == w.plain else PlainPut(w.plain, w'.plain, kvs)
    ensures |ops'| == |ops| + n && ops <= ops'
    decreases n
  {
    hide Reaches, PlainPut, BatchCost, Ascending, RisingIds, Accounted, Pow10, RunFits, BatchEntries;
    if n == 0 {
      ops', w', ts := ops, w, [];
      assert w.store.levels[0] + [] == w.store.levels[0];
    } else {
      TickWithin(w.clock, |kvs|, n - 1, n);
      var ops1, w1, ts1 := PutsReach(w0, ops, w, kvs, n - 1);
      ops', w' := PutReaches(w0, ops1, w1, kvs);
      ts := ts1 + [Table(0, w1.store.nextID, BatchEntries(kvs, w1.clock))];
      assert w.store.levels[0] + ts1 + [ts[n - 1]] == w.store.levels[0] + ts;
      if n > 1 {
        PlainPutAgain(w.plain, w1.plain, w'.plain, kvs);
      }
    }
  }

  /** The same for a batch of entries within the bounds, which keeps every table within them. */
  lemma StockedPutsReach(w0: World, ops: seq<Op>, w: World, kvs: seq<KeyValue>, n: nat)
    returns (ops': seq<Op>, w': World, ts: seq<Table>)
    requires Reaches(w0, ops, w) && Quiet(w.store) && Ascending(kvs) && w.store.threshold <= BatchCost(kvs)
    requires |w.store.levels[0]| + n <= 2 * MAX_L0_FILES && w.store.nextID + n <= TWO_63
    requires Small(kvs) && IsInt64(w.clock) && IsInt64(Tick(w.clock, |kvs|, n)) && Stocked(w.store)
    requires Lands(kvs, w.clock, Tick(w.clock, |kvs|, n))
    ensures Reaches(w0, ops', w') && Quiet(w'.store) && Stocked(w'.store)
    ensures |ts| == n && Layers(ts, kvs, w.clock, w.store.nextID)
    ensures w'.store.levels == w.store.levels[0 := w.store.levels[0] + ts]
    ensures w'.store.nextID == w.store.nextID + n && w'.store.threshold == w.store.threshold
    ensures w'.clock == Tick(w.clock, |kvs|, n)
    ensures if n == 0 then w'.plain == w.plain else PlainPut(w.plain, w'.plain, kvs)
  {
    hide Reaches, PlainPut, BatchCost, Ascending, RisingIds, Accounted, Pow10, Small, Layers, Stocked, Lands, Tick;
    ops', w', ts := PutsReach(w0, ops, w, kvs, n);
    LayersBounded(ts, kvs, w.clock, w.store.nextID);
    StockedMore(w.store, w'.store, ts);
  }

  lemma PlainPutAgain(m: map<Str, Str>, m1: map<Str, Str>, m2: map<Str, Str>, kvs: seq<KeyValue>)
    requires PlainPut(m, m1, kvs) && PlainPut(m1, m2, kvs)
    ensures PlainPut(m, m2, kvs)
  {
    hide HasKey;
  }

  lemma StartQuiet(numLevels: nat, threshold: nat, id: nat, clock: int)
    requires 2 <= numLevels && Pow10(DIGITS) <= id
    ensures Quiet(Start(numLevels, threshold, false, id, clock).store)
  {
    hide Pow10;
    NoTablesNoSize();
  }

  lemma StartFacts(numLevels: nat, threshold: nat, id: nat, clock: int)
    requires 2 <= numLevels
    ensures var w := Start(numLevels, threshold, false, id, clock);
      && w.clock == clock && w.plain == map[] && w.store.threshold == threshold && w.store.nextID == id && !w.down
      && Stocked(w.store)
      && |w.store.levels| == numLevels && forall i :: 0 <= i < numLevels ==> w.store.levels[i] == []
  {
  }

  // ----- passes -----

  /** The plan of a level-0 compaction over nine tables: the four oldest. */
  ghost function FourPlan(s: Store): Plan
    requires 2 <= |s.levels| && |s.levels[0]| == 9
  {
    var l0 := s.levels[0];
    var lo, hi := Smallest(l0[..4]), Greatest(l0[..4]);
    Plan(0, l0[..4], l0[4..], Overlapping(s.levels[1], lo, hi), NotOverlapping(s.levels[1], lo, hi))
  }

  lemma NineTakesFour(s: Store)
    requires Quiet(s) && |s.levels[0]| == 9
    ensures CompactL0(s) == Compact(s, FourPlan(s))
  {
    hide Compact, Smallest, Greatest, Overlapping, NotOverlapping, Accounted, RisingIds, Pow10, ByPath;
    ByPathKeeps(s.levels[0]);
  }

  /** A level-0 compaction over nine tables leaves the store quiet. */
  lemma FourKeepsQuiet(s: Store)
    requires Quiet(s) && |s.levels[0]| == 9
    ensures Quiet(CompactL0(s)) && |CompactL0(s).levels| == |s.levels| && CompactL0(s).threshold == s.threshold
    ensures var p := FourPlan(s); var outs := Outputs(p.take + p.takeNext, 1, s.nextID);
      && CompactL0(s).levels == s.levels[0 := p.keep][1 := p.keepNext + outs]
      && CompactL0(s).nextID == s.nextID + |outs|
  {
    hide Smallest, Greatest, Overlapping, NotOverlapping, RisingIds, Pow10, Outputs, SizesOk, Partition, TotalSize;
    hide Names, FilesWith, InputNames, CompactL0;
    NineTakesFour(s);
    var p, l0 := FourPlan(s), s.levels[0];
    SplitPartition(l0, 4);
    OverlapPartition(s.levels[1], Smallest(p.take), Greatest(p.take));
    var outs := Outputs(p.take + p.takeNext, 1, s.nextID);
    SizesAfter(s.sizes, s.levels, p, outs);
    RisingSlice(l0, 4, 9);
    assert l0[4..9] == l0[4..];
  }

  /** When every level is within its limit a pass does nothing more. */
  lemma {:induction false} LoopIdle(s: Store, level: nat)
    requires |s.sizes| == |s.levels| && forall i :: level <= i < |s.levels| - 1 ==> Within(s, i)
    ensures LoopLevels(s, level) == s
    decreases |s.levels| - level
  {
    hide CompactLevel, LevelSize;
    if level + 1 < |s.levels| {
      assert Within(s, level);
      LoopIdle(s, level + 1);
    }
  }

  lemma EmptyIsWithin(s: Store, i: nat)
    requires Accounted(s) && i < |s.levels| && s.levels[i] == []
    ensures Within(s, i) && s.sizes[i] == 0
  {
    NoTablesNoSize();
  }

  // ----- passes of a run -----

  /** No table of the list overlaps the hull of the others' reported ranges. */
  predicate NoneOverlap(ts: seq<Table>, taken: seq<Table>)
    requires taken != []
  {
    forall t :: t in ts ==> Apart(t, Smallest(taken), Greatest(taken))
  }

  lemma NothingOverlapped(taken: seq<Table>)
    requires taken != []
    ensures NoneOverlap([], taken)
  {
    hide Smallest, Greatest;
  }

  lemma {:induction false} ApartStay(ts: seq<Table>, minK: Str, maxK: Str)
    requires forall t :: t in ts ==> Apart(t, minK, maxK)
    ensures Overlapping(ts, minK, maxK) == [] && NotOverlapping(ts, minK, maxK) == ts
    decreases |ts|
  {
    hide Apart;
    if ts != [] {
      var n := |ts| - 1;
      assert ts == ts[..n] + [ts[n]];
      ApartStay(ts[..n], minK, maxK);
    }
  }

  /** A pass over nine level-0 tables whose four oldest overlap nothing in level 1. */
  ghost predicate TakesFour(s: Store, outs: seq<Table>) {
    && Quiet(s) && |s.levels[0]| == 9 && NoneOverlap(s.levels[1], s.levels[0][..4])
    && Outputs(s.levels[0][..4], 1, s.nextID) == outs
  }

  /** What it makes of the store. */
  ghost predicate TookFour(s: Store, s': Store, outs: seq<Table>) {
    && 2 <= |s.levels| && |s.levels[0]| == 9 && Quiet(s')
    && s'.levels == s.levels[0 := s.levels[0][4..]][1 := s.levels[1] + outs]
    && s'.nextID == s.nextID + |outs| && s'.threshold == s.threshold
  }

  lemma FourMerge(s: Store, outs: seq<Table>)
    requires TakesFour(s, outs)
    ensures TookFour(s, CompactL0(s), outs)
  {
    hide Smallest, Greatest, Overlapping, NotOverlapping, RisingIds, Pow10, Outputs, Accounted, CompactL0, Apart;
    FourKeepsQuiet(s);
    var take := s.levels[0][..4];
    ApartStay(s.levels[1], Smallest(take), Greatest(take));
    assert take + [] == take;
  }

  /** Level 1 stays within its limit, and the levels below it are empty. */
  ghost predicate Shallow(s: Store, outs: seq<Table>) {
    && 2 <= |s.levels| && (forall i :: 2 <= i < |s.levels| ==> s.levels[i] == [])
    && TotalSize(s.levels[1]) + TotalSize(outs) <= LevelSize(BASE_LEVEL_SIZE, 1)
  }

  lemma ShallowIsIdle(s: Store, s1: Store, outs: seq<Table>)
    requires TookFour(s, s1, outs) && Shallow(s, outs)
    ensures LoopLevels(s1, 1) == s1
  {
    hide RisingIds, Pow10, TotalSize, LevelSize, LoopLevels;
    TotalSizeAppend(s.levels[1], outs);
    forall i | 1 <= i < |s1.levels| - 1 ensures Within(s1, i) {
      if i > 1 {
        EmptyIsWithin(s1, i);
      }
    }
    LoopIdle(s1, 1);
  }

  lemma PassFour(s: Store, outs: seq<Table>)
    requires TakesFour(s, outs) && Shallow(s, outs)
    ensures TookFour(s, LoopPass(s), outs)
  {
    hide Shallow, CompactL0, LoopLevels, Quiet, Outputs, NoneOverlap;
    FourMerge(s, outs);
    ShallowIsIdle(s, CompactL0(s), outs);
  }

  lemma PassIsSmooth(w: World)
    requires !w.down && w.store.nextID < TWO_63 && Stocked(w.store)
    ensures Durable(w, Pass) && Ends(w.store, Pass).Done? && Stocked(LoopPass(w.store))
    ensures Next(w, Pass).clock == w.clock && Next(w, Pass).plain == w.plain
  {
    hide Stocked, LoopPass, PassFits, Wrote, Memtable.TotalCost, NextTrust;
    StockedPass(w.store);
    NoneWritten(w.store, Pass);
  }

  lemma PassReaches(w0: World, ops: seq<Op>, w: World, outs: seq<Table>) returns (ops': seq<Op>, w': World)
    requires Reaches(w0, ops, w) && TakesFour(w.store, outs) && Shallow(w.store, outs) && w.store.nextID < TWO_63
    requires Stocked(w.store)
    ensures Reaches(w0, ops', w') && ops' == ops + [Pass] && w' == Next(w, Pass) && Stocked(w'.store)
    ensures TookFour(w.store, w'.store, outs) && w'.clock == w.clock && w'.plain == w.plain
  {
    hide Reaches, TakesFour, Shallow, TookFour, LoopPass, Stocked, Durable, Ends, NextTrust, Flushes, PlainWrites;
    ReachesUp(w0, ops, w);
    PassFour(w.store, outs);
    PassIsSmooth(w);
    ReachesOn(w0, ops, w, Pass);
    ops', w' := ops + [Pass], Next(w, Pass);
  }

  // ----- merging layers -----

  lemma TickRises(clock: int, m: nat, i: nat, j: nat)
    requires i < j && m > 0
    ensures Tick(clock, m, i) + m <= Tick(clock, m, j)
    decreases j
  {
    if i + 1 < j {
      TickRises(clock, m, i, j - 1);
    }
  }

  /** A sorted run that has the newest version of every key, no deletion and no empty key, is what
      survives. */
  lemma NewestSurvive(v: set<Entry>, es: seq<Entry>, bottom: bool)
    requires NoTies(v) && Elems(es) <= v && DistinctKeys(Elems(es))
    requires forall e :: e in es ==> e.key != [] && !e.tomb
    requires forall f :: f in v ==> exists e :: e in es && e.key == f.key && (f == e || f.ts < e.ts)
    ensures Survivors(v, bottom) == Elems(es)
  {
    forall e | e in es ensures e in Survivors(v, bottom) {
      assert e in Elems(es);
      forall f | f in v && f.key == e.key ensures f.ts <= e.ts {
        var g :| g in es && g.key == f.key && (f == g || f.ts < g.ts);
        assert g in Elems(es);
      }
    }
    forall f | f in Survivors(v, bottom) ensures f in es {
      var e :| e in es && e.key == f.key && (f == e || f.ts < e.ts);
      assert e in Elems(es) && e in v;
    }
  }

  lemma LayerEntry(ts: seq<Table>, kvs: seq<KeyValue>, clock: int, id: nat, f: Entry) returns (i: nat, a: nat)
    requires Layers(ts, kvs, clock, id) && f in Held(ts)
    ensures i < |ts| && a < |kvs|
    ensures f == Entry(kvs[a].key, kvs[a].value, Tick(clock, |kvs|, i) + a, false)
  {
    var t :| t in ts && f in t.entries;
    i :| i < |ts| && ts[i] == t;
    a :| a < |kvs| && t.entries[a] == f;
  }

  lemma LayersHaveNoTies(ts: seq<Table>, kvs: seq<KeyValue>, clock: int, id: nat)
    requires Layers(ts, kvs, clock, id) && Ascending(kvs)
    ensures NoTies(Held(ts))
  {
    hide Held, Layers, Tick;
    forall e, f | e in Held(ts) && f in Held(ts) && e.key == f.key && e.ts == f.ts ensures e == f {
      var i, a := LayerEntry(ts, kvs, clock, id, e);
      var j, b := LayerEntry(ts, kvs, clock, id, f);
      SameKeySamePlace(kvs, a, b);
    }
  }

  lemma SameKeySamePlace(kvs: seq<KeyValue>, a: nat, b: nat)
    requires Ascending(kvs) && a < |kvs| && b < |kvs| && kvs[a].key == kvs[b].key
    ensures a == b
  {
    LessIrreflexive(kvs[a].key);
  }

  lemma TickOrder(clock: int, m: nat, i: nat, j: nat)
    requires i <= j && m > 0
    ensures i == j || Tick(clock, m, i) < Tick(clock, m, j)
  {
    hide Tick;
    if i < j {
      TickRises(clock, m, i, j);
    }
  }

  /** Of a batch written again and again the last writing survives. */
  lemma LastLayerSurvives(ts: seq<Table>, kvs: seq<KeyValue>, clock: int, id: nat, bottom: bool)
    requires Layers(ts, kvs, clock, id) && Ascending(kvs) && ts != [] && kvs[0].key != []
    ensures NoTies(Held(ts))
    ensures Survivors(Held(ts), bottom) == Elems(BatchEntries(kvs, Tick(clock, |kvs|, |ts| - 1)))
  {
    hide Held, Layers, Tick, Survivors, Ascending, BatchEntries, NoTies;
    LayersHaveNoTies(ts, kvs, clock, id);
    var last := |ts| - 1;
    var es := BatchEntries(kvs, Tick(clock, |kvs|, last));
    NoEmptyKeys(kvs);
    LayerHeld(ts, kvs, clock, id, last);
    AscendingSorted(kvs, Tick(clock, |kvs|, last));
    BatchWrites(kvs, Tick(clock, |kvs|, last));
    forall f | f in Held(ts) ensures exists e :: e in es && e.key == f.key && (f == e || f.ts < e.ts) {
      var e := LastOfLayers(ts, kvs, clock, id, f);
    }
    NewestSurvive(Held(ts), es, bottom);
  }

  lemma BatchWrites(kvs: seq<KeyValue>, now: int)
    requires forall i :: 0 <= i < |kvs| ==> kvs[i].key != []
    ensures forall e :: e in BatchEntries(kvs, now) ==> e.key != [] && !e.tomb
  {
  }

  /** The last writing of what an earlier one wrote. */
  lemma LastOfLayers(ts: seq<Table>, kvs: seq<KeyValue>, clock: int, id: nat, f: Entry) returns (e: Entry)
    requires Layers(ts, kvs, clock, id) && f in Held(ts)
    ensures ts != [] && e in BatchEntries(kvs, Tick(clock, |kvs|, |ts| - 1))
    ensures e.key == f.key && (f == e || f.ts < e.ts)
  {
    hide Held, Layers, Tick;
    var i, a := LayerEntry(ts, kvs, clock, id, f);
    TickOrder(clock, |kvs|, i, |ts| - 1);
    e := BatchEntries(kvs, Tick(clock, |kvs|, |ts| - 1))[a];
  }

  lemma NoEmptyKeys(kvs: seq<KeyValue>)
    requires Ascending(kvs) && kvs[0].key != []
    ensures |kvs| > 0 && forall i :: 0 <= i < |kvs| ==> kvs[i].key != []
  {
  }

  lemma LayerHeld(ts: seq<Table>, kvs: seq<KeyValue>, clock: int, id: nat, i: nat)
    requires Layers(ts, kvs, clock, id) && i < |ts|
    ensures Elems(BatchEntries(kvs, Tick(clock, |kvs|, i))) <= Held(ts)
  {
    hide Tick;
    assert ts[i] in ts;
  }

  lemma OutputsAre(ts: seq<Table>, es: seq<Entry>, level: nat, id: nat)
    requires NoTies(Held(ts)) && Survivors(Held(ts), level >= BOTTOM_LEVEL) == Elems(es) && Sorted(es)
    ensures Outputs(ts, level, id) == Numbered(ChunksOf(es), level, id)
  {
    hide Held, Survivors, ChunksOf, Sorted;
    SortedUnique(SortedEntries(Elems(es)), es);
  }

  /** A run within the target size is one chunk. */
  lemma {:induction false} OneChunk(es: seq<Entry>)
    requires es != [] && ChunkSize(es) <= TARGET_SIZE
    ensures SplitRun(es) == Split([], es) && ChunksOf(es) == [es]
    decreases |es|
  {
    hide Cost;
    var n := |es| - 1;
    assert es == es[..n] + [es[n]];
    if n == 0 {
      assert es[..0] == [];
      assert SplitRun(es[..0]) == Split([], []);
    } else {
      OneChunk(es[..n]);
    }
  }

  /** Merging a small batch written again and again gives one table with the last writing. */
  lemma LayersMerge(ts: seq<Table>, kvs: seq<KeyValue>, clock: int, id: nat, level: nat, newID: nat)
    requires Layers(ts, kvs, clock, id) && Ascending(kvs) && ts != [] && kvs[0].key != []
    requires BatchCost(kvs) <= TARGET_SIZE
    ensures Outputs(ts, level, newID) == [Table(level, newID, BatchEntries(kvs, Tick(clock, |kvs|, |ts| - 1)))]
  {
    hide Held, Layers, Survivors, Ascending, ChunksOf, Outputs, ChunkSize, BatchCost, BatchEntries, Sorted, Tick;
    LastLayerSurvives(ts, kvs, clock, id, level >= BOTTOM_LEVEL);
    var t := Tick(clock, |kvs|, |ts| - 1);
    var es := BatchEntries(kvs, t);
    AscendingSorted(kvs, t);
    NoEmptyKeys(kvs);
    OutputsAre(ts, es, level, newID);
    BatchCostIsSize(kvs, t);
    CountOfBatch(kvs, t);
    OneChunk(es);
  }

  // ----- sizes of runs -----

  /** The bytes of the records of a set of versions. */
  ghost function RecordTotal(v: set<Entry>): nat
    decreases |v|
  {
    if v == {} then 0 else
      var e :| e in v;
      assert |v - {e}| < |v|;
      |Record(e)| + RecordTotal(v - {e})
  }

  lemma {:induction false} RecordTotalWithout(v: set<Entry>, e: Entry)
    requires e in v
    ensures RecordTotal(v) == |Record(e)| + RecordTotal(v - {e})
    decreases |v|
  {
    hide Record;
    var f :| f in v && RecordTotal(v) == |Record(f)| + RecordTotal(v - {f});
    if f != e {
      assert |v - {f}| < |v| && |v - {e}| < |v|;
      RecordTotalWithout(v - {f}, e);
      RecordTotalWithout(v - {e}, f);
      assert v - {f} - {e} == v - {e} - {f};
    }
  }

  lemma {:induction false} DataIsTotal(es: seq<Entry>)
    requires Sorted(es)
    ensures |Data(es)| == RecordTotal(Elems(es))
    decreases |es|
  {
    hide Record;
    if es == [] {
      assert Elems(es) == {};
    } else {
      var n := |es| - 1;
      assert es == es[..n] + [es[n]];
      DataIsTotal(es[..n]);
      DataAppend(es[..n], [es[n]]);
      DataOne(es[n]);
      InitElems(es);
      RecordTotalWithout(Elems(es), es[n]);
    }
  }

  /** One more version makes the data block larger. */
  lemma MoreIsLarger(es: seq<Entry>, more: seq<Entry>, x: Entry)
    requires Sorted(es) && Sorted(more) && x !in es && Elems(more) == Elems(es) + {x}
    ensures |Data(more)| >= |Data(es)|
  {
    hide Sorted, Data, Record;
    DataIsTotal(es);
    DataIsTotal(more);
    RecordTotalWithout(Elems(more), x);
    assert Elems(more) - {x} == Elems(es);
  }

  lemma RecordSizes(e: Entry)
    requires IsInt64(e.ts) && |e.key| < TWO_63 && |e.value| < TWO_63
    ensures |e.key| + |e.value| + 8 <= |Record(e)| <= |e.key| + |e.value| + 35
  {
    hide PutUvarint, Crc32.ChecksumNumber;
    UvarintRoundTrip(|e.key|, []);
    UvarintRoundTrip(|e.value|, []);
    VarintRoundTrip(e.ts, []);
    UvarintSome(|e.key|);
    UvarintSome(|e.value|);
  }

  lemma UvarintSome(v: nat)
    ensures |PutUvarint(v)| >= 1
  {
  }

  /** Keys and values of the batch have lengths that fit an int. */
  predicate Sized(kvs: seq<KeyValue>) {
    forall kv :: kv in kvs ==> |kv.key| < TWO_63 && |kv.value| < TWO_63
  }

  predicate ClockFits(now: int, n: nat) {
    IsInt64(now) && IsInt64(now + n)
  }

  /** The data block of a batch lies within a few bytes a record of the estimate. */
  lemma {:induction false} BatchDataSize(kvs: seq<KeyValue>, now: int)
    requires Sized(kvs) && ClockFits(now, |kvs|)
    ensures BatchCost(kvs) <= |Data(BatchEntries(kvs, now))| + 8 * |kvs|
    ensures |Data(BatchEntries(kvs, now))| <= BatchCost(kvs) + 19 * |kvs|
    decreases |kvs|
  {
    hide Record;
    var es := BatchEntries(kvs, now);
    if kvs == [] {
      assert es == [];
    } else {
      var n := |kvs| - 1;
      assert kvs[n] in kvs;
      BatchDataSize(kvs[..n], now);
      assert es == BatchEntries(kvs[..n], now) + [es[n]];
      DataAppend(es[..n], [es[n]]);
      DataOne(es[n]);
      RecordSizes(es[n]);
    }
  }

  lemma {:induction false} NumberedSize(chunks: seq<seq<Entry>>, level: nat, id: nat)
    ensures TotalSize(Numbered(chunks, level, id)) == |Data(Joined(chunks))|
    decreases |chunks|
  {
    hide Data;
    if chunks == [] {
      NoData();
    } else {
      var n := |chunks| - 1;
      var ts := Numbered(chunks, level, id);
      assert ts[..n] == Numbered(chunks[..n], level, id);
      NumberedSize(chunks[..n], level, id);
      DataAppend(Joined(chunks[..n]), chunks[n]);
    }
  }

  lemma NoData()
    ensures Data([]) == []
  {
  }

  lemma {:induction false} ChunkCountBound(chunks: seq<seq<Entry>>)
    requires forall c :: c in chunks ==> c != []
    ensures |chunks| <= |Joined(chunks)|
    decreases |chunks|
  {
    if chunks != [] {
      var n := |chunks| - 1;
      assert chunks[n] in chunks && forall c :: c in chunks[..n] ==> c in chunks;
      ChunkCountBound(chunks[..n]);
    }
  }

  // ----- sinking -----

  /** The level holds exactly the run. */
  ghost predicate Bears(s: Store, l: nat, es: seq<Entry>) {
    && l < |s.levels| && s.levels[l] != [] && Held(s.levels[l]) == Elems(es)
    && TotalSize(s.levels[l]) == |Data(es)|
  }

  /** Only the level sizes, the files and the two levels changed. */
  ghost predicate Moved(s: Store, s': Store, l: nat, m: nat) {
    && l < |s.levels| && m < |s.levels| == |s'.levels| && l != m
    && s'.levels == s.levels[l := []][m := s'.levels[m]]
    && s'.mem == s.mem && s'.log == s.log && s'.threshold == s.threshold && s.nextID <= s'.nextID
    && Accounted(s')
  }

  lemma ChunksBear(es: seq<Entry>, level: nat, id: nat)
    requires es != []
    ensures var ts := Numbered(ChunksOf(es), level, id);
      ts != [] && Held(ts) == Elems(es) && TotalSize(ts) == |Data(es)| && |ts| <= |es|
  {
    hide Held, ChunksOf, Data, TotalSize;
    var chunks := ChunksOf(es);
    ChunksJoin(es);
    NumberedHold(chunks, level, id);
    JoinedMembers(chunks);
    NumberedSize(chunks, level, id);
    ChunkCountBound(chunks);
    assert chunks == [] ==> Joined(chunks) == [];
  }

  lemma DistinctNoTies(v: set<Entry>)
    requires DistinctKeys(v)
    ensures NoTies(v)
  {
  }

  /** One step of the cascade: the whole level moves into the empty one below it. */
  lemma MoveOne(s: Store, l: nat, es: seq<Entry>, es': seq<Entry>)
    requires Accounted(s) && 1 <= l && l + 1 < |s.levels| && Bears(s, l, es) && s.levels[l + 1] == []
    requires Sorted(es) && Sorted(es') && es' != [] && Elems(es') == Survivors(Elems(es), l + 1 >= BOTTOM_LEVEL)
    ensures var s1 := Compact(s, PlanLevel(s, l));
      Moved(s, s1, l, l + 1) && Bears(s1, l + 1, es') && s1.nextID <= s.nextID + |es'|
  {
    hide Held, Survivors, ChunksOf, Data, Outputs, Names, FilesWith, InputNames, Sorted, SizesOk, TotalSize;
    var p := PlanLevel(s, l);
    assert p.take + p.takeNext == s.levels[l];
    SortedDistinct(es);
    DistinctNoTies(Elems(es));
    OutputsAre(s.levels[l], es', l + 1, s.nextID);
    ChunksBear(es', l + 1, s.nextID);
    MoveDownAccounts(s, l);
    assert [] + PlanOutputs(s, p) == PlanOutputs(s, p);
    SizesCount(s.sizes, s.levels);
    var s1 := Compact(s, p);
    assert s1.levels == s.levels[l := []][l + 1 := PlanOutputs(s, p)];
  }

  lemma LevelSizeGrows(i: nat, j: nat)
    requires i <= j
    ensures LevelSize(BASE_LEVEL_SIZE, i) <= LevelSize(BASE_LEVEL_SIZE, j)
    decreases j
  {
    if i < j {
      LevelSizeGrows(i, j - 1);
    }
  }

  ghost predicate NoTombs(es: seq<Entry>) {
    forall e :: e in es ==> !e.tomb
  }

  lemma AllSurvive(es: seq<Entry>, bottom: bool)
    requires Sorted(es) && (forall e :: e in es ==> e.key != []) && (bottom ==> NoTombs(es))
    ensures Survivors(Elems(es), bottom) == Elems(es)
  {
    SortedDistinct(es);
  }

  /** The run is too large for the levels above `m`, and what is left of it in level `m` is not for that
      level. */
  ghost predicate SinksTo(s: Store, l: nat, m: nat, es: seq<Entry>, es': seq<Entry>) {
    && 1 <= l < m < |s.levels| && Bears(s, l, es)
    && (forall j :: l < j <= m ==> s.levels[j] == [])
    && Sorted(es) && (forall e :: e in es ==> e.key != []) && (m > BOTTOM_LEVEL ==> NoTombs(es))
    && Sorted(es') && es' != [] && Elems(es') == Survivors(Elems(es), m >= BOTTOM_LEVEL)
    && |Data(es)| > LevelSize(BASE_LEVEL_SIZE, m - 1)
    && (m + 1 == |s.levels| || |Data(es')| <= LevelSize(BASE_LEVEL_SIZE, m))
  }

  /** The last level it sinks to. */
  lemma SinkEnds(s: Store, l: nat, es: seq<Entry>, es': seq<Entry>)
    requires Accounted(s) && SinksTo(s, l, l + 1, es, es')
    ensures var s' := CompactLevel(s, l);
      Moved(s, s', l, l + 1) && Bears(s', l + 1, es') && s'.nextID <= s.nextID + |es|
  {
    hide Held, Survivors, Data, Compact, Sorted, LevelSize, SizesOk, TotalSize, Bears, NoTombs;
    BearsSomething(s, l, es);
    SizeBorne(s, l, es);
    FewerSurvive(es, es', l + 1 >= BOTTOM_LEVEL);
    MoveOne(s, l, es, es');
    SizeBorne(Compact(s, PlanLevel(s, l)), l + 1, es');
  }

  /** A level on the way. */
  lemma SinkOneLevel(s: Store, l: nat, m: nat, es: seq<Entry>, es': seq<Entry>)
    requires Accounted(s) && SinksTo(s, l, m, es, es') && l + 1 < m
    ensures var s1 := Compact(s, PlanLevel(s, l));
      && Moved(s, s1, l, l + 1) && Accounted(s1) && SinksTo(s1, l + 1, m, es, es')
      && s1.nextID <= s.nextID + |es| && CompactLevel(s, l) == CompactLevel(s1, l + 1)
  {
    hide Held, Survivors, Data, Compact, Sorted, LevelSize, SizesOk, TotalSize, Bears;
    BearsSomething(s, l, es);
    SizeBorne(s, l, es);
    AllSurvive(es, l + 1 >= BOTTOM_LEVEL);
    NotEmptyRun(es);
    MoveOne(s, l, es, es);
    SizeBorne(Compact(s, PlanLevel(s, l)), l + 1, es);
    LevelSizeGrows(l + 1, m - 1);
  }

  lemma NotEmptyRun(es: seq<Entry>)
    requires |Data(es)| > 0
    ensures es != []
  {
    hide Record;
  }

  /** A run too large for the levels above `m` sinks to level `m` and rests there. */
  lemma {:induction false} Sink(s: Store, l: nat, m: nat, es: seq<Entry>, es': seq<Entry>)
    requires Accounted(s) && SinksTo(s, l, m, es, es')
    ensures var s' := CompactLevel(s, l);
      Moved(s, s', l, m) && Bears(s', m, es') && s'.nextID <= s.nextID + Times(m - l, |es|)
    decreases m - l
  {
    hide Held, Data, Compact, SizesOk, Bears, CompactLevel, SinksTo, Moved;
    SinkRange(s, l, m, es, es');
    if l + 1 == m {
      SinkEnds(s, l, es, es');
      assert Times(1, |es|) == |es| + Times(0, |es|);
    } else {
      SinkOneLevel(s, l, m, es, es');
      var s1 := Compact(s, PlanLevel(s, l));
      Sink(s1, l + 1, m, es, es');
      MovedTwice(s, s1, CompactLevel(s1, l + 1), l, m);
    }
  }

  function Times(n: nat, m: nat): nat {
    if n == 0 then 0 else m + Times(n - 1, m)
  }

  lemma SinkRange(s: Store, l: nat, m: nat, es: seq<Entry>, es': seq<Entry>)
    requires SinksTo(s, l, m, es, es')
    ensures 1 <= l < m < |s.levels| && forall j :: l < j <= m ==> s.levels[j] == []
  {
    hide Bears, Sorted, Survivors, Data, LevelSize, NoTombs;
  }

  lemma BearsSomething(s: Store, l: nat, es: seq<Entry>)
    requires Bears(s, l, es)
    ensures l < |s.levels| && s.levels[l] != []
  {
    hide Held, TotalSize, Data;
  }

  lemma SizeBorne(s: Store, l: nat, es: seq<Entry>)
    requires Accounted(s) && Bears(s, l, es)
    ensures l < |s.sizes| == |s.levels| && s.sizes[l] == |Data(es)|
  {
    hide Held, TotalSize, Data;
  }

  lemma MovedTwice(s: Store, s1: Store, s2: Store, l: nat, m: nat)
    requires l + 1 < m < |s.levels| && s.levels[l + 1] == []
    requires Moved(s, s1, l, l + 1) && Moved(s1, s2, l + 1, m)
    ensures Moved(s, s2, l, m)
  {
    hide Accounted;
  }

  lemma FewerSurvive(es: seq<Entry>, es': seq<Entry>, bottom: bool)
    requires Sorted(es) && Sorted(es') && Elems(es') == Survivors(Elems(es), bottom)
    ensures |es'| <= |es|
  {
    hide Survivors;
    SortedCount(es);
    SortedCount(es');
    CountSubset(Elems(es'), Elems(es));
  }

  lemma CountSubset(a: set<Entry>, b: set<Entry>)
    requires a <= b
    ensures |a| <= |b|
  {
    assert b == a + (b - a);
  }

  lemma {:induction false} SortedCount(es: seq<Entry>)
    requires Sorted(es)
    ensures |Elems(es)| == |es|
    decreases |es|
  {
    if es == [] {
      assert Elems(es) == {};
    } else {
      var n := |es| - 1;
      SortedCount(es[..n]);
      InitElems(es);
      assert es[n] in Elems(es);
    }
  }
}
