/** Stores of eight or more levels: the bottom level is level 6 whatever their number, so a deletion that
    sinks into it is dropped above the value it hides. */
module LsmEight {
  import opened Bytes
  import opened Entries
  import opened Versions
  import opened Varint
  import opened Records
  import opened TableFormat
  import opened TableLookup
  import opened TableLimits
  import opened Sstable
  import opened Compaction
  import opened Chunks
  import opened Paths
  import opened LsmModel
  import opened LsmVersions
  import opened LsmTables
  import opened LsmRoom
  import opened LsmSteps
  import opened LsmRuns
  import opened LsmRestarts
  import opened LsmSettle
  import opened LsmScenes
  import Memtable

  // ----- a pass that sinks what it merges -----

  /** Nine level-0 tables, whose four oldest leave the run `es`, too large for the levels above `m`; those
      are empty, and what of the run the merge into level `m` leaves may stay there. */
  ghost predicate Sinks(s: Store, m: nat, es: seq<Entry>, es': seq<Entry>) {
    && Quiet(s) && |s.levels[0]| == 9 && 2 <= m < |s.levels| && s.nextID < TWO_63
    && NoTies(Held(s.levels[0][..4])) && Survivors(Held(s.levels[0][..4]), false) == Elems(es)
    && (forall i :: 1 <= i <= m ==> s.levels[i] == [])
    && (forall i :: 2 <= i < |s.levels| - 1 ==> Within(s, i))
    && Sorted(es) && (forall e :: e in es ==> e.key != []) && (m > BOTTOM_LEVEL ==> NoTombs(es))
    && Sorted(es') && es' != [] && Elems(es') == Survivors(Elems(es), m >= BOTTOM_LEVEL)
    && |Data(es)| > LevelSize(BASE_LEVEL_SIZE, m - 1)
    && (m + 1 == |s.levels| || |Data(es')| <= LevelSize(BASE_LEVEL_SIZE, m))
  }

  /** What the pass makes of the store. */
  ghost predicate Sunk(s: Store, s': Store, m: nat, es: seq<Entry>, es': seq<Entry>) {
    && 0 < m < |s.levels| == |s'.levels| && |s.levels[0]| == 9
    && s'.levels == s.levels[0 := s.levels[0][4..]][m := s'.levels[m]]
    && Bears(s', m, es') && Quiet(s') && s'.threshold == s.threshold
    && s'.nextID <= s.nextID + Times(m, |es|)
  }

  lemma SinksNothingBelow(s: Store, m: nat, es: seq<Entry>, es': seq<Entry>)
    requires Sinks(s, m, es, es')
    ensures var outs := Numbered(ChunksOf(es), 1, s.nextID);
      TakesFour(s, outs) && outs != [] && Held(outs) == Elems(es) && TotalSize(outs) == |Data(es)| && |outs| <= |es|
  {
    hide Held, Survivors, ChunksOf, Data, Outputs, Accounted, RisingIds, Pow10, LevelSize, TotalSize;
    NotEmptyRun(es);
    OutputsAre(s.levels[0][..4], es, 1, s.nextID);
    ChunksBear(es, 1, s.nextID);
    NothingOverlapped(s.levels[0][..4]);
  }

  /** After the level-0 compaction. */
  lemma SinksFromOne(s: Store, s1: Store, outs: seq<Table>, m: nat, es: seq<Entry>, es': seq<Entry>)
    requires Sinks(s, m, es, es') && TookFour(s, s1, outs)
    requires outs != [] && Held(outs) == Elems(es) && TotalSize(outs) == |Data(es)|
    ensures Accounted(s1) && SinksTo(s1, 1, m, es, es')
  {
    hide Held, Survivors, Data, Accounted, RisingIds, Pow10, LevelSize, TotalSize, Sorted, NoTies;
    assert [] + outs == outs;
  }

  lemma SinkingIsQuiet(s: Store, s1: Store, s2: Store, outs: seq<Table>, m: nat, es: seq<Entry>, es': seq<Entry>)
    requires TookFour(s, s1, outs) && Moved(s1, s2, 1, m) && Bears(s2, m, es') && 2 <= m
    requires |outs| <= |es| && s2.nextID <= s1.nextID + Times(m - 1, |es|) && s.levels[1] == []
    ensures Sunk(s, s2, m, es, es')
  {
    hide Accounted, RisingIds, Pow10, Bears;
    assert Times(m, |es|) == |es| + Times(m - 1, |es|);
    assert s2.levels == s.levels[0 := s.levels[0][4..]][m := s2.levels[m]];
    AccountedCount(s2);
  }

  lemma AccountedCount(s: Store)
    requires Accounted(s)
    ensures |s.sizes| == |s.levels|
  {
    hide TotalSize;
  }

  lemma SunkIsIdle(s: Store, s2: Store, m: nat, es: seq<Entry>, es': seq<Entry>)
    requires Sinks(s, m, es, es') && Sunk(s, s2, m, es, es')
    ensures LoopLevels(s2, 2) == s2
  {
    hide Held, Survivors, Data, RisingIds, Pow10, LevelSize, TotalSize, Sorted, NoTies, Bears;
    SizeBorne(s2, m, es');
    forall i | 2 <= i < |s2.levels| - 1 ensures Within(s2, i) {
      if i < m {
        EmptyIsWithin(s2, i);
      } else if i > m {
        SameSize(s, s2, i);
        assert Within(s, i);
      } else {
        assert m + 1 != |s.levels|;
      }
    }
    LoopIdle(s2, 2);
  }

  lemma SameSize(s: Store, s': Store, i: nat)
    requires Accounted(s) && Accounted(s') && i < |s.levels| == |s'.levels| && s'.levels[i] == s.levels[i]
    ensures i < |s.sizes| && i < |s'.sizes| && s'.sizes[i] == s.sizes[i]
  {
    hide TotalSize;
  }

  lemma FirstLevelGoes(s1: Store, m: nat, es: seq<Entry>, es': seq<Entry>)
    requires Accounted(s1) && SinksTo(s1, 1, m, es, es')
    ensures LoopLevels(s1, 1) == LoopLevels(CompactLevel(s1, 1), 2)
  {
    hide Held, Survivors, Data, LevelSize, Sorted, Bears, CompactLevel, SizesOk, NoTombs;
    SizeBorne(s1, 1, es);
    LevelSizeGrows(1, m - 1);
  }

  lemma SinkingPass(s: Store, m: nat, es: seq<Entry>, es': seq<Entry>)
    requires Sinks(s, m, es, es')
    ensures Sunk(s, LoopPass(s), m, es, es')
  {
    hide Sinks, TakesFour, TookFour, SinksTo, CompactL0, CompactLevel, LoopLevels, Accounted, Bears, Moved, Held;
    hide Data, TotalSize, Numbered, ChunksOf, Quiet, Sunk;
    SinksRange(s, m, es, es');
    SinksNothingBelow(s, m, es, es');
    var outs := Numbered(ChunksOf(es), 1, s.nextID);
    FourMerge(s, outs);
    var s1 := CompactL0(s);
    SinksFromOne(s, s1, outs, m, es, es');
    Sink(s1, 1, m, es, es');
    FirstLevelGoes(s1, m, es, es');
    SinkingIsQuiet(s, s1, CompactLevel(s1, 1), outs, m, es, es');
    SunkIsIdle(s, CompactLevel(s1, 1), m, es, es');
  }

  lemma SinksRange(s: Store, m: nat, es: seq<Entry>, es': seq<Entry>)
    requires Sinks(s, m, es, es')
    ensures 2 <= m < |s.levels| && |s.levels[0]| == 9 && s.levels[1] == [] && s.nextID < TWO_63
  {
    hide Held, Survivors, Data, RisingIds, Pow10, LevelSize, Accounted, Sorted, NoTies;
  }

  lemma SinkReaches(w0: World, ops: seq<Op>, w: World, m: nat, es: seq<Entry>, es': seq<Entry>)
    returns (ops': seq<Op>, w': World)
    requires Reaches(w0, ops, w) && Sinks(w.store, m, es, es') && Stocked(w.store)
    ensures Reaches(w0, ops', w') && Sunk(w.store, w'.store, m, es, es') && Stocked(w'.store)
    ensures w'.clock == w.clock && w'.plain == w.plain
  {
    hide Reaches, Sinks, Sunk, LoopPass, Stocked, Durable, Ends, NextTrust, Flushes, PlainWrites;
    ReachesUp(w0, ops, w);
    SinksRange(w.store, m, es, es');
    SinkingPass(w.store, m, es, es');
    PassIsSmooth(w);
    ReachesOn(w0, ops, w, Pass);
    ops', w' := ops + [Pass], Next(w, Pass);
  }

  // ----- a deletion above the value it hides -----

  /** A version of a key of its own, beside others, survives a merge that keeps deletions. */
  lemma LoneSurvives(v: set<Entry>, x: Entry)
    requires NoTies(v) && x.key != [] && forall e :: e in v ==> e.key != x.key
    ensures NoTies(v + {x}) && Survivors(v + {x}, false) == Survivors(v, false) + {x}
  {
  }

  lemma TombDropped(es: seq<Entry>, x: Entry)
    requires Sorted(es) && NoTombs(es) && (forall e :: e in es ==> e.key != [] && e.key != x.key) && x.tomb
    ensures DistinctKeys(Elems(es) + {x}) && Survivors(Elems(es) + {x}, true) == Elems(es)
  {
    SortedDistinct(es);
  }

  lemma BatchKeys(kvs: seq<KeyValue>, now: int)
    requires Ascending(kvs) && kvs[0].key != []
    ensures forall e :: e in BatchEntries(kvs, now) ==> e.key != [] && !e.tomb
    ensures forall e, k :: e in BatchEntries(kvs, now) && !HasKey(kvs, k) ==> e.key != k
  {
    NoEmptyKeys(kvs);
  }

  lemma BatchIsLive(kvs: seq<KeyValue>, now: int)
    ensures forall e :: e in BatchEntries(kvs, now) ==> !e.tomb
  {
  }

  /** A run in memory together with one deletion. */
  lemma WithTomb(mem: map<Str, Entry>, x: Entry, kvs: seq<KeyValue>, now: int)
    requires mem == map[x.key := x] && Ascending(kvs) && !HasKey(kvs, x.key)
    ensures kvs != []
    ensures Memtable.KeyedByKey(mem) && Memtable.KeyedByKey(ApplyAll(mem, BatchEntries(kvs, now)))
    ensures ApplyAll(mem, BatchEntries(kvs, now)).Values == Elems(BatchEntries(kvs, now)) + {x}
    ensures ApplyAll(mem, BatchEntries(kvs, now)) != map[]
  {
    AscendsSomewhere(kvs);
    hide Ascending, BatchEntries, Sorted, HasKey, ApplyAll;
    var es := BatchEntries(kvs, now);
    AscendingSorted(kvs, now);
    OneInMemory(x);
    BatchIsLive(kvs, now);
    forall e | e in es ensures e.key !in mem {
      BatchLacks(kvs, now, x.key, e);
    }
    AppliedValues(mem, es);
    assert x.key in ApplyAll(mem, es);
  }

  lemma CostWithTomb(kvs: seq<KeyValue>, now: int, x: Entry)
    requires Ascending(kvs) && !HasKey(kvs, x.key)
    ensures Memtable.TotalCost(Elems(BatchEntries(kvs, now)) + {x}) >= BatchCost(kvs)
  {
    hide Sorted;
    var es := BatchEntries(kvs, now);
    AscendingSorted(kvs, now);
    BatchCostIsSize(kvs, now);
    ChunkSizeIsTotal(es);
    assert x !in es;
    Memtable.TotalCostWithout(Elems(es) + {x}, x);
    assert Elems(es) + {x} - {x} == Elems(es);
  }

  /** A deletion in an empty memtable. */
  lemma DelHolds(s: Store, k: Str, now: int)
    requires Quiet(s)
    ensures Delete(s, k, now) == s.(mem := map[k := Entry(k, [], now, true)])
    ensures |s.levels| > 0
  {
    hide Accounted, RisingIds, Pow10;
    var x := Entry(k, [], now, true);
    assert [x][..0] == [];
    assert ApplyAll(s.mem, [x][..0]) == map[];
  }

  lemma DelPlain(m: map<Str, Str>, k: Str, now: int)
    ensures PlainWrites(m, [Entry(k, [], now, true)]) == m - {k}
  {
    var x := Entry(k, [], now, true);
    assert [x][..0] == [];
    assert PlainWrites(m, [x][..0]) == m;
  }

  lemma DelNext(w: World, k: Str)
    requires Quiet(w.store) && w.store.nextID < TWO_63 && !w.down && |k| < TWO_63 && IsInt64(w.clock)
    ensures Durable(w, Del(k, w.clock)) && Ends(w.store, Del(k, w.clock)).Done?
    ensures var w' := Next(w, Del(k, w.clock));
      && w'.store == w.store.(mem := map[k := Entry(k, [], w.clock, true)])
      && w'.clock == w.clock + 1 && w'.plain == w.plain - {k} && !w'.down
  {
    hide Quiet, Delete, NextTrust, Memtable.TotalCost, Wrote;
    DelHolds(w.store, k, w.clock);
    DelPlain(w.plain, k, w.clock);
  }

  // ----- flushes that fit -----

  /** Small entries whose data block outgrows one size of the mapping, and stays well inside the next whether
      one more small entry is with them or not. */
  ghost predicate Housed(kvs: seq<KeyValue>) {
    && Small(kvs)
    && exists p: nat ::
         MappingSize(p) && p + 8 * |kvs| < BatchCost(kvs) && BatchCost(kvs) + 17 * |kvs| + 2400 <= 2 * p < TWO_63
  }

  lemma SmallIsSized(kvs: seq<KeyValue>)
    requires Small(kvs)
    ensures Sized(kvs)
  {
  }

  lemma BigRun(es: seq<Entry>, p: nat)
    requires Sorted(es) && es != [] && AllBounded(es)
    requires MappingSize(p) && p < |Data(es)| && ChunkSize(es) + 17 * |es| + 1200 <= 2 * p < TWO_63
    ensures RunFits(es)
  {
    hide FileBytes, HasRoom, Bounded, Storable, Data, ChunkSize, MappingSize, Sorted;
    BigRunFits(es, p);
    BoundedAreStorable(es);
  }

  lemma HousedLands(kvs: seq<KeyValue>, lo: int, hi: int)
    requires Housed(kvs) && Ascending(kvs) && IsInt64(lo) && IsInt64(hi)
    ensures Lands(kvs, lo, hi)
  {
    hide Small, Ascending, BatchCost, BatchEntries, Bounded, Sorted, ChunkSize, Data, RunFits, MappingSize;
    var p: nat :|
      MappingSize(p) && p + 8 * |kvs| < BatchCost(kvs) && BatchCost(kvs) + 17 * |kvs| + 2400 <= 2 * p < TWO_63;
    SmallIsSized(kvs);
    AscendsSomewhere(kvs);
    forall now | lo <= now && now + |kvs| <= hi ensures RunFits(BatchEntries(kvs, now)) {
      SmallIsBounded(kvs, now);
      AscendingSorted(kvs, now);
      BatchCostIsSize(kvs, now);
      BatchDataSize(kvs, now);
      CountOfBatch(kvs, now);
      BigRun(BatchEntries(kvs, now), p);
    }
  }

  /** The batch together with a deletion of another key. */
  lemma HousedWithTomb(kvs: seq<KeyValue>, now: int, x: Entry)
    requires Housed(kvs) && Ascending(kvs) && ClockFits(now, |kvs|) && Bounded(x) && |x.value| == 0
    requires !HasKey(kvs, x.key)
    ensures DistinctKeys(Elems(BatchEntries(kvs, now)) + {x})
    ensures RunFits(SortedEntries(Elems(BatchEntries(kvs, now)) + {x}))
    ensures AllBounded(SortedEntries(Elems(BatchEntries(kvs, now)) + {x}))
  {
    hide Small, Ascending, BatchCost, BatchEntries, HasKey, ChunkSize, Data, RunFits, MappingSize, Memtable.TotalCost;
    var p: nat :|
      MappingSize(p) && p + 8 * |kvs| < BatchCost(kvs) && BatchCost(kvs) + 17 * |kvs| + 2400 <= 2 * p < TWO_63;
    var run := BatchEntries(kvs, now);
    SmallIsSized(kvs);
    SmallIsBounded(kvs, now);
    AscendingSorted(kvs, now);
    BatchDataSize(kvs, now);
    CountOfBatch(kvs, now);
    forall e | e in run ensures e.key != x.key {
      BatchLacks(kvs, now, x.key, e);
    }
    var es := SortedEntries(Elems(run) + {x});
    MoreIsLarger(run, es, x);
    SortedCount(run);
    SortedCount(es);
    BatchCostIsSize(kvs, now);
    ChunkSizeIsTotal(run);
    ChunkSizeIsTotal(es);
    Memtable.TotalCostWithout(Elems(es), x);
    assert Elems(es) - {x} == Elems(run);
    assert forall e :: e in es ==> e in Elems(es);
    BigRun(es, p);
  }

  /** What the deletion and the batch behind it make of a quiet store. */
  ghost predicate Stacked(w: World, w': World, k: Str, kvs: seq<KeyValue>, t: Table) {
    && 0 < |w.store.levels| && Quiet(w'.store)
    && w'.store.levels == w.store.levels[0 := w.store.levels[0] + [t]]
    && Elems(t.entries) == Elems(BatchEntries(kvs, w.clock + 1)) + {Entry(k, [], w.clock, true)}
    && w'.store.nextID == w.store.nextID + 1 && w'.store.threshold == w.store.threshold
    && w'.clock == w.clock + 1 + |kvs| && k !in w'.plain
  }

  /** A deletion in memory and the batch behind it. */
  ghost predicate AfterDelete(s: Store, s0: Store, x: Entry, kvs: seq<KeyValue>, now: int) {
    && Quiet(s0) && s == s0.(mem := map[x.key := x]) && 0 < |s0.levels| && |s0.levels[0]| < 2 * MAX_L0_FILES
    && s0.nextID < TWO_63 && Ascending(kvs) && !HasKey(kvs, x.key) && s.threshold <= BatchCost(kvs)
    && Housed(kvs) && ClockFits(now, |kvs|) && Bounded(x) && |x.value| == 0
  }

  lemma TombInMemory(s: Store, s0: Store, x: Entry, kvs: seq<KeyValue>, now: int)
    requires AfterDelete(s, s0, x, kvs, now)
    ensures var m := ApplyAll(s.mem, BatchEntries(kvs, now)); var es := SortedMem(m);
      && kvs != [] && Memtable.KeyedByKey(m) && m != map[] && Memtable.TotalCost(m.Values) >= s.threshold
      && RunFits(es) && AllBounded(es) && Elems(es) == Elems(BatchEntries(kvs, now)) + {x}
  {
    hide Quiet, Memtable.TotalCost, BatchCost, SortedEntries, ApplyAll, HasKey, Ascending, Housed, RunFits, Bounded;
    WithTomb(s.mem, x, kvs, now);
    CostWithTomb(kvs, now, x);
    HousedWithTomb(kvs, now, x);
  }

  lemma TombStacks(s: Store, s0: Store, x: Entry, kvs: seq<KeyValue>, now: int)
    requires AfterDelete(s, s0, x, kvs, now)
    ensures Stacks(s0, PutBatch(s, kvs, now), SortedMem(ApplyAll(s.mem, BatchEntries(kvs, now))))
  {
    hide Quiet, Memtable.TotalCost, PutBatch, SortedMem, Stacks, ApplyAll, HasKey, Ascending, Housed, RunFits, Bounded;
    hide BatchCost;
    TombInMemory(s, s0, x, kvs, now);
    PutStacks(s, s0, kvs, now);
  }

  lemma TombReaches(w0: World, ops: seq<Op>, w: World, k: Str, kvs: seq<KeyValue>)
    returns (ops': seq<Op>, w': World, t: Table)
    requires Reaches(w0, ops, w) && Quiet(w.store) && Ascending(kvs) && !HasKey(kvs, k)
    requires w.store.threshold <= BatchCost(kvs)
    requires |w.store.levels[0]| < 2 * MAX_L0_FILES && w.store.nextID < TWO_63
    requires Housed(kvs) && |k| <= MAX_KEY && ClockFits(w.clock, |kvs| + 1) && Stocked(w.store)
    ensures Reaches(w0, ops', w') && Stacked(w, w', k, kvs, t) && Stocked(w'.store)
  {
    hide Quiet, Reaches, PutBatch, PlainWrites, PlainPut, BatchCost, Delete, SortedMem, HasKey, Ascending, Next;
    hide ApplyAll, BatchEntries, Housed, RunFits, Durable, Ends, Stocked, Memtable.TotalCost;
    ReachesUp(w0, ops, w);
    DelNext(w, k);
    ReachesOn(w0, ops, w, Del(k, w.clock));
    var w1 := Next(w, Del(k, w.clock));
    var x := Entry(k, [], w.clock, true);
    QuietMem(w.store);
    TombStacks(w1.store, w.store, x, kvs, w1.clock);
    TombInMemory(w1.store, w.store, x, kvs, w1.clock);
    BatchIsStorable(kvs, w1.clock);
    PutIsSmooth(w1, kvs);
    ReachesOn(w0, ops + [Del(k, w.clock)], w1, Put(kvs, w1.clock));
    ops', w' := ops + [Del(k, w.clock)] + [Put(kvs, w1.clock)], Next(w1, Put(kvs, w1.clock));
    t := Table(0, w.store.nextID, SortedMem(ApplyAll(w1.store.mem, BatchEntries(kvs, w1.clock))));
    PutNext(w1, kvs);
    StaysUnwritten(w1.plain, w'.plain, k, kvs, w1.clock);
    StockedMore(w.store, w'.store, [t]);
  }

  lemma BatchIsStorable(kvs: seq<KeyValue>, now: int)
    requires Housed(kvs) && ClockFits(now, |kvs|)
    ensures AllStorable(BatchEntries(kvs, now)) && |kvs| < TWO_63
  {
    hide Small, BatchCost, Bounded, Storable, MappingSize;
    SmallIsBounded(kvs, now);
    BoundedAreStorable(BatchEntries(kvs, now));
  }

  lemma PutNext(w: World, kvs: seq<KeyValue>)
    requires Ends(w.store, Put(kvs, w.clock)).Done?
    ensures var w' := Next(w, Put(kvs, w.clock));
      && w'.store == PutBatch(w.store, kvs, w.clock) && w'.clock == w.clock + |kvs|
      && w'.plain == PlainWrites(w.plain, BatchEntries(kvs, w.clock))
  {
    hide PutBatch, PlainWrites, Ends, NextTrust, Flushes;
  }

  lemma StaysUnwritten(m: map<Str, Str>, m': map<Str, Str>, k: Str, kvs: seq<KeyValue>, now: int)
    requires Ascending(kvs) && !HasKey(kvs, k) && k !in m && m' == PlainWrites(m, BatchEntries(kvs, now))
    ensures k !in m'
  {
    hide PlainWrites;
    PlainWritesPut(m, kvs, now);
  }

  // ----- the run -----

  /** A batch that fills the memtable and fits its mapping, whose keys are not empty, and whose data block lies
      between the two sizes whenever it is written. */
  ghost predicate Weighs(kvs: seq<KeyValue>, threshold: nat, above: nat, upTo: int) {
    && Ascending(kvs) && kvs[0].key != [] && Housed(kvs) && 0 < threshold <= BatchCost(kvs)
    && above + 8 * |kvs| < BatchCost(kvs) && BatchCost(kvs) + 19 * |kvs| <= upTo
  }

  lemma Weight(kvs: seq<KeyValue>, threshold: nat, above: nat, upTo: int, now: int)
    requires Weighs(kvs, threshold, above, upTo) && ClockFits(now, |kvs|)
    ensures var es := BatchEntries(kvs, now);
      above < |Data(es)| <= upTo && Sorted(es) && NoTombs(es) && es != [] && forall e :: e in es ==> e.key != []
  {
    hide Data, BatchCost, MappingSize, Small;
    SmallIsSized(kvs);
    BatchDataSize(kvs, now);
    AscendingSorted(kvs, now);
    BatchKeys(kvs, now);
  }

  lemma TickThree(clock: int, m: nat)
    ensures Tick(clock, m, 3) == clock + 3 * m && Tick(clock, m, 4) == clock + 4 * m
  {
    assert Tick(clock, m, 1) == clock + m && Tick(clock, m, 2) == clock + 2 * m;
  }

  /** The pass that sinks four tables of one batch to level 7. */
  lemma LayersSink(s: Store, kvs: seq<KeyValue>, threshold: nat, upTo: int, clock: int, id: nat, take: seq<Table>,
                   rest: seq<Table>)
    requires Quiet(s) && s.levels[0] == take + rest && |take| == 4 && |rest| == 5 && Layers(take, kvs, clock, id)
    requires Weighs(kvs, threshold, LevelSize(BASE_LEVEL_SIZE, 6), upTo) && ClockFits(clock, 4 * |kvs|)
    requires |s.levels| >= 8 && s.nextID < TWO_63 && forall i :: 1 <= i < |s.levels| ==> s.levels[i] == []
    requires |s.levels| == 8 || upTo <= LevelSize(BASE_LEVEL_SIZE, 7)
    ensures var es := BatchEntries(kvs, Tick(clock, |kvs|, 3)); Sinks(s, 7, es, es)
  {
    hide Layers, Held, Survivors, Data, BatchCost, Accounted, RisingIds, Pow10, LevelSize, Tick, Within, Housed;
    assert s.levels[0][..4] == take;
    TickThree(clock, |kvs|);
    LastLayerSurvives(take, kvs, clock, id, false);
    var es := BatchEntries(kvs, Tick(clock, |kvs|, 3));
    Weight(kvs, threshold, LevelSize(BASE_LEVEL_SIZE, 6), upTo, Tick(clock, |kvs|, 3));
    AllSurvive(es, true);
    forall i | 2 <= i < |s.levels| - 1 ensures Within(s, i) {
      EmptyIsWithin(s, i);
    }
  }

  lemma {:induction false} TickShifts(clock: int, m: nat, i: nat)
    ensures Tick(clock + m, m, i) == Tick(clock, m, i + 1)
    decreases i
  {
    if i > 0 {
      TickShifts(clock, m, i - 1);
    }
  }

  lemma OneLayerBefore(more: seq<Table>, kvs: seq<KeyValue>, clock: int, id: nat)
    requires Layers(more, kvs, clock + |kvs|, id) && id > 0
    ensures Layers([Table(0, id - 1, BatchEntries(kvs, clock))] + more, kvs, clock, id - 1)
  {
    hide BatchEntries, Tick;
    var ts := [Table(0, id - 1, BatchEntries(kvs, clock))] + more;
    assert Tick(clock, |kvs|, 0) == clock by { TickNone(clock, |kvs|); }
    forall i | 0 <= i < |ts| ensures ts[i] == Table(0, id - 1 + i, BatchEntries(kvs, Tick(clock, |kvs|, i))) {
      if i > 0 {
        assert ts[i] == more[i - 1];
        TickShifts(clock, |kvs|, i - 1);
      }
    }
  }

  lemma TickNone(clock: int, m: nat)
    ensures Tick(clock, m, 0) == clock
  {
  }

  lemma NotItsKey(kvs: seq<KeyValue>, k: Str, j: nat)
    requires !HasKey(kvs, k) && j < |kvs|
    ensures kvs[j].key != k
  {
  }

  /** What merging the batch written four times, the first time with a deletion, leaves. */
  lemma TombMerges(t: Table, more: seq<Table>, kvs: seq<KeyValue>, clock: int, id: nat, x: Entry)
    requires Elems(t.entries) == Elems(BatchEntries(kvs, clock)) + {x} && |more| == 3 && id > 0
    requires Layers(more, kvs, clock + |kvs|, id) && Ascending(kvs) && kvs[0].key != []
    requires x.tomb && x.key != [] && !HasKey(kvs, x.key)
    ensures var es := BatchEntries(kvs, Tick(clock, |kvs|, 3)); var v := Held([t] + more);
      NoTies(v) && Survivors(v, false) == Elems(es) + {x}
  {
    hide Held, Layers, Survivors, Ascending, HasKey, BatchEntries, NoTies, Tick;
    var t0 := Table(0, id - 1, BatchEntries(kvs, clock));
    var ts := [t0] + more;
    HeldAppend([t], more);
    HeldAppend([t0], more);
    HeldOne(t);
    HeldOne(t0);
    assert Held([t] + more) == Held(ts) + {x};
    OneLayerBefore(more, kvs, clock, id);
    LastLayerSurvives(ts, kvs, clock, id - 1, false);
    forall e | e in Held(ts) ensures e.key != x.key {
      var i, j := LayerEntry(ts, kvs, clock, id - 1, e);
      NotItsKey(kvs, x.key, j);
    }
    LoneSurvives(Held(ts), x);
  }

  /** The pass that sinks them to level 6, where the deletion is dropped. */
  lemma TombSinks(s: Store, kvs: seq<KeyValue>, threshold: nat, clock: int, id: nat, x: Entry, t: Table,
                  more: seq<Table>, rest: seq<Table>) returns (es: seq<Entry>)
    requires Quiet(s) && s.levels[0] == [t] + more + rest && |more| == 3 && |rest| == 5 && id > 0
    requires Elems(t.entries) == Elems(BatchEntries(kvs, clock)) + {x} && Layers(more, kvs, clock + |kvs|, id)
    requires x.tomb && x.key != [] && !HasKey(kvs, x.key) && ClockFits(clock, 4 * |kvs|)
    requires Weighs(kvs, threshold, LevelSize(BASE_LEVEL_SIZE, 5), LevelSize(BASE_LEVEL_SIZE, 6))
    requires |s.levels| >= 8 && s.nextID < TWO_63 && forall i :: 1 <= i <= 6 ==> s.levels[i] == []
    requires forall i :: 7 <= i < |s.levels| - 1 ==> Within(s, i)
    ensures Sinks(s, 6, es, BatchEntries(kvs, Tick(clock, |kvs|, 3))) && |es| == |kvs| + 1
  {
    hide Layers, Held, Survivors, Data, BatchCost, Accounted, RisingIds, Pow10, LevelSize, Tick, Within, Housed;
    hide HasKey, NoTies, SortedEntries;
    assert s.levels[0][..4] == [t] + more;
    TickThree(clock, |kvs|);
    TombMerges(t, more, kvs, clock, id, x);
    var now := Tick(clock, |kvs|, 3);
    Weight(kvs, threshold, LevelSize(BASE_LEVEL_SIZE, 5), LevelSize(BASE_LEVEL_SIZE, 6), now);
    es := TombRun(kvs, now, x);
    forall i | 2 <= i < |s.levels| - 1 ensures Within(s, i) {
      if i <= 6 {
        EmptyIsWithin(s, i);
      }
    }
  }

  lemma TombRun(kvs: seq<KeyValue>, now: int, x: Entry) returns (es: seq<Entry>)
    requires Ascending(kvs) && kvs[0].key != [] && x.tomb && x.key != [] && !HasKey(kvs, x.key)
    ensures Sorted(es) && Elems(es) == Elems(BatchEntries(kvs, now)) + {x} && |es| == |kvs| + 1
    ensures (forall e :: e in es ==> e.key != []) && |Data(es)| >= |Data(BatchEntries(kvs, now))|
    ensures Survivors(Elems(es), true) == Elems(BatchEntries(kvs, now))
  {
    hide Data, Survivors, SortedEntries, Ascending;
    var run := BatchEntries(kvs, now);
    AscendingSorted(kvs, now);
    BatchKeys(kvs, now);
    TombDropped(run, x);
    es := SortedEntries(Elems(run) + {x});
    assert x !in Elems(run);
    MoreIsLarger(run, es, x);
    SortedCount(run);
    SortedCount(es);
    assert forall e :: e in es ==> e in Elems(es);
  }

  /** A value, and a batch without its key, of sizes that send the one to level 7 and the other to level 6. */
  ghost predicate Tale(n: nat, a: seq<KeyValue>, f: seq<KeyValue>, k: Str, v: Str, threshold: nat) {
    && n >= 8 && k != [] && KeyValue(k, v) in a && !HasKey(f, k)
    && Weighs(a, threshold, LevelSize(BASE_LEVEL_SIZE, 6), DeepLimit(n, a))
    && Weighs(f, threshold, LevelSize(BASE_LEVEL_SIZE, 5), LevelSize(BASE_LEVEL_SIZE, 6))
  }

  /** The last level has no limit. */
  function DeepLimit(n: nat, a: seq<KeyValue>): nat {
    if n == 8 then BatchCost(a) + 19 * |a| else LevelSize(BASE_LEVEL_SIZE, 7)
  }

  /** Numbers for every table the run makes, and timestamps within 64 bits. */
  predicate Spare(id: nat, clock: int, a: seq<KeyValue>, f: seq<KeyValue>) {
    id + 13 + Times(7, |a|) < TWO_63 && ClockFits(clock, 4 * |a| + 1 + 9 * |f|)
  }

  /** After the first nine flushes. */
  lemma NineFlushes(w0: World, a: seq<KeyValue>, f: seq<KeyValue>, k: Str)
    returns (ops: seq<Op>, w: World, take: seq<Table>, t: Table, more: seq<Table>)
    requires Quiet(w0.store) && w0.store.nextID + 9 < TWO_63
    requires Ascending(a) && Ascending(f) && !HasKey(f, k)
    requires w0.store.threshold <= BatchCost(a) && w0.store.threshold <= BatchCost(f)
    requires Housed(a) && Housed(f) && |k| <= MAX_KEY && ClockFits(w0.clock, 4 * |a| + 1 + 9 * |f|)
    requires !w0.down && Stocked(w0.store)
    requires forall i :: 0 <= i < |w0.store.levels| ==> w0.store.levels[i] == []
    ensures Reaches(w0, ops, w) && Quiet(w.store) && k !in w.plain && Stocked(w.store)
    ensures |take| == 4 && Layers(take, a, w0.clock, w0.store.nextID)
    ensures |more| == 4 && Layers(more, f, w0.clock + 4 * |a| + 1 + |f|, w0.store.nextID + 5)
    ensures Elems(t.entries)
         == Elems(BatchEntries(f, w0.clock + 4 * |a| + 1)) + {Entry(k, [], w0.clock + 4 * |a|, true)}
    ensures w.store.levels == w0.store.levels[0 := take + [t] + more]
    ensures w.store.nextID == w0.store.nextID + 9 && w.store.threshold == w0.store.threshold
    ensures w.clock == w0.clock + 4 * |a| + 1 + 5 * |f|
  {
    hide Reaches, Quiet, Layers, Tick, PlainPut, Ascending, BatchCost, HasKey, BatchEntries, Stocked, Housed, Lands;
    QuietMem(w0.store);
    ReachesItself(w0);
    TickThree(w0.clock, |a|);
    var ops1, w1, ts1 := HousedReach(w0, [], w0, a);
    assert [] + ts1 == ts1;
    var ops2, w2, t2 := TombReaches(w0, ops1, w1, k, f);
    TickThree(w2.clock, |f|);
    ops, w, more := HousedReach(w0, ops2, w2, f);
    take, t := ts1, t2;
    LacksStill(w2.plain, w.plain, f, k);
  }

  /** Four flushes of such a batch. */
  lemma HousedReach(w0: World, ops: seq<Op>, w: World, kvs: seq<KeyValue>)
    returns (ops': seq<Op>, w': World, ts: seq<Table>)
    requires Reaches(w0, ops, w) && Quiet(w.store) && Ascending(kvs) && w.store.threshold <= BatchCost(kvs)
    requires |w.store.levels[0]| + 4 <= 2 * MAX_L0_FILES && w.store.nextID + 4 <= TWO_63
    requires Housed(kvs) && ClockFits(w.clock, 4 * |kvs|) && Stocked(w.store)
    ensures Reaches(w0, ops', w') && Quiet(w'.store) && Stocked(w'.store)
    ensures |ts| == 4 && Layers(ts, kvs, w.clock, w.store.nextID)
    ensures w'.store.levels == w.store.levels[0 := w.store.levels[0] + ts]
    ensures w'.store.nextID == w.store.nextID + 4 && w'.store.threshold == w.store.threshold
    ensures w'.clock == w.clock + 4 * |kvs| && PlainPut(w.plain, w'.plain, kvs)
  {
    hide Reaches, Quiet, Layers, Tick, PlainPut, Ascending, BatchCost, Small, Stocked, Lands, MappingSize;
    TickThree(w.clock, |kvs|);
    HousedLands(kvs, w.clock, Tick(w.clock, |kvs|, 4));
    ops', w', ts := StockedPutsReach(w0, ops, w, kvs, 4);
  }

  lemma LacksStill(m: map<Str, Str>, m': map<Str, Str>, kvs: seq<KeyValue>, k: Str)
    requires PlainPut(m, m', kvs) && !HasKey(kvs, k) && k !in m
    ensures k !in m'
  {
    hide HasKey;
  }

  /** After the first pass: the value is in level 7, the deletion still in level 0. */
  lemma ValueSinks(w0: World, a: seq<KeyValue>, f: seq<KeyValue>, k: Str, v: Str)
    returns (ops: seq<Op>, w: World, t: Table, more: seq<Table>)
    requires Quiet(w0.store) && Tale(|w0.store.levels|, a, f, k, v, w0.store.threshold)
    requires Spare(w0.store.nextID, w0.clock, a, f) && !w0.down && Stocked(w0.store)
    requires forall i :: 0 <= i < |w0.store.levels| ==> w0.store.levels[i] == []
    ensures Reaches(w0, ops, w) && Quiet(w.store) && k !in w.plain && Stocked(w.store)
    ensures w.clock == w0.clock + 4 * |a| + 1 + 5 * |f|
    ensures |more| == 4 && Layers(more, f, w0.clock + 4 * |a| + 1 + |f|, w0.store.nextID + 5)
    ensures Elems(t.entries)
         == Elems(BatchEntries(f, w0.clock + 4 * |a| + 1)) + {Entry(k, [], w0.clock + 4 * |a|, true)}
    ensures 7 < |w.store.levels| && w.store.levels[0] == [t] + more
    ensures Bears(w.store, 7, BatchEntries(a, Tick(w0.clock, |a|, 3)))
    ensures forall i :: 1 <= i < |w.store.levels| && i != 7 ==> w.store.levels[i] == []
    ensures |Data(BatchEntries(a, Tick(w0.clock, |a|, 3)))| <= DeepLimit(|w.store.levels|, a)
    ensures w.store.threshold == w0.store.threshold && |w.store.levels| == |w0.store.levels|
    ensures w.store.nextID <= w0.store.nextID + 9 + Times(7, |a|)
  {
    hide Reaches, Quiet, Layers, Tick, Ascending, BatchCost, HasKey, BatchEntries, LevelSize, Sinks, Data, Bears;
    hide NoTombs, Sorted, Housed, Times, Stocked;
    TaleKey(|w0.store.levels|, a, f, k, v, w0.store.threshold);
    var ops1, w1, take, t1, more1 := NineFlushes(w0, a, f, k);
    assert take + [t1] + more1 == take + ([t1] + more1);
    LayersSink(w1.store, a, w0.store.threshold, DeepLimit(|w0.store.levels|, a), w0.clock, w0.store.nextID, take,
               [t1] + more1);
    var es := BatchEntries(a, Tick(w0.clock, |a|, 3));
    TickThree(w0.clock, |a|);
    Weight(a, w0.store.threshold, LevelSize(BASE_LEVEL_SIZE, 6), DeepLimit(|w0.store.levels|, a),
           Tick(w0.clock, |a|, 3));
    ops, w := SinkReaches(w0, ops1, w1, 7, es, es);
    CountOfBatch(a, Tick(w0.clock, |a|, 3));
    t, more := t1, more1;
    assert (take + ([t1] + more1))[4..] == [t1] + more1;
  }

  /** The first writings of the second batch once more, for the second pass. */
  lemma MoreFlushes(w0: World, ops: seq<Op>, w: World, f: seq<KeyValue>, k: Str, five: seq<Table>)
    returns (ops': seq<Op>, w': World, more: seq<Table>)
    requires Reaches(w0, ops, w) && Quiet(w.store) && Ascending(f) && w.store.threshold <= BatchCost(f)
    requires !HasKey(f, k) && k !in w.plain && Housed(f) && ClockFits(w.clock, 4 * |f|) && Stocked(w.store)
    requires |w.store.levels| > 0 && w.store.levels[0] == five && |five| == 5 && w.store.nextID + 4 < TWO_63
    ensures Reaches(w0, ops', w') && Quiet(w'.store) && k !in w'.plain && Stocked(w'.store)
    ensures |more| == 4 && Layers(more, f, w.clock, w.store.nextID)
    ensures w'.store.levels == w.store.levels[0 := five + more]
    ensures w'.store.nextID == w.store.nextID + 4 && w'.store.threshold == w.store.threshold
  {
    hide Reaches, Quiet, Layers, Tick, PlainPut, Ascending, BatchCost, HasKey, Housed, Stocked;
    ops', w', more := HousedReach(w0, ops, w, f);
    LacksStill(w.plain, w'.plain, f, k);
  }

  lemma DeepWithin(s: Store, a: seq<KeyValue>, es: seq<Entry>, i: nat)
    requires Accounted(s) && 7 <= i < |s.levels| - 1 && Bears(s, 7, es)
    requires |Data(es)| <= DeepLimit(|s.levels|, a) && (i > 7 ==> s.levels[i] == [])
    ensures Within(s, i)
  {
    hide Data, BatchCost, Bears, LevelSize;
    if i == 7 {
      SizeBorne(s, 7, es);
    } else {
      EmptyIsWithin(s, i);
    }
  }

  lemma FirstThree(more: seq<Table>, kvs: seq<KeyValue>, clock: int, id: nat)
    requires |more| == 4 && Layers(more, kvs, clock, id)
    ensures Layers(more[..3], kvs, clock, id)
  {
  }

  /** A version of the key that is the only one is what a reader sees. */
  lemma OnlyVersionShown(v: set<Entry>, e: Entry)
    requires e in v && !e.tomb && forall f :: f in v && f.key == e.key ==> f == e
    ensures Visible(v, e.key) == Some(e.value)
  {
  }

  lemma LayersLack(ts: seq<Table>, kvs: seq<KeyValue>, clock: int, id: nat, k: Str)
    requires Layers(ts, kvs, clock, id) && !HasKey(kvs, k)
    ensures forall e :: e in Held(ts) ==> e.key != k
  {
    hide Layers, Held, Tick, HasKey;
    forall e | e in Held(ts) ensures e.key != k {
      var i, j := LayerEntry(ts, kvs, clock, id, e);
      NotItsKey(kvs, k, j);
    }
  }

  lemma BatchHas(kvs: seq<KeyValue>, now: int, k: Str, v: Str) returns (e: Entry)
    requires Ascending(kvs) && KeyValue(k, v) in kvs
    ensures e in BatchEntries(kvs, now) && e.key == k && e.value == v && !e.tomb
    ensures forall f :: f in BatchEntries(kvs, now) && f.key == k ==> f == e
  {
    var i :| 0 <= i < |kvs| && kvs[i] == KeyValue(k, v);
    e := BatchEntries(kvs, now)[i];
    forall f | f in BatchEntries(kvs, now) && f.key == k ensures f == e {
      var j :| 0 <= j < |kvs| && BatchEntries(kvs, now)[j] == f;
      SameKeySamePlace(kvs, i, j);
    }
  }

  /** What the levels hold at the end: the key only in level 7. */
  lemma ValueResurfaces(s: Store, rest: seq<Table>, more: seq<Table>, a: seq<KeyValue>, f: seq<KeyValue>, k: Str,
                        v: Str, now: int, now': int)
    requires s.mem == map[] && 7 < |s.levels| && s.levels[0] == rest + more
    requires (forall e :: e in Held(rest) ==> e.key != k) && (forall e :: e in Held(more) ==> e.key != k)
    requires Bears(s, 6, BatchEntries(f, now')) && Bears(s, 7, BatchEntries(a, now))
    requires forall i :: 1 <= i < |s.levels| && i != 6 && i != 7 ==> s.levels[i] == []
    requires Ascending(a) && KeyValue(k, v) in a && !HasKey(f, k)
    ensures View(s, k) == Some(v)
  {
    hide Held, TotalSize, Data, Visible, Ascending, BatchEntries;
    var e := BatchHas(a, now, k, v);
    HeldAppend(rest, more);
    HeldNone();
    var none: map<Str, Entry> := map[];
    assert none.Values == {};
    assert e in Held(s.levels[7]);
    forall g | g in AllVersions(s) && g.key == k ensures g == e {
      var i :| 0 <= i < |s.levels| && g in Held(s.levels[i]);
      if i == 6 {
        BatchLacks(f, now', k, g);
      }
    }
    OnlyVersionShown(AllVersions(s), e);
  }

  lemma BatchLacks(kvs: seq<KeyValue>, now: int, k: Str, e: Entry)
    requires !HasKey(kvs, k) && e in BatchEntries(kvs, now)
    ensures e.key != k
  {
  }

  /** The second pass. */
  lemma DeletionSinks(s: Store, a: seq<KeyValue>, f: seq<KeyValue>, k: Str, v: Str, clock: int, id: nat, t: Table,
                      more: seq<Table>, last: seq<Table>) returns (es: seq<Entry>)
    requires Quiet(s) && Tale(|s.levels|, a, f, k, v, s.threshold) && s.nextID < TWO_63 && id > 0
    requires |more| == 4 && |last| == 4 && s.levels[0] == [t] + more + last
    requires Layers(more, f, clock + |f|, id) && ClockFits(clock, 4 * |f|)
    requires Elems(t.entries) == Elems(BatchEntries(f, clock)) + {Entry(k, [], clock - 1, true)}
    requires exists now :: Bears(s, 7, BatchEntries(a, now)) && |Data(BatchEntries(a, now))| <= DeepLimit(|s.levels|, a)
    requires forall i :: 1 <= i < |s.levels| && i != 7 ==> s.levels[i] == []
    ensures Sinks(s, 6, es, BatchEntries(f, Tick(clock, |f|, 3)))
    ensures s.levels[0][4..] == more[3..] + last
  {
    hide Layers, BatchCost, HasKey, LevelSize, Sinks, Data, Bears, Accounted, Tick, Weighs, RisingIds, Pow10;
    var now :| Bears(s, 7, BatchEntries(a, now)) && |Data(BatchEntries(a, now))| <= DeepLimit(|s.levels|, a);
    forall i | 7 <= i < |s.levels| - 1 ensures Within(s, i) {
      DeepWithin(s, a, BatchEntries(a, now), i);
    }
    FirstThree(more, f, clock + |f|, id);
    assert [t] + more + last == [t] + more[..3] + (more[3..] + last);
    es := TombSinks(s, f, s.threshold, clock, id, Entry(k, [], clock - 1, true), t, more[..3], more[3..] + last);
    assert ([t] + more + last)[4..] == more[3..] + last;
  }

  /** With eight or more levels, whatever their number, a run of flushes and passes alone after which a key that
      was deleted shows its value again: the value sinks to level 7 and the deletion to level 6, which drops
      it. */
  lemma DeletedKeyResurfaces(numLevels: nat, threshold: nat, id: nat, clock: int, a: seq<KeyValue>, f: seq<KeyValue>,
                             k: Str, v: Str) returns (ops: seq<Op>, w: World)
    requires Tale(numLevels, a, f, k, v, threshold) && Pow10(DIGITS) <= id && Spare(id, clock, a, f)
    ensures Reaches(Start(numLevels, threshold, false, id, clock), ops, w)
    ensures k !in w.plain && View(w.store, k) == Some(v)
  {
    hide Reaches, Quiet, Layers, BatchCost, HasKey, LevelSize, Sinks, Data, Bears, Weighs, Start, Pow10, View, Times;
    hide BatchEntries, Tick, DeepLimit, Stocked, Housed;
    var w0 := Start(numLevels, threshold, false, id, clock);
    StartFacts(numLevels, threshold, id, clock);
    StartQuiet(numLevels, threshold, id, clock);
    Weights(numLevels, a, f, k, v, threshold);
    var ops1, w1, t, more := ValueSinks(w0, a, f, k, v);
    var ops2, w2, last := MoreFlushes(w0, ops1, w1, f, k, [t] + more);
    SameBelow(w1.store, w2.store, BatchEntries(a, Tick(clock, |a|, 3)));
    var es := DeletionSinks(w2.store, a, f, k, v, clock + 4 * |a| + 1, id + 5, t, more, last);
    ops, w := SinkReaches(w0, ops2, w2, 6, es, BatchEntries(f, Tick(clock + 4 * |a| + 1, |f|, 3)));
    FirstThreeAndRest(more, f, clock + 4 * |a| + 1 + |f|, id + 5, k);
    LayersLack(last, f, w1.clock, w1.store.nextID, k);
    SunkLevels(w2.store, w.store, es, BatchEntries(f, Tick(clock + 4 * |a| + 1, |f|, 3)),
               BatchEntries(a, Tick(clock, |a|, 3)));
    ValueResurfaces(w.store, more[3..], last, a, f, k, v, Tick(clock, |a|, 3), Tick(clock + 4 * |a| + 1, |f|, 3));
  }

  lemma Weights(n: nat, a: seq<KeyValue>, f: seq<KeyValue>, k: Str, v: Str, threshold: nat)
    requires Tale(n, a, f, k, v, threshold)
    ensures n >= 8 && Ascending(a) && Ascending(f) && threshold <= BatchCost(a) && threshold <= BatchCost(f)
    ensures Housed(a) && Housed(f)
  {
    hide Ascending, BatchCost, LevelSize, Housed;
  }

  lemma TaleKey(n: nat, a: seq<KeyValue>, f: seq<KeyValue>, k: Str, v: Str, threshold: nat)
    requires Tale(n, a, f, k, v, threshold)
    ensures |k| <= MAX_KEY
  {
    hide Ascending, BatchCost, LevelSize, MappingSize;
    assert KeyValue(k, v) in a;
  }

  lemma SameBelow(s: Store, s': Store, es: seq<Entry>)
    requires 7 < |s.levels| && Bears(s, 7, es) && |s'.levels| == |s.levels|
    requires forall i :: 1 <= i < |s.levels| ==> s'.levels[i] == s.levels[i]
    ensures Bears(s', 7, es)
  {
    hide Data, TotalSize, Held;
  }

  lemma FirstThreeAndRest(more: seq<Table>, kvs: seq<KeyValue>, clock: int, id: nat, k: Str)
    requires |more| == 4 && Layers(more, kvs, clock, id) && !HasKey(kvs, k)
    ensures forall e :: e in Held(more[3..]) ==> e.key != k
  {
    hide Layers, HasKey, Held;
    LayersLack(more, kvs, clock, id, k);
    HeldAppend(more[..3], more[3..]);
    assert more[..3] + more[3..] == more;
  }

  lemma SunkLevels(s: Store, s': Store, es: seq<Entry>, es': seq<Entry>, deep: seq<Entry>)
    requires Sunk(s, s', 6, es, es') && 7 < |s.levels| && Bears(s, 7, deep)
    requires forall i :: 1 <= i < |s.levels| && i != 7 ==> s.levels[i] == []
    ensures s'.mem == map[] && 7 < |s'.levels| && s'.levels[0] == s.levels[0][4..]
    ensures Bears(s', 6, es') && Bears(s', 7, deep)
    ensures forall i :: 1 <= i < |s'.levels| && i != 6 && i != 7 ==> s'.levels[i] == []
  {
    hide Data, TotalSize, Held, Accounted, RisingIds, Pow10, Times;
  }

  // ----- exactly when a reader sees the history -----

  ghost predicate Shows(w: World, k: Str) {
    View(w.store, k) == if k in w.plain then Some(w.plain[k]) else None
  }

  /** After every legal run from an empty directory, however its flushes end, a reader sees the plain map at every
      key but the empty one. Open makes every threshold positive. */
  ghost predicate Faithful(numLevels: nat) {
    forall threshold: nat, withLog: bool, id: nat, clock: int, ops: seq<Op>, k: Str ::
      0 < threshold && Pow10(DIGITS) <= id && k != [] &&
      LegalRun(Start(numLevels, threshold, withLog, id, clock), ops) ==>
        Shows(After(Start(numLevels, threshold, withLog, id, clock), ops), k)
  }

  lemma SevenAreFaithful(numLevels: nat)
    requires 2 <= numLevels <= 7
    ensures Faithful(numLevels)
  {
    hide LegalRun, After, Start, View, Pow10;
    forall threshold: nat, withLog: bool, id: nat, clock: int, ops: seq<Op>, k: Str |
      0 < threshold && Pow10(DIGITS) <= id && k != [] && LegalRun(Start(numLevels, threshold, withLog, id, clock), ops)
      ensures Shows(After(Start(numLevels, threshold, withLog, id, clock), ops), k)
    {
      HistoryIsVisible(numLevels, threshold, withLog, id, clock, ops, k);
    }
  }

  lemma LevelSizes()
    ensures LevelSize(BASE_LEVEL_SIZE, 5) == 0x10_0000 * 100_000
    ensures LevelSize(BASE_LEVEL_SIZE, 6) == 0x10_0000 * 1_000_000
    ensures LevelSize(BASE_LEVEL_SIZE, 7) == 0x10_0000 * 10_000_000
  {
    assert Power(10, 3) == 1000;
    assert Power(10, 5) == 100 * Power(10, 3);
    assert Power(10, 7) == 100 * Power(10, 5);
  }

  /** The number in three bytes, the highest first. */
  function Numeral(i: nat): Str
    requires i < 0x100_0000
  {
    [(i / 0x1_0000) as byte, (i / 0x100 % 0x100) as byte, (i % 0x100) as byte]
  }

  lemma NumeralRises(tag: byte, i: nat, j: nat)
    requires i < j < 0x100_0000
    ensures Less([tag] + Numeral(i), [tag] + Numeral(j))
  {
    hide Less;
    DigitsRise(i, j);
    var a, b := Numeral(i), Numeral(j);
    assert a == [a[0]] + [a[1], a[2]] && b == [b[0]] + [b[1], b[2]];
    assert [a[1], a[2]] == [a[1]] + [a[2]] && [b[1], b[2]] == [b[1]] + [b[2]];
    if a[0] == b[0] {
      if a[1] == b[1] {
        LessFirst(a[2], [], b[2], []);
        LessBehind(a[1], [a[2]], [b[2]]);
      } else {
        LessFirst(a[1], [a[2]], b[1], [b[2]]);
      }
      LessBehind(a[0], [a[1], a[2]], [b[1], b[2]]);
    } else {
      LessFirst(a[0], [a[1], a[2]], b[0], [b[1], b[2]]);
    }
    LessBehind(tag, a, b);
  }

  lemma DigitsRise(i: nat, j: nat)
    requires i < j < 0x100_0000
    ensures var a, b := Numeral(i), Numeral(j);
      a[0] < b[0] || (a[0] == b[0] && (a[1] < b[1] || (a[1] == b[1] && a[2] < b[2])))
  {
    Digits(i);
    Digits(j);
  }

  lemma Digits(i: nat)
    requires i < 0x100_0000
    ensures i == 0x1_0000 * (i / 0x1_0000) + 0x100 * (i / 0x100 % 0x100) + i % 0x100
  {
  }

  lemma LessBehind(x: byte, a: Str, b: Str)
    requires Less(a, b)
    ensures Less([x] + a, [x] + b)
  {
    assert ([x] + a)[1..] == a && ([x] + b)[1..] == b;
  }

  lemma LessFirst(x: byte, a: Str, y: byte, b: Str)
    requires x < y
    ensures Less([x] + a, [y] + b)
  {
  }

  /** `n` entries with values of 1.25 MiB, under the numbers from 0 on behind the tag. */
  function Freight(tag: byte, n: nat): seq<KeyValue>
    requires n <= 0x100_0000
  {
    seq(n, i requires 0 <= i < n => KeyValue([tag] + Numeral(i), Zeros(0x14_0000)))
  }

  lemma {:induction false} FreightCost(tag: byte, n: nat)
    requires n <= 0x100_0000
    ensures BatchCost(Freight(tag, n)) == 0x14_0014 * n
    decreases n
  {
    if n > 0 {
      FreightCost(tag, n - 1);
      assert Freight(tag, n)[..n - 1] == Freight(tag, n - 1);
    }
  }

  lemma FreightShape(tag: byte, n: nat)
    requires 0 < n <= 0x100_0000
    ensures Ascending(Freight(tag, n)) && Small(Freight(tag, n)) && Freight(tag, n)[0].key != []
    ensures forall k :: HasKey(Freight(tag, n), k) ==> k != [] && k[0] == tag
  {
    hide Less, Numeral;
    var kvs := Freight(tag, n);
    forall i, j | 0 <= i < j < |kvs| ensures Less(kvs[i].key, kvs[j].key) {
      NumeralRises(tag, i, j);
    }
    forall i: nat | i < n ensures |kvs[i].key| == 4 && |kvs[i].value| == 0x14_0000 {
      NumeralSize(i);
    }
  }

  lemma NumeralSize(i: nat)
    requires i < 0x100_0000
    ensures |Numeral(i)| == 3 && |Zeros(0x14_0000)| == 0x14_0000
  {
  }

  lemma FreightWeighs(tag: byte, n: nat, p: nat, threshold: nat, above: nat, upTo: int)
    requires 0x1000 <= n <= 0x100_0000 && MappingSize(p) && 0 < threshold <= 0x14_0014 * n
    requires p + 8 * n < 0x14_0014 * n && 0x14_0014 * n + 19 * n <= 2 * p < TWO_63
    requires above + 8 * n < 0x14_0014 * n && 0x14_0014 * n + 19 * n <= upTo
    ensures Weighs(Freight(tag, n), threshold, above, upTo)
  {
    hide Freight, BatchCost, Small, Ascending, MappingSize;
    FreightShape(tag, n);
    FreightCost(tag, n);
    FreightCount(tag, n);
  }

  lemma FreightCount(tag: byte, n: nat)
    requires n <= 0x100_0000
    ensures |Freight(tag, n)| == n
  {
  }

  /** 128 GiB and 1 TiB are sizes of a mapping. */
  lemma LargeMappings()
    ensures MappingSize(0x20_0000_0000) && MappingSize(0x100_0000_0000)
  {
    assert MappingSize(0x80_0000);
    assert MappingSize(0x100_0000);
    assert MappingSize(0x200_0000);
    assert MappingSize(0x400_0000);
    assert MappingSize(0x800_0000);
    assert MappingSize(0x1000_0000);
    assert MappingSize(0x2000_0000);
    assert MappingSize(0x4000_0000);
    assert MappingSize(0x8000_0000);
    assert MappingSize(0x1_0000_0000);
    assert MappingSize(0x2_0000_0000);
    assert MappingSize(0x4_0000_0000);
    assert MappingSize(0x8_0000_0000);
    assert MappingSize(0x10_0000_0000);
    assert MappingSize(0x20_0000_0000);
    assert MappingSize(0x40_0000_0000);
    assert MappingSize(0x80_0000_0000);
  }

  lemma FirstNumber()
    ensures Pow10(DIGITS) == 1_000_000_000_000_000_000
  {
    assert Pow10(6) == 1_000_000;
    assert Pow10(12) == 1_000_000 * Pow10(6);
    assert Pow10(18) == 1_000_000 * Pow10(12);
  }

  lemma {:induction false} TimesIs(n: nat, m: nat)
    ensures Times(n, m) == n * m
  {
    if n > 0 {
      TimesIs(n - 1, m);
    }
  }

  const MANY: nat := 0x10_0000
  const FEW: nat := 0x2_0000

  /** With more than seven levels, at the default threshold: a batch of 2^20 entries with values of 1.25 MiB, four
      times; a deletion of its first key; and a batch of 2^17 such entries, five times; a pass; the second batch
      four times more; and a pass. */
  lemma EightRun(numLevels: nat) returns (ops: seq<Op>, w: World, k: Str)
    requires 8 <= numLevels
    ensures Reaches(Start(numLevels, TARGET_SIZE, false, Pow10(DIGITS), 0), ops, w)
    ensures k != [] && k !in w.plain && View(w.store, k).Some?
  {
    hide Weighs, LevelSize, Start, Pow10, View, BatchCost, HasKey, Reaches, Freight, MappingSize;
    LevelSizes();
    FirstNumber();
    LargeMappings();
    var a, f := Freight(1, MANY), Freight(2, FEW);
    FreightCount(1, MANY);
    FreightCount(2, FEW);
    FreightCost(1, MANY);
    FreightShape(1, MANY);
    FreightShape(2, FEW);
    FreightWeighs(1, MANY, 0x100_0000_0000, TARGET_SIZE, LevelSize(BASE_LEVEL_SIZE, 6), DeepLimit(numLevels, a));
    FreightWeighs(2, FEW, 0x20_0000_0000, TARGET_SIZE, LevelSize(BASE_LEVEL_SIZE, 5), LevelSize(BASE_LEVEL_SIZE, 6));
    k := a[0].key;
    HasFirst(a);
    assert a[0] == KeyValue(k, a[0].value) && a[0] in a;
    TimesIs(7, MANY);
    ops, w := DeletedKeyResurfaces(numLevels, TARGET_SIZE, Pow10(DIGITS), 0, a, f, k, a[0].value);
  }

  lemma HasFirst(kvs: seq<KeyValue>)
    requires kvs != []
    ensures HasKey(kvs, kvs[0].key)
  {
  }

  /** A reader sees the history after every run exactly when the store has at most seven levels. */
  lemma FaithfulUpToSeven(numLevels: nat)
    requires 2 <= numLevels
    ensures Faithful(numLevels) <==> numLevels <= 7
  {
    hide Faithful, Start, Pow10, View, Reaches;
    if numLevels <= 7 {
      SevenAreFaithful(numLevels);
    } else {
      var ops, w, k := EightRun(numLevels);
      NotFaithful(numLevels, TARGET_SIZE, Pow10(DIGITS), ops, w, k);
    }
  }

  lemma NotFaithful(numLevels: nat, threshold: nat, id: nat, ops: seq<Op>, w: World, k: Str)
    requires Reaches(Start(numLevels, threshold, false, id, 0), ops, w) && Pow10(DIGITS) <= id && 0 < threshold
    requires k != [] && k !in w.plain && View(w.store, k).Some?
    ensures !Faithful(numLevels)
  {
    hide Start, LegalRun, After, Pow10, View, Reaches, DurableRun, NoFlushFails;
    ReachesWell(Start(numLevels, threshold, false, id, 0), ops, w);
    ReachesAfter(Start(numLevels, threshold, false, id, 0), ops, w);
    assert !Shows(After(Start(numLevels, threshold, false, id, 0), ops), k);
  }
}
