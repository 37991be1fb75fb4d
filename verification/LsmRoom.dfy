/** Whether the merges of an operation fit their files' mappings, cascades included, and a bound on entries
    under which they always do. */
module LsmRoom {
  import opened Entries
  import opened Versions
  import opened Varint
  import opened Records
  import opened TableFormat
  import opened TableLookup
  import opened TableLimits
  import opened Sstable
  import opened Compaction
  import opened Chunks
  import opened LsmModel
  import opened LsmVersions
  import opened LsmTables

  // ----- what has to fit -----

  ghost predicate L0Fits(s: Store) {
    2 <= |s.levels| && s.levels[0] != [] ==> MergeFits(s, PlanL0(s))
  }

  /** A merge whose counts fit an int leaves only files that open exactly when its outputs fit. */
  lemma MergeOpens(s: Store, p: Plan)
    requires NoTies(Held(p.take + p.takeNext)) && forall t :: t in p.take + p.takeNext ==> AllStorable(t.entries)
    requires forall t :: t in PlanOutputs(s, p) ==>
               |t.entries| < TWO_63 && |FileBytes(t.entries, STEP, ENTRIES_PER_CHUNK)| < TWO_63
    ensures MergeFits(s, p)
       <==> forall t :: t in PlanOutputs(s, p) ==> ResultOf(CloseOf(t.entries, STEP, ENTRIES_PER_CHUNK)) == Done
  {
    hide FileBytes, HasRoom, Survivors, SortedEntries, ChunksOf, Storable, Held, NoTies, CloseOf, TableFormat.Open;
    var es := SortedEntries(Survivors(Held(p.take + p.takeNext), p.from + 1 >= BOTTOM_LEVEL));
    SurvivorsStorable(p.take + p.takeNext, p.from + 1 >= BOTTOM_LEVEL);
    ChunksSorted(es);
    forall t | t in PlanOutputs(s, p)
      ensures HasRoom(t.entries, STEP, ENTRIES_PER_CHUNK)
         <==> ResultOf(CloseOf(t.entries, STEP, ENTRIES_PER_CHUNK)) == Done
    {
      var i :| 0 <= i < |PlanOutputs(s, p)| && PlanOutputs(s, p)[i] == t;
      assert t.entries == ChunksOf(es)[i] && ChunksOf(es)[i] in ChunksOf(es);
      ClosedOpens(t.entries, STEP, ENTRIES_PER_CHUNK, false);
    }
  }

  /** compactLevel and its cascade. */
  ghost predicate LevelFits(s: Store, level: nat)
    decreases |s.levels| - level
  {
    1 <= level && level + 1 < |s.levels| && |s.sizes| == |s.levels| && s.levels[level] != [] ==>
      && MergeFits(s, PlanLevel(s, level))
      && var s1 := Compact(s, PlanLevel(s, level));
         CompactCounts(s, PlanLevel(s, level));
         (s1.sizes[level + 1] > LevelSize(BASE_LEVEL_SIZE, level + 1) && level + 2 < |s.levels| ==>
            LevelFits(s1, level + 1))
  }

  ghost predicate LoopFits(s: Store, level: nat)
    decreases |s.levels| - level
  {
    level + 1 < |s.levels| && |s.sizes| == |s.levels| ==>
      var over := s.sizes[level] > LevelSize(BASE_LEVEL_SIZE, level);
      CompactLevelShape(s, level);
      (over ==> LevelFits(s, level)) && LoopFits(if over then CompactLevel(s, level) else s, level + 1)
  }

  ghost predicate PassFits(s: Store) {
    var over := |s.levels| > 0 && |s.levels[0]| > MAX_L0_FILES;
    (over ==> L0Fits(s)) && LoopFits(if over then CompactL0(s) else s, 1)
  }

  /** The compaction behind a flush. */
  ghost predicate RelieveFits(s: Store) {
    |s.levels| > 0 && |s.levels[0]| > MAX_L0_FILES * 2 ==> L0Fits(s)
  }

  ghost predicate FlushMergesFit(s: Store) {
    s.mem != map[] && FlushEnds(s) == Done ==> RelieveFits(Flushed(s))
  }

  // ----- bounded entries -----

  /** Every table holds entries within the bounds. */
  ghost predicate Stocked(s: Store) {
    forall i, t :: 0 <= i < |s.levels| && t in s.levels[i] ==> AllBounded(t.entries)
  }

  lemma BoundedMergeFits(s: Store, p: Plan)
    requires forall t :: t in p.take + p.takeNext ==> AllBounded(t.entries)
    ensures MergeFits(s, p)
  {
    hide FileBytes, HasRoom, Survivors, SortedEntries, ChunksOf, Bounded, Held, NoTies, Writable;
    var v := Held(p.take + p.takeNext);
    if NoTies(v) {
      var es := SortedEntries(Survivors(v, p.from + 1 >= BOTTOM_LEVEL));
      SurvivorsBounded(p.take + p.takeNext, p.from + 1 >= BOTTOM_LEVEL);
      ChunksWritable(es);
      ChunksFit(es);
      forall t | t in PlanOutputs(s, p)
        ensures |t.entries| < TWO_63 && |FileBytes(t.entries, STEP, ENTRIES_PER_CHUNK)| < TWO_63
        ensures HasRoom(t.entries, STEP, ENTRIES_PER_CHUNK)
      {
        var i :| 0 <= i < |PlanOutputs(s, p)| && PlanOutputs(s, p)[i] == t;
        assert t.entries == ChunksOf(es)[i] && ChunksOf(es)[i] in ChunksOf(es);
        WritableCounts(t.entries);
      }
    }
  }

  lemma WritableCounts(es: seq<Entry>)
    requires Writable(es, STEP, ENTRIES_PER_CHUNK)
    ensures |es| < TWO_63 && |FileBytes(es, STEP, ENTRIES_PER_CHUNK)| < TWO_63
  {
    hide FileBytes;
  }

  lemma SurvivorsBounded(ts: seq<Table>, bottom: bool)
    requires NoTies(Held(ts)) && forall t :: t in ts ==> AllBounded(t.entries)
    ensures AllBounded(SortedEntries(Survivors(Held(ts), bottom)))
  {
    hide Bounded, SortedEntries;
    forall e | e in SortedEntries(Survivors(Held(ts), bottom)) ensures Bounded(e) {
      assert e in Elems(SortedEntries(Survivors(Held(ts), bottom))) && e in Held(ts);
      var t :| t in ts && e in t.entries;
    }
  }

  lemma OutputsBounded(inputs: seq<Table>, level: nat, id: nat)
    requires forall t :: t in inputs ==> AllBounded(t.entries)
    ensures forall t :: t in Outputs(inputs, level, id) ==> AllBounded(t.entries)
  {
    hide Bounded, SortedEntries, Survivors, ChunksOf, Held, NoTies;
    if NoTies(Held(inputs)) {
      SurvivorsBounded(inputs, level >= BOTTOM_LEVEL);
      var es := SortedEntries(Survivors(Held(inputs), level >= BOTTOM_LEVEL));
      ChunksJoin(es);
      JoinedMembers(ChunksOf(es));
      forall t | t in Outputs(inputs, level, id) ensures AllBounded(t.entries) {
        var i :| 0 <= i < |Outputs(inputs, level, id)| && Outputs(inputs, level, id)[i] == t;
        assert t.entries == ChunksOf(es)[i] && ChunksOf(es)[i] in ChunksOf(es);
      }
    }
  }

  /** The plan's tables are tables of its two levels. */
  ghost predicate Drawn(s: Store, p: Plan) {
    && p.from + 1 < |s.levels|
    && (forall t :: t in p.take || t in p.keep ==> t in s.levels[p.from])
    && forall t :: t in p.takeNext || t in p.keepNext ==> t in s.levels[p.from + 1]
  }

  lemma StockedFits(s: Store, p: Plan)
    requires Stocked(s) && Drawn(s, p)
    ensures MergeFits(s, p)
  {
    hide Bounded, MergeFits;
    BoundedMergeFits(s, p);
  }

  lemma CompactStocked(s: Store, p: Plan)
    requires Stocked(s) && Drawn(s, p)
    ensures Stocked(Compact(s, p))
  {
    hide AllBounded, Outputs, TotalSize, Names, FilesWith, InputNames;
    if |s.sizes| == |s.levels| {
      OutputsBounded(p.take + p.takeNext, p.from + 1, s.nextID);
    }
  }

  lemma PlanL0Within(s: Store)
    requires 2 <= |s.levels| && s.levels[0] != []
    ensures Drawn(s, PlanL0(s))
  {
    hide PlanL0, Partition;
    var p := PlanL0(s);
    PlanL0Parts(s);
    PartitionMembers(s.levels[0], p.take, p.keep);
    PartitionMembers(s.levels[1], p.takeNext, p.keepNext);
  }

  lemma StockedL0(s: Store)
    requires Stocked(s)
    ensures L0Fits(s) && Stocked(CompactL0(s))
  {
    hide Stocked, Drawn, PlanL0, Compact, MergeFits;
    if 2 <= |s.levels| && s.levels[0] != [] {
      PlanL0Within(s);
      StockedFits(s, PlanL0(s));
      CompactStocked(s, PlanL0(s));
    }
  }

  lemma {:induction false} StockedLevel(s: Store, level: nat)
    requires Stocked(s)
    ensures LevelFits(s, level) && Stocked(CompactLevel(s, level))
    decreases |s.levels| - level
  {
    hide Stocked, Compact, LevelSize, MergeFits;
    if 1 <= level && level + 1 < |s.levels| && |s.sizes| == |s.levels| && s.levels[level] != [] {
      var p := PlanLevel(s, level);
      CompactCounts(s, p);
      StockedFits(s, p);
      CompactStocked(s, p);
      StockedLevel(Compact(s, p), level + 1);
    }
  }

  lemma {:induction false} StockedLoop(s: Store, level: nat)
    requires Stocked(s)
    ensures LoopFits(s, level) && Stocked(LoopLevels(s, level))
    decreases |s.levels| - level
  {
    hide Stocked, CompactLevel, LevelSize, LevelFits;
    if level + 1 < |s.levels| && |s.sizes| == |s.levels| {
      CompactLevelShape(s, level);
      StockedLevel(s, level);
      StockedLoop(if s.sizes[level] > LevelSize(BASE_LEVEL_SIZE, level) then CompactLevel(s, level) else s, level + 1);
    }
  }

  /** When all tables hold entries within the bounds, every merge of a pass fits. */
  lemma StockedPass(s: Store)
    requires Stocked(s)
    ensures PassFits(s) && Stocked(LoopPass(s))
  {
    hide Stocked, CompactL0, LoopLevels, LoopFits, L0Fits;
    StockedL0(s);
    StockedLoop(if |s.levels| > 0 && |s.levels[0]| > MAX_L0_FILES then CompactL0(s) else s, 1);
  }

  lemma StockedFlushed(s: Store)
    requires Stocked(s) && forall e :: e in SortedMem(s.mem) ==> Bounded(e)
    ensures Stocked(Flushed(s))
  {
    hide SortedMem, Bounded, FilesWith, Names, DataSize;
  }

  lemma StockedFlush(s: Store)
    requires Stocked(s) && forall e :: e in SortedMem(s.mem) ==> Bounded(e)
    ensures FlushMergesFit(s) && Stocked(Flush(s))
  {
    hide SortedMem, Bounded, Flushed, CompactL0, L0Fits, FlushEnds, FlushClosed;
    StockedFlushed(s);
    StockedL0(Flushed(s));
  }
}
