/** Each operation of the store keeps the invariants and shows a reader what the plain map shows. */
module LsmSteps {
  import opened Bytes
  import opened Entries
  import opened Versions
  import opened Varint
  import opened Records
  import opened Compaction
  import opened Paths
  import opened LsmModel
  import opened LsmVersions
  import opened LsmTables
  import opened LsmRoom
  import opened LsmRecovery
  import Memtable
  import WalFormat
  import Wal

  /** The versions show a reader exactly the plain map, for every key but the empty one. */
  ghost predicate Agrees(v: set<Entry>, m: map<Str, Str>) {
    forall k :: k != [] ==> Visible(v, k) == if k in m then Some(m[k]) else None
  }

  /** Every collection of versions shows a reader some plain map. */
  lemma PlainOf(v: set<Entry>) returns (m: map<Str, Str>)
    ensures Agrees(v, m)
  {
    hide Newest;
    m := map k | k in (set e | e in v :: e.key) && Visible(v, k).Some? :: Visible(v, k).value;
    forall k | Visible(v, k).Some? ensures k in m {
      assert Newest(v, k).value in v && Newest(v, k).value.key == k;
    }
  }

  /** With at most seven levels the store shows a reader the plain map. */
  ghost predicate Mirrors(s: Store, m: map<Str, Str>) {
    |s.levels| <= 7 ==> Agrees(AllVersions(s), m)
  }

  /** The store without what is in memory. */
  ghost function Base(s: Store): Store {
    s.(mem := map[])
  }

  // ----- writing -----

  /** What a list of writes makes of a plain map. */
  function PlainWrites(m: map<Str, Str>, es: seq<Entry>): map<Str, Str> {
    if es == [] then m
    else
      var e := es[|es| - 1];
      var before := PlainWrites(m, es[..|es| - 1]);
      if e.tomb then before - {e.key} else before[e.key := e.value]
  }

  lemma ClockAdvances(mem: map<Str, Entry>, levels: seq<seq<Table>>, clock: int, later: int)
    requires Versioned(mem, levels, clock) && clock <= later
    ensures Versioned(mem, levels, later)
  {
  }

  lemma {:induction false} WritesAgree(mem: map<Str, Entry>, levels: seq<seq<Table>>, clock: int, es: seq<Entry>,
                                       now: int, m: map<Str, Str>)
    requires Versioned(mem, levels, clock) && clock <= now
    requires forall i :: 0 <= i < |es| ==> es[i].ts == now + i
    requires Agrees(VersionsOf(mem, levels), m)
    ensures Versioned(ApplyAll(mem, es), levels, now + |es|)
    ensures Agrees(VersionsOf(ApplyAll(mem, es), levels), PlainWrites(m, es))
    decreases |es|
  {
    hide Versioned, Visible, VersionsOf;
    if es == [] {
      ClockAdvances(mem, levels, clock, now);
    } else {
      var n := |es| - 1;
      WritesAgree(mem, levels, clock, es[..n], now, m);
      var mem' := ApplyAll(mem, es[..n]);
      WriteOne(mem', levels, now + n, es[n], []);
      forall k | k != []
        ensures Visible(VersionsOf(ApplyAll(mem, es), levels), k)
             == if k in PlainWrites(m, es) then Some(PlainWrites(m, es)[k]) else None
      {
        WriteOne(mem', levels, now + n, es[n], k);
      }
    }
  }

  /** Consecutive timestamps from the clock on. */
  ghost predicate Stamped(es: seq<Entry>, now: int) {
    forall i :: 0 <= i < |es| ==> es[i].ts == now + i
  }

  lemma WroteOk(s: Store, clock: int, es: seq<Entry>, now: int, m: map<Str, Str>)
    requires Core(s, clock) && clock <= now && Stamped(es, now)
    ensures Core(Wrote(s, es), now + |es|)
    ensures Mirrors(s, m) ==> Mirrors(Wrote(s, es), PlainWrites(m, es))
    ensures Base(Wrote(s, es)).levels == s.levels && AllVersions(Base(Wrote(s, es))) == AllVersions(Base(s))
  {
    hide Versioned, Agrees, RisingIds, Pow10, VersionsOf, PlainWrites;
    var m' := PlainOf(AllVersions(s));
    WritesAgree(s.mem, s.levels, clock, es, now, m');
    if Agrees(AllVersions(s), m) {
      WritesAgree(s.mem, s.levels, clock, es, now, m);
    }
  }

  lemma {:induction false} WrittenValues(mem: map<Str, Entry>, es: seq<Entry>)
    requires Memtable.KeyedByKey(mem)
    ensures Memtable.KeyedByKey(ApplyAll(mem, es))
    ensures forall e :: e in ApplyAll(mem, es).Values ==> e in mem.Values || exists f :: f in es && e == Applied(f)
    decreases |es|
  {
    if es != [] {
      var n := |es| - 1;
      WrittenValues(mem, es[..n]);
      assert es[n] in es;
      Memtable.ValuesAfterUpdate(ApplyAll(mem, es[..n]), Applied(es[n]));
    }
  }

  lemma WroteStored(s: Store, es: seq<Entry>, left: set<Name>)
    requires Intact(s, left) && Memtable.KeyedByKey(s.mem) && forall e :: e in es ==> Storable(e)
    ensures Intact(Wrote(s, es), left)
  {
    hide LevelsOk, NamesDistinct, RisingIds, SizesOk, FilesOk, Pow10, WalFormat.Frame, Wal.Doubled, ApplyAll;
    WrittenValues(s.mem, es);
    if s.log.Some? {
      AppendedOk(s.log.value, WalFormat.Frame(es));
    }
  }

  // ----- flushing -----

  lemma FlushedOk(s: Store, clock: int)
    requires Core(s, clock) && s.nextID < TWO_63
    ensures Core(Flushed(s), clock) && AllVersions(Flushed(s)) == AllVersions(s)
  {
    hide RisingIds, Aged, NoTies, VersionsOf, Pow10, FilesWith, Names, DataSize, SortedMem;
    FlushedEntries(s);
    var t := FlushedTable(s);
    FlushMoves(s.mem, s.levels, t, clock);
    FlushRises(s.levels[0], t, s.nextID);
  }

  // ----- compacting -----

  lemma InputsHaveNoTies(s: Store, clock: int, p: Plan)
    requires Core(s, clock) && PlanOk(s.levels, p)
    ensures NoTies(Held(p.take + p.takeNext)) && Held(p.take + p.takeNext) == Taken(p)
  {
    hide RisingIds, Aged, Partition, Pow10, Held;
    VersionsSplit(s.mem, s.levels, p, []);
    HeldAppend(p.take, p.takeNext);
    assert Taken(p) <= VersionsOf(s.mem, s.levels);
  }

  /** One compaction, by either plan. */
  lemma CompactOk(s: Store, clock: int, p: Plan, m: map<Str, Str>, left: set<Name>)
    requires Core(s, clock) && PlanOk(s.levels, p)
    ensures Core(Compact(s, p), clock)
    ensures Mirrors(s, m) ==> Mirrors(Compact(s, p), m)
    ensures Intact(s, left) && MergeFits(s, p) ==> Intact(Compact(s, p), left)
    ensures Compact(s, p).levels == LevelsAfter(s.levels, p, PlanOutputs(s, p))
  {
    hide Versioned, Visible, Partition, Splits, Outputs, Intact, MergeFits, VersionsOf, Pow10, Held, Survivors, Taken;
    hide NoTies;
    hide Names, InputNames, FilesWith, TotalSize, BottomIsLast, Agrees;
    InputsHaveNoTies(s, clock, p);
    OutputsHold(p.take + p.takeNext, p.from + 1, s.nextID);
    var outs := PlanOutputs(s, p);
    CompactKeepsVersions(s.mem, s.levels, p, outs, clock);
    if |s.levels| <= 7 {
      CompactAgrees(s, clock, p, outs, m);
    }
    LevelZeroAfter(s.levels, p, outs, s.nextID);
    if Intact(s, left) && MergeFits(s, p) {
      CompactStored(s, p, left);
    }
  }

  lemma CompactAgrees(s: Store, clock: int, p: Plan, outs: seq<Table>, m: map<Str, Str>)
    requires Core(s, clock) && PlanOk(s.levels, p) && |s.levels| <= 7
    requires Held(outs) == Survivors(Taken(p), p.from + 1 >= BOTTOM_LEVEL)
    ensures p.from + 1 < |s.levels|
    ensures Agrees(AllVersions(s), m) ==> Agrees(VersionsOf(s.mem, LevelsAfter(s.levels, p, outs)), m)
  {
    hide Versioned, Visible, Partition, Splits, VersionsOf, Pow10, Held, Survivors, Taken, RisingIds, BottomIsLast;
    forall k | k != []
      ensures Visible(VersionsOf(s.mem, LevelsAfter(s.levels, p, outs)), k) == Visible(VersionsOf(s.mem, s.levels), k)
    {
      CompactKeepsView(s.mem, s.levels, p, outs, clock, k);
    }
  }

  lemma LevelZeroAfter(levels: seq<seq<Table>>, p: Plan, outs: seq<Table>, nextID: nat)
    requires PlanOk(levels, p) && RisingIds(levels[0]) && forall t :: t in levels[0] ==> t.id < nextID
    ensures RisingIds(LevelsAfter(levels, p, outs)[0])
    ensures forall t :: t in LevelsAfter(levels, p, outs)[0] ==> t.id < nextID + |outs|
  {
    hide RisingIds, Splits, Partition;
    if p.from == 0 {
      PartitionMembers(levels[0], p.take, p.keep);
    }
  }

  /** An operation that only reorganises: the invariants stay and a reader sees the same. */
  ghost predicate Reorganises(s: Store, s': Store, clock: int, m: map<Str, Str>, fits: bool, left: set<Name>) {
    && Core(s', clock) && (Mirrors(s, m) ==> Mirrors(s', m))
    && (Intact(s, left) && fits ==> Intact(s', left))
    && s'.mem == s.mem && s'.log == s.log && s'.threshold == s.threshold
    && |s'.levels| == |s.levels|
  }

  lemma CompactL0Ok(s: Store, clock: int, m: map<Str, Str>, left: set<Name>)
    requires Core(s, clock)
    ensures Reorganises(s, CompactL0(s), clock, m, L0Fits(s), left)
  {
    hide Core, Intact, PlanOk, Mirrors, MergeFits, PlanL0, PlanOutputs;
    CoreLevels(s, clock);
    if s.levels[0] != [] {
      var n := PlanL0Ok(s, clock);
      CompactOk(s, clock, PlanL0(s), m, left);
      CompactFields(s, PlanL0(s));
    }
  }

  lemma CoreLevels(s: Store, clock: int)
    requires Core(s, clock)
    ensures 2 <= |s.levels| == |s.sizes|
  {
  }

  lemma CompactFields(s: Store, p: Plan)
    ensures var s' := Compact(s, p);
      s'.mem == s.mem && s'.log == s.log && s'.threshold == s.threshold && |s'.levels| == |s.levels|
      && |s'.sizes| == |s.sizes|
  {
    hide PlanOutputs;
  }

  /** One step of the cascade. */
  lemma CascadeStep(s: Store, level: nat)
    requires 1 <= level && level + 1 < |s.levels| && |s.sizes| == |s.levels| && s.levels[level] != []
    ensures var p := PlanLevel(s, level); var s1 := Compact(s, p);
      && (LevelFits(s, level) ==> MergeFits(s, p))
      && (CompactLevel(s, level) == s1
          || (CompactLevel(s, level) == CompactLevel(s1, level + 1)
              && (LevelFits(s, level) ==> LevelFits(s1, level + 1))))
  {
    hide Compact, LevelSize, MergeFits;
    CompactCounts(s, PlanLevel(s, level));
  }

  lemma {:induction false} CompactLevelOk(s: Store, level: nat, clock: int, m: map<Str, Str>,
                                           left: set<Name>)
    requires Core(s, clock)
    ensures Reorganises(s, CompactLevel(s, level), clock, m, LevelFits(s, level), left)
    decreases |s.levels| - level
  {
    hide Core, Intact, PlanOk, Mirrors, MergeFits, Compact, CompactLevel, LevelFits;
    CoreLevels(s, clock);
    if level < 1 || level + 1 >= |s.levels| || s.levels[level] == [] {
      NothingMoves(s, level);
    } else {
      var p := PlanLevel(s, level);
      PlanLevelOk(s.levels, s, level);
      CompactOk(s, clock, p, m, left);
      CompactFields(s, p);
      CascadeStep(s, level);
      CompactLevelOk(Compact(s, p), level + 1, clock, m, left);
    }
  }

  lemma NothingMoves(s: Store, level: nat)
    requires level < 1 || level + 1 >= |s.levels| || s.levels[level] == []
    ensures CompactLevel(s, level) == s
  {
  }

  lemma {:induction false} LoopLevelsOk(s: Store, level: nat, clock: int, m: map<Str, Str>,
                                         left: set<Name>)
    requires Core(s, clock)
    ensures Reorganises(s, LoopLevels(s, level), clock, m, LoopFits(s, level), left)
    decreases |s.levels| - level
  {
    hide Core, Intact, Mirrors, CompactLevel, LevelFits;
    CoreLevels(s, clock);
    if level + 1 < |s.levels| {
      CompactLevelOk(s, level, clock, m, left);
      var s1 := if s.sizes[level] > LevelSize(BASE_LEVEL_SIZE, level) then CompactLevel(s, level) else s;
      LoopLevelsOk(s1, level + 1, clock, m, left);
    }
  }

  lemma LoopPassOk(s: Store, clock: int, m: map<Str, Str>, left: set<Name>)
    requires Core(s, clock)
    ensures Reorganises(s, LoopPass(s), clock, m, PassFits(s), left)
  {
    hide Core, Intact, Mirrors, CompactL0, LoopLevels, LoopFits, L0Fits;
    CoreLevels(s, clock);
    CompactL0Ok(s, clock, m, left);
    var s1 := if |s.levels[0]| > MAX_L0_FILES then CompactL0(s) else s;
    LoopLevelsOk(s1, 1, clock, m, left);
  }

  // ----- the levels alone -----

  lemma BaseCore(s: Store, clock: int)
    requires Core(s, clock)
    ensures Core(Base(s), clock)
  {
    hide Held, InOrder, RisingIds, Pow10;
    var none: map<Str, Entry> := map[];
    assert none.Values == {};
    assert AllVersions(Base(s)) <= AllVersions(s);
  }

  lemma CompactBase(s: Store, p: Plan)
    ensures Compact(Base(s), p) == Base(Compact(s, p))
  {
    hide Outputs, TotalSize, Names, FilesWith, InputNames;
  }

  lemma CompactL0Base(s: Store)
    ensures CompactL0(Base(s)) == Base(CompactL0(s))
  {
    hide Compact, ByPath, Smallest, Greatest, Overlapping, NotOverlapping;
    if |s.levels| >= 2 && s.levels[0] != [] {
      CompactBase(s, PlanL0(s));
    }
  }

  lemma {:induction false} CompactLevelBase(s: Store, level: nat)
    ensures CompactLevel(Base(s), level) == Base(CompactLevel(s, level))
    decreases |s.levels| - level
  {
    hide Compact, LevelSize;
    if !(level < 1 || level + 1 >= |s.levels| || |s.sizes| != |s.levels| || s.levels[level] == []) {
      CompactBase(s, PlanLevel(s, level));
      CompactCounts(s, PlanLevel(s, level));
      CompactLevelBase(Compact(s, PlanLevel(s, level)), level + 1);
    }
  }

  lemma {:induction false} LoopLevelsBase(s: Store, level: nat)
    ensures LoopLevels(Base(s), level) == Base(LoopLevels(s, level))
    decreases |s.levels| - level
  {
    hide CompactLevel, LevelSize;
    if !(level + 1 >= |s.levels| || |s.sizes| != |s.levels|) {
      CompactLevelBase(s, level);
      CompactLevelShape(s, level);
      var over := s.sizes[level] > LevelSize(BASE_LEVEL_SIZE, level);
      LoopLevelsBase(if over then CompactLevel(s, level) else s, level + 1);
    }
  }

  lemma LoopPassBase(s: Store)
    ensures LoopPass(Base(s)) == Base(LoopPass(s))
  {
    hide CompactL0, LoopLevels;
    CompactL0Base(s);
    LoopLevelsBase(if |s.levels| > 0 && |s.levels[0]| > MAX_L0_FILES then CompactL0(s) else s, 1);
  }

  // ----- how a flush ends -----

  /** A flush that is done empties memtable and log and shows a reader the same. */
  lemma FlushOk(s: Store, clock: int, m: map<Str, Str>, left: set<Name>)
    requires Core(s, clock) && s.nextID < TWO_63 && s.mem != map[] && FlushEnds(s) == Done
    ensures Core(Flush(s), clock) && (Mirrors(s, m) ==> Mirrors(Flush(s), m))
    ensures Intact(s, left) && FlushFits(s) && FlushMergesFit(s) ==> Intact(Flush(s), left)
    ensures Flush(s).mem == map[] && Flush(s).log == if s.log.Some? then Some(Wal.Fresh()) else None
  {
    hide Core, Intact, Mirrors, FlushFits, CompactL0, Flushed, FlushEnds, L0Fits;
    CoreLevels(s, clock);
    FlushedOk(s, clock);
    FlushedFields(s);
    if Mirrors(s, m) {
      FlushedMirrors(s, m);
    }
    CompactL0Ok(Flushed(s), clock, m, left);
    if Intact(s, left) && FlushFits(s) {
      CoreKeyed(s, clock);
      FlushStored(s, left);
    }
  }

  lemma FlushedMirrors(s: Store, m: map<Str, Str>)
    requires AllVersions(Flushed(s)) == AllVersions(s) && Mirrors(s, m) && |s.levels| > 0 && |s.sizes| > 0
    ensures Mirrors(Flushed(s), m)
  {
    hide Agrees, VersionsOf, FlushedTable, FilesWith;
  }

  /** A flush that fails leaves what the levels held; one that panics leaves everything for as long as the
      process has it. */
  lemma FlushEndsOtherwise(s: Store, clock: int)
    requires Core(s, clock) && s.nextID < TWO_63 && FlushEnds(s) != Done
    ensures Core(Flush(s), clock) && Flush(s).levels == s.levels && Flush(s).sizes == s.sizes
    ensures FlushEnds(s) == Failed ==>
              Flush(s).mem == map[] && Flush(s).log == if s.log.Some? then Some(Wal.Fresh()) else None
    ensures FlushEnds(s) == Failed ==> AllVersions(Flush(s)) == AllVersions(Base(s))
    ensures FlushEnds(s) != Failed ==> Flush(s).mem == s.mem && AllVersions(Flush(s)) == AllVersions(s)
  {
    hide FlushEnds, Versioned, RisingIds, Pow10, VersionsOf, FlushClosed;
    BaseCore(s, clock);
    if s.mem == map[] {
      NothingFlushed(s);
    }
  }

  lemma NothingFlushed(s: Store)
    requires s.mem == map[]
    ensures FlushEnds(s) == Done && Flush(s) == s
  {
  }

  lemma CoreKeyed(s: Store, clock: int)
    requires Core(s, clock)
    ensures Memtable.KeyedByKey(s.mem)
  {
  }

  lemma FlushedFields(s: Store)
    requires |s.levels| > 0 && |s.sizes| > 0
    ensures Flushed(s).mem == map[] && Flushed(s).log == if s.log.Some? then Some(Wal.Fresh()) else None
  {
    hide FlushedTable, FilesWith;
  }
}
