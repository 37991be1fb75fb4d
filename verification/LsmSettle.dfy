/** Level sizes: the accounting is exact in every reachable store, and a background pass leaves every
    level but the last within its limit. */
module LsmSettle {
  import opened Entries
  import opened Compaction
  import opened Paths
  import opened LsmModel
  import opened LsmTables
  import opened LsmSteps
  import opened LsmLevelZero
  import opened LsmRuns
  import opened LsmRestarts
  import Memtable

  /** The size kept for each level is the sum over its tables. */
  ghost predicate Accounted(s: Store) {
    SizesOk(s.sizes, s.levels)
  }

  ghost predicate Within(s: Store, i: nat) {
    i < |s.sizes| && s.sizes[i] <= LevelSize(BASE_LEVEL_SIZE, i)
  }

  lemma NoTablesNoSize()
    ensures TotalSize([]) == 0
  {
  }

  lemma MoveDownAccounts(s: Store, level: nat)
    requires Accounted(s) && level + 1 < |s.levels|
    ensures var s' := Compact(s, PlanLevel(s, level));
      Accounted(s') && |s'.levels| == |s.levels| && s'.sizes[level] == 0
      && forall i :: 0 <= i < level ==> s'.sizes[i] == s.sizes[i]
  {
    hide TotalSize, PlanOutputs, Names, FilesWith, InputNames;
    NoTablesNoSize();
    var p := PlanLevel(s, level);
    assert [] + PlanOutputs(s, p) == PlanOutputs(s, p);
  }

  /** compactLevel empties its level and leaves the levels above alone, however far it cascades. */
  lemma {:induction false} CompactLevelEmpties(s: Store, level: nat)
    requires Accounted(s) && 1 <= level && level + 1 < |s.levels|
    ensures var s' := CompactLevel(s, level);
      Accounted(s') && |s'.levels| == |s.levels| && s'.sizes[level] == 0
      && forall i :: 0 <= i < level ==> s'.sizes[i] == s.sizes[i]
    decreases |s.levels| - level
  {
    hide TotalSize, PlanOutputs, Compact;
    NoTablesNoSize();
    if s.levels[level] != [] {
      MoveDownAccounts(s, level);
      var s1 := Compact(s, PlanLevel(s, level));
      if level + 2 < |s.levels| {
        CompactLevelEmpties(s1, level + 1);
      }
    }
  }

  /** compactLevel leaves no level above its limit that it fills: neither the next one nor any it cascades into, but
      for the last. */
  lemma {:induction false} CompactLevelSettles(s: Store, level: nat)
    requires Accounted(s) && 1 <= level && level + 1 < |s.levels| && s.levels[level] != []
    ensures forall i :: level < i < |s.levels| - 1 && (i == level + 1 || Within(s, i)) ==>
              Within(CompactLevel(s, level), i)
    decreases |s.levels| - level
  {
    hide TotalSize, PlanOutputs, LevelSize, Compact;
    MoveDownAccounts(s, level);
    MoveDownBelow(s, level);
    var s1 := Compact(s, PlanLevel(s, level));
    if level + 2 < |s.levels| && !Within(s1, level + 1) {
      NoTablesNoSize();
      CompactLevelEmpties(s1, level + 1);
      CompactLevelSettles(s1, level + 1);
    }
  }

  lemma MoveDownBelow(s: Store, level: nat)
    requires level + 1 < |s.levels| && |s.sizes| == |s.levels|
    ensures forall i :: level + 1 < i < |s.levels| ==> Compact(s, PlanLevel(s, level)).sizes[i] == s.sizes[i]
  {
    hide TotalSize, PlanOutputs, Names, FilesWith, InputNames;
  }

  /** compactLevel does nothing to a level it refuses. */
  lemma CompactLevelRefuses(s: Store, level: nat)
    requires level < 1 || level + 1 >= |s.levels|
    ensures CompactLevel(s, level) == s
  {
  }

  lemma {:induction false} LoopLevelsSettle(s: Store, level: nat)
    requires Accounted(s) && 1 <= level && forall i :: 1 <= i < level && i + 1 < |s.levels| ==> Within(s, i)
    ensures var s' := LoopLevels(s, level);
      Accounted(s') && |s'.levels| == |s.levels| && forall i :: 1 <= i < |s.levels| - 1 ==> Within(s', i)
    decreases |s.levels| - level
  {
    hide TotalSize, CompactLevel, LevelSize;
    if level + 1 < |s.levels| {
      CompactLevelEmpties(s, level);
      var s1 := if s.sizes[level] > LevelSize(BASE_LEVEL_SIZE, level) then CompactLevel(s, level) else s;
      forall i | 1 <= i < level + 1 ensures Within(s1, i) {
        assert i < level ==> Within(s, i);
      }
      LoopLevelsSettle(s1, level + 1);
    }
  }

  lemma CompactL0Accounts(s: Store)
    requires Accounted(s)
    ensures Accounted(CompactL0(s)) && |CompactL0(s).levels| == |s.levels|
  {
    hide Partition, TotalSize, PlanOutputs, PlanL0, SizesOk, Names, FilesWith, InputNames;
    SizesCount(s.sizes, s.levels);
    CompactL0Count(s);
    if |s.levels| >= 2 && s.levels[0] != [] {
      PlanL0Parts(s);
      SizesAfter(s.sizes, s.levels, PlanL0(s), PlanOutputs(s, PlanL0(s)));
    }
  }

  /** After a background pass over any store with exact sizes every level from 1 to the last but one is within
      its limit. */
  lemma PassSettles(s: Store)
    requires Accounted(s)
    ensures Accounted(LoopPass(s)) && |LoopPass(s).levels| == |s.levels|
    ensures forall i :: 1 <= i < |s.levels| - 1 ==> Within(LoopPass(s), i)
  {
    hide Accounted, LoopLevels, CompactL0, LevelSize;
    CompactL0Accounts(s);
    LoopLevelsSettle(if |s.levels| > 0 && |s.levels[0]| > MAX_L0_FILES then CompactL0(s) else s, 1);
  }

  lemma {:induction false} LoopRests(s: Store, level: nat)
    requires |s.sizes| == |s.levels| && forall i :: level <= i < |s.levels| - 1 ==> Within(s, i)
    ensures LoopLevels(s, level) == s
    decreases |s.levels| - level
  {
    hide CompactLevel, LevelSize;
    if level + 1 < |s.levels| {
      assert Within(s, level);
      LoopRests(s, level + 1);
    }
  }

  /** A pass does nothing exactly when level 0 is no longer than it may be and each level from 1 to the last but
      one is within its limit. */
  lemma PassRests(s: Store, clock: int)
    requires Core(s, clock) && Accounted(s)
    ensures LoopPass(s) == s <==> |s.levels[0]| <= 8 && forall i :: 1 <= i < |s.levels| - 1 ==> Within(s, i)
  {
    hide Core, CompactL0, LoopLevels, LoopPass, Within;
    CoreLevels(s, clock);
    PassIs(s);
    PassTakes(s, clock);
    PassSettles(s);
    if |s.levels[0]| <= 8 && forall i :: 1 <= i < |s.levels| - 1 ==> Within(s, i) {
      LoopRests(s, 1);
    }
  }

  // ----- over whole runs -----

  /** Whichever way a flush ends, the sizes stay exact. */
  lemma FlushAccounts(s: Store)
    requires Accounted(s)
    ensures Accounted(Flush(s))
  {
    hide TotalSize, DataSize, CompactL0, FlushedTable, FlushEnds, FlushClosed, FilesWith;
    if s.mem != map[] && FlushEnds(s).Done? {
      if |s.levels| > 0 {
        FlushSizes(s.sizes, s.levels, FlushedTable(s));
      }
      CompactL0Accounts(Flushed(s));
    }
  }

  lemma OperationAccounts(s: Store, op: Op)
    requires Accounted(s) && !op.Restart?
    ensures Accounted(Run1(s, op))
  {
    hide Accounted, Flush, CompactL0, CompactLevel, LoopPass, Wrote, Memtable.TotalCost;
    match op
    case Put(kvs, now) =>
      WroteSizes(s, Writes(op));
      FlushAccounts(Wrote(s, Writes(op)));
    case Del(key, now) => WroteSizes(s, Writes(op));
    case FlushMem => FlushAccounts(s);
    case L0ToL1 => CompactL0Accounts(s);
    case LevelDown(level) =>
      if level < 1 || level + 1 >= |s.levels| {
        CompactLevelRefuses(s, level);
      } else {
        CompactLevelEmpties(s, level);
      }
    case Pass => PassSettles(s);
  }

  lemma WroteSizes(s: Store, es: seq<Entry>)
    requires Accounted(s)
    ensures Accounted(Wrote(s, es))
  {
    hide SizesOk;
  }

  lemma {:induction false} RunAccounts(w: World, ops: seq<Op>)
    requires LegalRun(w, ops) && Accounted(w.store)
    ensures Accounted(After(w, ops).store)
    decreases |ops|
  {
    hide MergesFit, Accounted, Run1, Ends, NextTrust;
    if ops != [] {
      RunAccounts(w, ops[..|ops| - 1]);
      OperationAccounts(After(w, ops[..|ops| - 1]).store, ops[|ops| - 1]);
    }
  }

  /** In every reachable store, whatever the keys and values, the number of levels and the ends of the flushes,
      the level sizes are exact, and one more background pass brings every level from 1 to the last but one
      within its limit. */
  lemma HistorySettles(numLevels: nat, threshold: nat, withLog: bool, id: nat, clock: int, ops: seq<Op>)
    requires LegalRun(Start(numLevels, threshold, withLog, id, clock), ops)
    ensures var s := After(Start(numLevels, threshold, withLog, id, clock), ops).store;
      Accounted(s) && forall i :: 1 <= i < |s.levels| - 1 ==> Within(LoopPass(s), i)
  {
    hide LegalRun, After, LoopPass, Within;
    var w := Start(numLevels, threshold, withLog, id, clock);
    assert Accounted(w.store) by { NoTablesNoSize(); }
    RunAccounts(w, ops);
    PassSettles(After(w, ops).store);
  }

  /** So it is in runs with restarts. */
  lemma RestartsSettle(numLevels: nat, threshold: nat, withLog: bool, id: nat, clock: int, ops: seq<Op>)
    requires 2 <= numLevels && Pow10(DIGITS) <= id
    requires DurableRun(Start(numLevels, threshold, withLog, id, clock), ops)
    ensures var s := After(Start(numLevels, threshold, withLog, id, clock), ops).store;
      Accounted(s) && forall i :: 1 <= i < |s.levels| - 1 ==> Within(LoopPass(s), i)
  {
    hide Refines, DurableRun, After, Start, LoopPass, Within, Stored, Trusted;
    var w := Start(numLevels, threshold, withLog, id, clock);
    StartSurvives(numLevels, threshold, withLog, id, clock);
    RunSurvives(w, ops);
    StoredAccounts(After(w, ops).store);
    PassSettles(After(w, ops).store);
  }

  lemma StoredAccounts(s: Store)
    requires Stored(s)
    ensures Accounted(s)
  {
    hide LevelsOk, NamesDistinct, RisingIds, SizesOk, FilesOk, Pow10;
  }
}
