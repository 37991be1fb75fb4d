/** Level 0: how many tables a compaction takes from it, which stay, and how long it gets. */
module LsmLevelZero {
  import opened Compaction
  import opened TableLimits
  import opened Paths
  import opened LsmModel
  import opened LsmTables
  import opened LsmSteps
  import opened LsmRuns
  import opened LsmRestarts
  import Memtable
  import Varint

  // ----- what lower levels leave alone -----

  /** Level 0 is left alone. */
  ghost predicate SameTop(s: Store, s': Store) {
    |s'.levels| == |s.levels| && s'.threshold == s.threshold && (|s.levels| > 0 ==> s'.levels[0] == s.levels[0])
  }

  lemma {:induction false} CompactLevelBelow(s: Store, level: nat)
    ensures SameTop(s, CompactLevel(s, level))
    decreases |s.levels| - level
  {
    hide PlanOutputs, TotalSize, Names, FilesWith, InputNames, LevelSize;
    if 1 <= level && level + 1 < |s.levels| && |s.sizes| == |s.levels| && s.levels[level] != [] {
      CompactLevelBelow(Compact(s, PlanLevel(s, level)), level + 1);
    }
  }

  lemma {:induction false} LoopBelow(s: Store, level: nat)
    ensures SameTop(s, LoopLevels(s, level))
    decreases |s.levels| - level
  {
    hide CompactLevel, LevelSize;
    if level + 1 < |s.levels| && |s.sizes| == |s.levels| {
      CompactLevelBelow(s, level);
      LoopBelow(if s.sizes[level] > LevelSize(BASE_LEVEL_SIZE, level) then CompactLevel(s, level) else s, level + 1);
    }
  }

  // ----- what a compaction takes -----

  /** Of more than eight level-0 tables compactL0ToL1 takes four, of fewer half, but at least one; what stays in
      level 0 are the newest. */
  lemma CompactL0Takes(s: Store, clock: int)
    requires Core(s, clock) && s.levels[0] != []
    ensures |CompactL0(s).levels| == |s.levels| > 0
    ensures var n := |s.levels[0]|; var taken := if n > 8 then 4 else if n == 1 then 1 else n / 2;
      CompactL0(s).levels[0] == s.levels[0][taken..] && |CompactL0(s).levels[0]| == n - taken
  {
    hide Core, PlanOk, PlanOutputs, PlanL0, TotalSize, Names, FilesWith, InputNames;
    CoreLevels(s, clock);
    CompactL0Count(s);
    var n := PlanL0Ok(s, clock);
    PlanL0From(s);
  }

  lemma PlanL0From(s: Store)
    requires 2 <= |s.levels| && s.levels[0] != []
    ensures PlanL0(s).from == 0
  {
    hide ByPath, Smallest, Greatest, Overlapping, NotOverlapping;
  }

  /** A background pass takes four tables from level 0 when there are more than eight, the oldest, and none
      otherwise. */
  lemma PassTakes(s: Store, clock: int)
    requires Core(s, clock)
    ensures |LoopPass(s).levels| == |s.levels| > 0
    ensures var n := |s.levels[0]|;
      LoopPass(s).levels[0] == (if n > 8 then s.levels[0][4..] else s.levels[0])
      && |LoopPass(s).levels[0]| == if n > 8 then n - 4 else n
    ensures LoopPass(s).threshold == s.threshold
  {
    hide Core, CompactL0, LoopLevels, LoopPass;
    CoreLevels(s, clock);
    CompactL0Count(s);
    CompactL0Threshold(s);
    PassIs(s);
    if |s.levels[0]| > 8 {
      CompactL0Takes(s, clock);
      LoopBelow(CompactL0(s), 1);
    } else {
      LoopBelow(s, 1);
    }
  }

  lemma PassIs(s: Store)
    requires |s.levels| > 0
    ensures LoopPass(s) == LoopLevels(if |s.levels[0]| > 8 then CompactL0(s) else s, 1)
  {
    hide CompactL0, LoopLevels;
  }

  /** A flush that is done puts its table behind the others of level 0, and when they are more than sixteen then,
      the four oldest leave it. */
  lemma FlushTakes(s: Store, clock: int)
    requires Core(s, clock) && s.nextID < Varint.TWO_63 && s.mem != map[] && FlushEnds(s) == Done
    ensures |Flush(s).levels| == |s.levels| > 0
    ensures var all := s.levels[0] + [FlushedTable(s)];
      Flush(s).levels[0] == (if |all| > 16 then all[4..] else all)
      && |Flush(s).levels[0]| == if |s.levels[0]| < 16 then |s.levels[0]| + 1 else |s.levels[0]| - 3
  {
    hide Core, CompactL0, FlushEnds, FlushedTable, FilesWith, Names, DataSize;
    CoreLevels(s, clock);
    FlushKeepsCount(s);
    FlushedOk(s, clock);
    if |s.levels[0]| >= 16 {
      CompactL0Takes(Flushed(s), clock);
    }
  }

  // ----- what level 0 gets to be -----

  /** Level 0 has at most sixteen tables, each of entries estimated at `least` or more. */
  ghost predicate Tidy(s: Store, least: nat) {
    && least <= s.threshold
    && (|s.levels| > 0 ==> |s.levels[0]| <= 16 && forall t :: t in s.levels[0] ==> least <= ChunkSize(t.entries))
  }

  lemma FewerStayTidy(s: Store, s': Store, n: nat, least: nat)
    requires Tidy(s, least) && |s'.levels| == |s.levels| > 0 && s'.threshold == s.threshold
    requires n <= |s.levels[0]| && s'.levels[0] == s.levels[0][n..]
    ensures Tidy(s', least)
  {
    hide ChunkSize;
  }

  lemma SameTopTidy(s: Store, s': Store, least: nat)
    requires Tidy(s, least) && SameTop(s, s')
    ensures Tidy(s', least)
  {
    hide ChunkSize;
  }

  lemma OneMoreTidy(s: Store, s': Store, t: Table, least: nat)
    requires Tidy(s, least) && |s'.levels| == |s.levels| > 0 && s'.threshold == s.threshold
    requires var all := s.levels[0] + [t]; s'.levels[0] == if |all| > 16 then all[4..] else all
    requires least <= ChunkSize(t.entries)
    ensures Tidy(s', least)
  {
    hide ChunkSize;
  }

  lemma FlushStaysTidy(s: Store, clock: int, least: nat)
    requires Core(s, clock) && s.nextID < Varint.TWO_63 && Tidy(s, least)
    requires s.mem != map[] ==> least <= Memtable.TotalCost(s.mem.Values)
    ensures Tidy(Flush(s), least)
  {
    hide Core, Flush, FlushEnds, FlushedTable, Tidy, Memtable.TotalCost, ChunkSize;
    CoreLevels(s, clock);
    FlushThreshold(s);
    if s.mem == map[] {
      NothingFlushed(s);
    } else if FlushEnds(s) == Done {
      FlushTakes(s, clock);
      CoreKeyed(s, clock);
      FlushedEntries(s);
      ChunkSizeIsTotal(FlushedTable(s).entries);
      OneMoreTidy(s, Flush(s), FlushedTable(s), least);
    } else {
      FlushEndsOtherwise(s, clock);
      SameTopTidy(s, Flush(s), least);
    }
  }

  lemma FlushThreshold(s: Store)
    ensures Flush(s).threshold == s.threshold
  {
    hide Compact, PlanL0, FlushedTable, FilesWith, FlushEnds, FlushClosed;
    CompactL0Threshold(Flushed(s));
  }

  lemma CompactL0Threshold(s: Store)
    ensures CompactL0(s).threshold == s.threshold
  {
    hide Compact, PlanL0;
    if |s.levels| >= 2 && s.levels[0] != [] {
      CompactFields(s, PlanL0(s));
    }
  }

  lemma FilledEnough(s: Store, op: Op, least: nat)
    requires Flushes(s, op) && (least == 0 || !op.FlushMem?) && least <= s.threshold
    ensures least <= Memtable.TotalCost(ToFlush(s, op).mem.Values)
  {
    hide Memtable.TotalCost, Wrote, Writes;
  }

  lemma StepStaysTidy(w: World, op: Op, least: nat)
    requires Refines(w) && Timely(w, op) && Tidy(w.store, least) && (least == 0 || !op.FlushMem?)
    ensures Tidy(Next(w, op).store, least)
  {
    hide Core, Mirrors, Flush, Wrote, PlainWrites, CompactL0, CompactLevel, LoopPass, Writes, Fills, FlushEnds;
    hide NextTrust, Overlaid, Base, Tidy, SameTop, Memtable.TotalCost;
    var s := w.store;
    CoreLevels(s, w.clock);
    TidyThreshold(s, least);
    if op.Put? || op.Del? {
      WriteRefines(w, op);
      WroteID(s, Writes(op));
      var s1 := Wrote(s, Writes(op));
      SameTopIs(s, s1);
      SameTopTidy(s, s1, least);
      if Flushes(s, op) {
        FillsSomething(s, op);
        FilledEnough(s, op, least);
        FlushStaysTidy(s1, op.now + |Writes(op)|, least);
      } else {
        NotFlushed(s, op);
      }
    } else {
      match op
      case FlushMem => FlushStaysTidy(s, w.clock, least);
      case L0ToL1 =>
        CompactL0Threshold(s);
        if s.levels[0] != [] {
          CompactL0Takes(s, w.clock);
          FewerStayTidy(s, CompactL0(s), |s.levels[0]| - |CompactL0(s).levels[0]|, least);
        } else {
          NoneToTake(s);
        }
      case LevelDown(level) =>
        CompactLevelBelow(s, level);
        SameTopTidy(s, CompactLevel(s, level), least);
      case Pass =>
        PassTakes(s, w.clock);
        FewerStayTidy(s, LoopPass(s), if |s.levels[0]| > 8 then 4 else 0, least);
    }
  }

  lemma TidyThreshold(s: Store, least: nat)
    requires Tidy(s, least)
    ensures least <= s.threshold
  {
    hide ChunkSize;
  }

  lemma SameTopIs(s: Store, s': Store)
    requires s'.levels == s.levels && s'.threshold == s.threshold
    ensures SameTop(s, s')
  {
  }

  lemma NoneToTake(s: Store)
    requires |s.levels| > 0 && s.levels[0] == []
    ensures CompactL0(s) == s
  {
  }

  /** No operation of the run flushes a memtable that is not full. */
  predicate OnlyFull(ops: seq<Op>) {
    forall op :: op in ops ==> !op.FlushMem?
  }

  lemma {:induction false} RunStaysTidy(w: World, ops: seq<Op>, least: nat)
    requires Refines(w) && LegalRun(w, ops) && Tidy(w.store, least) && (least == 0 || OnlyFull(ops))
    ensures Tidy(After(w, ops).store, least)
    decreases |ops|
  {
    hide Refines, Timely, MergesFit, Next, Ends, Tidy;
    if ops != [] {
      RunRefines(w, ops[..|ops| - 1]);
      RunStaysTidy(w, ops[..|ops| - 1], least);
      StepStaysTidy(After(w, ops[..|ops| - 1]), ops[|ops| - 1], least);
    }
  }

  lemma StartIsTidy(numLevels: nat, threshold: nat, withLog: bool, id: nat, clock: int, least: nat)
    requires least <= threshold
    ensures Tidy(Start(numLevels, threshold, withLog, id, clock).store, least)
  {
  }

  lemma TidyMeans(s: Store, least: nat)
    requires Tidy(s, least) && |s.levels| > 0
    ensures |s.levels[0]| <= 16 && forall t :: t in s.levels[0] ==> least <= ChunkSize(t.entries)
  {
  }

  /** In every reachable store, whatever was written and however its flushes ended, level 0 has at most sixteen
      tables. */
  lemma HistoryKeepsLevelZeroShort(numLevels: nat, threshold: nat, withLog: bool, id: nat, clock: int, ops: seq<Op>)
    requires 2 <= numLevels && Pow10(DIGITS) <= id
    requires LegalRun(Start(numLevels, threshold, withLog, id, clock), ops)
    ensures var s := After(Start(numLevels, threshold, withLog, id, clock), ops).store;
      0 < |s.levels| && |s.levels[0]| <= 16
  {
    HistoryIsTidy(numLevels, threshold, withLog, id, clock, ops, 0);
  }

  lemma HistoryIsTidy(numLevels: nat, threshold: nat, withLog: bool, id: nat, clock: int, ops: seq<Op>, least: nat)
    requires 2 <= numLevels && Pow10(DIGITS) <= id && (least == 0 || (OnlyFull(ops) && least == threshold))
    requires LegalRun(Start(numLevels, threshold, withLog, id, clock), ops)
    ensures var s := After(Start(numLevels, threshold, withLog, id, clock), ops).store;
      0 < |s.levels| && |s.levels[0]| <= 16 && forall t :: t in s.levels[0] ==> least <= ChunkSize(t.entries)
  {
    hide LegalRun, After, Start, Refines, Tidy, OnlyFull;
    var w := Start(numLevels, threshold, withLog, id, clock);
    InitialCore(numLevels, threshold, withLog, id, clock);
    StartIsTidy(numLevels, threshold, withLog, id, clock, least);
    RunStaysTidy(w, ops, least);
    LevelCount(w, ops);
    StartCount(numLevels, threshold, withLog, id, clock);
    TidyMeans(After(w, ops).store, least);
  }

  /** A table only comes into level 0 once the memtable is full: in every store reached by batches, deletions and
      compactions, the entries of each level-0 table are estimated at the threshold or more. */
  lemma HistoryFillsTables(numLevels: nat, threshold: nat, withLog: bool, id: nat, clock: int, ops: seq<Op>)
    requires 2 <= numLevels && Pow10(DIGITS) <= id && OnlyFull(ops)
    requires LegalRun(Start(numLevels, threshold, withLog, id, clock), ops)
    ensures var s := After(Start(numLevels, threshold, withLog, id, clock), ops).store;
      0 < |s.levels| && forall t :: t in s.levels[0] ==> threshold <= ChunkSize(t.entries)
  {
    HistoryIsTidy(numLevels, threshold, withLog, id, clock, ops, threshold);
  }

  lemma {:induction false} RestartsStayTidy(w: World, ops: seq<Op>, least: nat)
    requires Survives(w) && DurableRun(w, ops) && Tidy(w.store, least) && (least == 0 || OnlyFull(ops))
    ensures Tidy(After(w, ops).store, least)
    decreases |ops|
  {
    hide Refines, Legal, Flushes, Restartable, Trusted, Intact, Next, Tidy, FlushCounts;
    if ops != [] {
      var before, op := After(w, ops[..|ops| - 1]), ops[|ops| - 1];
      RestartsStayTidy(w, ops[..|ops| - 1], least);
      RunSurvives(w, ops[..|ops| - 1]);
      if op.Restart? {
        RestartSurvives(before, op);
        SameTopIs(before.store, Next(before, op).store);
        SameTopTidy(before.store, Next(before, op).store, least);
      } else {
        LegalIsTimely(before, op);
        StepStaysTidy(before, op, least);
      }
    }
  }

  lemma LegalIsTimely(w: World, op: Op)
    requires Legal(w, op)
    ensures Timely(w, op)
  {
    hide Timely, MergesFit, Ends;
  }

  /** Both hold in runs with restarts. */
  lemma RestartsKeepLevelZero(numLevels: nat, threshold: nat, withLog: bool, id: nat, clock: int, ops: seq<Op>)
    requires 2 <= numLevels && Pow10(DIGITS) <= id
    requires DurableRun(Start(numLevels, threshold, withLog, id, clock), ops)
    ensures var s := After(Start(numLevels, threshold, withLog, id, clock), ops).store;
      && 0 < |s.levels| && |s.levels[0]| <= 16
      && (OnlyFull(ops) ==> forall t :: t in s.levels[0] ==> threshold <= ChunkSize(t.entries))
  {
    hide DurableRun, After, Start, Survives, Tidy, OnlyFull;
    var w, least := Start(numLevels, threshold, withLog, id, clock), if OnlyFull(ops) then threshold else 0;
    StartSurvives(numLevels, threshold, withLog, id, clock);
    StartIsTidy(numLevels, threshold, withLog, id, clock, least);
    RestartsStayTidy(w, ops, least);
    DurableCount(w, ops);
    StartCount(numLevels, threshold, withLog, id, clock);
    TidyMeans(After(w, ops).store, least);
  }
}
