/** Reads over whole runs: the levels below level 1 always have disjoint key ranges, so a read shows
    the history's map whenever levels 0 and 1 each hold the key at most once. */
module LsmReads {
  import opened Bytes
  import opened Entries
  import opened Versions
  import opened TableLookup
  import opened Compaction
  import opened Paths
  import opened LsmModel
  import opened LsmTables
  import opened LsmSteps
  import opened LsmRuns
  import opened LsmRestarts
  import opened LsmGet
  import opened LsmShape

  ghost predicate DeepDisjoint(s: Store) {
    forall i :: 2 <= i < |s.levels| ==> Disjoint(s.levels[i])
  }

  lemma NothingOverlaps()
    ensures Disjoint([])
  {
  }

  lemma MoveDownKeepsDeep(s: Store, level: nat)
    requires DeepDisjoint(s) && 1 <= level && level + 1 < |s.levels| == |s.sizes|
    ensures DeepDisjoint(Compact(s, PlanLevel(s, level)))
  {
    hide Disjoint, PlanOutputs;
    NothingOverlaps();
    CompactLevelDisjoint(s, level);
  }

  lemma {:induction false} CompactLevelKeepsDeep(s: Store, level: nat)
    requires DeepDisjoint(s)
    ensures DeepDisjoint(CompactLevel(s, level))
    decreases |s.levels| - level
  {
    hide DeepDisjoint, Compact;
    if !(level < 1 || level + 1 >= |s.levels| || |s.sizes| != |s.levels| || s.levels[level] == []) {
      MoveDownKeepsDeep(s, level);
      CompactFields(s, PlanLevel(s, level));
      CompactLevelKeepsDeep(Compact(s, PlanLevel(s, level)), level + 1);
    }
  }

  lemma {:induction false} LoopLevelsKeepDeep(s: Store, level: nat)
    requires DeepDisjoint(s)
    ensures DeepDisjoint(LoopLevels(s, level))
    decreases |s.levels| - level
  {
    hide DeepDisjoint, CompactLevel;
    if !(level + 1 >= |s.levels| || |s.sizes| != |s.levels|) {
      CompactLevelKeepsDeep(s, level);
      CompactLevelShape(s, level);
      LoopLevelsKeepDeep(if s.sizes[level] > LevelSize(BASE_LEVEL_SIZE, level) then CompactLevel(s, level) else s,
                         level + 1);
    }
  }

  lemma CompactL0KeepsDeep(s: Store)
    requires DeepDisjoint(s)
    ensures DeepDisjoint(CompactL0(s))
  {
    hide Disjoint, PlanOutputs, ByPath, Smallest, Greatest, Overlapping, NotOverlapping;
  }

  lemma FlushKeepsDeep(s: Store)
    requires DeepDisjoint(s)
    ensures DeepDisjoint(Flush(s))
  {
    hide Disjoint, CompactL0, FlushedTable, FilesWith, FlushEnds, FlushClosed;
    if s.mem != map[] && FlushEnds(s).Done? {
      CompactL0KeepsDeep(Flushed(s));
    }
  }

  /** No operation makes tables below level 1 overlap. */
  lemma OperationKeepsDeep(s: Store, op: Op)
    requires DeepDisjoint(s) && !op.Restart?
    ensures DeepDisjoint(Run1(s, op))
  {
    hide DeepDisjoint, Flush, CompactL0, CompactLevel, LoopLevels;
    match op
    case Put(kvs, now) =>
      WroteKeepsDeep(s, BatchEntries(kvs, now));
      FlushKeepsDeep(Wrote(s, BatchEntries(kvs, now)));
    case Del(key, now) => WroteKeepsDeep(s, [Entry(key, [], now, true)]);
    case FlushMem => FlushKeepsDeep(s);
    case L0ToL1 => CompactL0KeepsDeep(s);
    case LevelDown(level) => CompactLevelKeepsDeep(s, level);
    case Pass =>
      CompactL0KeepsDeep(s);
      LoopLevelsKeepDeep(if |s.levels| > 0 && |s.levels[0]| > MAX_L0_FILES then CompactL0(s) else s, 1);
  }

  lemma WroteKeepsDeep(s: Store, es: seq<Entry>)
    requires DeepDisjoint(s)
    ensures DeepDisjoint(Wrote(s, es))
  {
    hide Disjoint;
  }

  lemma {:induction false} RunKeepsDeep(w: World, ops: seq<Op>)
    requires LegalRun(w, ops) && DeepDisjoint(w.store)
    ensures DeepDisjoint(After(w, ops).store)
    decreases |ops|
  {
    hide DeepDisjoint, Run1, MergesFit, Ends, NextTrust;
    if ops != [] {
      RunKeepsDeep(w, ops[..|ops| - 1]);
      OperationKeepsDeep(After(w, ops[..|ops| - 1]).store, ops[|ops| - 1]);
    }
  }

  lemma {:induction false} RestartsKeepDeep(w: World, ops: seq<Op>)
    requires Survives(w) && DurableRun(w, ops) && DeepDisjoint(w.store)
    ensures DeepDisjoint(After(w, ops).store)
    decreases |ops|
  {
    hide Survives, Legal, DeepDisjoint, Run1, Flushes, Ends, NextTrust;
    if ops != [] {
      var before, op := After(w, ops[..|ops| - 1]), ops[|ops| - 1];
      RestartsKeepDeep(w, ops[..|ops| - 1]);
      RunSurvives(w, ops[..|ops| - 1]);
      if op.Restart? {
        RestartSurvives(before, op);
        SameLevelsDeep(before.store, Next(before, op).store);
      } else {
        OperationKeepsDeep(before.store, op);
      }
    }
  }

  lemma SameLevelsDeep(s: Store, s': Store)
    requires DeepDisjoint(s) && s'.levels == s.levels
    ensures DeepDisjoint(s')
  {
  }

  lemma DisjointHoldsOnce(ts: seq<Table>, k: Str)
    requires Disjoint(ts)
    ensures OneHolder(ts, k)
  {
    hide Disjoint;
    DisjointSharesNothing(ts);
  }

  lemma StartIsDeep(numLevels: nat, threshold: nat, withLog: bool, id: nat, clock: int)
    ensures DeepDisjoint(Start(numLevels, threshold, withLog, id, clock).store)
  {
  }

  /** In every reachable store, whatever was written and however many levels it has, the tables of each level
      from 2 on have disjoint key ranges. */
  lemma HistoryKeepsLevelsDisjoint(numLevels: nat, threshold: nat, withLog: bool, id: nat, clock: int, ops: seq<Op>,
                                   i: nat)
    requires LegalRun(Start(numLevels, threshold, withLog, id, clock), ops)
    ensures var s := After(Start(numLevels, threshold, withLog, id, clock), ops).store;
      2 <= i < |s.levels| ==> Disjoint(s.levels[i])
  {
    hide LegalRun, After, Start, Disjoint;
    StartIsDeep(numLevels, threshold, withLog, id, clock);
    RunKeepsDeep(Start(numLevels, threshold, withLog, id, clock), ops);
  }

  /** So do they in runs with restarts. */
  lemma RestartsKeepLevelsDisjoint(numLevels: nat, threshold: nat, withLog: bool, id: nat, clock: int, ops: seq<Op>,
                                   i: nat)
    requires 2 <= numLevels && Pow10(DIGITS) <= id
    requires DurableRun(Start(numLevels, threshold, withLog, id, clock), ops)
    ensures var s := After(Start(numLevels, threshold, withLog, id, clock), ops).store;
      2 <= i < |s.levels| ==> Disjoint(s.levels[i])
  {
    hide Survives, DurableRun, After, Start, Disjoint;
    StartSurvives(numLevels, threshold, withLog, id, clock);
    StartIsDeep(numLevels, threshold, withLog, id, clock);
    RestartsKeepDeep(Start(numLevels, threshold, withLog, id, clock), ops);
  }

  /** What the plain map answers. */
  function PlainAnswer(m: map<Str, Str>, k: Str): Answer {
    if k in m then Value(m[k]) else Absent
  }

  /** What is read is what was written: after any such run Get stops at the newest version of the key exactly when
      its first table to reply has the key and the first table with the key in the highest level with the key has
      that level's newest version, or when it strays to that very version; and without straying it then returns
      the plain map's value. */
  lemma HistoryIsRead(numLevels: nat, threshold: nat, withLog: bool, id: nat, clock: int, ops: seq<Op>, k: Str)
    requires 2 <= numLevels && Pow10(DIGITS) <= id
    requires DurableRun(Start(numLevels, threshold, withLog, id, clock), ops)
    ensures var w := After(Start(numLevels, threshold, withLog, id, clock), ops);
      && (GetEntry(w.store, k) == NewestProbe(w.store, k)
          <==> if Straight(w.store, k) then ReadsNewest(w.store, k)
               else Strayed(w.store, k) == NewestProbe(w.store, k))
      && (k != [] && numLevels <= 7 && Straight(w.store, k) && ReadsNewest(w.store, k) ==>
            LsmGet.Get(w.store, k) == PlainAnswer(w.plain, k))
  {
    hide Survives, DurableRun, After, Start, LsmGet.Get, GetEntry, NewestProbe, ReadsNewest, Straight, Strayed;
    StartSurvives(numLevels, threshold, withLog, id, clock);
    StartCount(numLevels, threshold, withLog, id, clock);
    var w0 := Start(numLevels, threshold, withLog, id, clock);
    RunSurvives(w0, ops);
    DurableCount(w0, ops);
    SurvivingIsRead(After(w0, ops), k);
  }

  lemma SurvivingIsRead(w: World, k: Str)
    requires Survives(w)
    ensures GetEntry(w.store, k) == NewestProbe(w.store, k)
       <==> if Straight(w.store, k) then ReadsNewest(w.store, k) else Strayed(w.store, k) == NewestProbe(w.store, k)
    ensures k != [] && |w.store.levels| <= 7 && Straight(w.store, k) && ReadsNewest(w.store, k) ==>
              LsmGet.Get(w.store, k) == PlainAnswer(w.plain, k)
  {
    hide Core, Stored, Straight, Strayed, GetEntry, ReadsNewest, Newest, AllVersions, Trusted, Visible, FilesKnown;
    hide Base;
    GetIsNewest(w.store, w.clock, k);
    if k != [] && |w.store.levels| <= 7 && Straight(w.store, k) && ReadsNewest(w.store, k) {
      NewestAnswers(w.store, k, Newest(AllVersions(w.store), k));
    }
  }

  /** That is so for every key that levels 0 and 1 each hold at most once. */
  lemma HeldOnceIsRead(numLevels: nat, threshold: nat, withLog: bool, id: nat, clock: int, ops: seq<Op>, k: Str)
    requires 2 <= numLevels <= 7 && Pow10(DIGITS) <= id && k != []
    requires DurableRun(Start(numLevels, threshold, withLog, id, clock), ops)
    requires var s := After(Start(numLevels, threshold, withLog, id, clock), ops).store;
      Straight(s, k) && forall i :: 0 <= i < 2 && i < |s.levels| ==> OneHolder(s.levels[i], k)
    ensures var w := After(Start(numLevels, threshold, withLog, id, clock), ops);
      LsmGet.Get(w.store, k) == PlainAnswer(w.plain, k)
  {
    hide Survives, DurableRun, After, Start, OneHolder, Straight, LsmGet.Get, DeepDisjoint, GetEntry, NewestProbe;
    hide ReadsNewest, Strayed;
    StartSurvives(numLevels, threshold, withLog, id, clock);
    var w0 := Start(numLevels, threshold, withLog, id, clock);
    StartIsDeep(numLevels, threshold, withLog, id, clock);
    RestartsKeepDeep(w0, ops);
    HeldOnceIsNewest(After(w0, ops).store, k);
    HistoryIsRead(numLevels, threshold, withLog, id, clock, ops, k);
  }

  lemma HeldOnceIsNewest(s: Store, k: Str)
    requires DeepDisjoint(s) && forall i :: 0 <= i < 2 && i < |s.levels| ==> OneHolder(s.levels[i], k)
    ensures ReadsNewest(s, k)
  {
    hide Disjoint, HoldsKey, FindKey;
    forall i: nat | TopLevel(s.levels, k, i) ensures FirstIsNewest(s.levels[i], k) {
      if i >= 2 {
        DisjointHoldsOnce(s.levels[i], k);
      }
    }
  }
}
