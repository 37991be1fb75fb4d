/** Runs with restarts: kills, closes, failed flushes and panics in between, a reader sees the plain map, and
    the files are exactly those of the tables and those failed flushes left over. */
module LsmRestarts {
  import opened Bytes
  import opened Entries
  import opened Versions
  import opened Varint
  import opened Records
  import opened Chunks
  import opened Paths
  import opened LsmModel
  import opened LsmVersions
  import opened LsmTables
  import opened LsmRoom
  import opened LsmRecovery
  import opened LsmSteps
  import opened LsmRuns
  import Memtable
  import WalFormat
  import Wal

  /** Lengths and timestamps that fit 64 bits, and growing numbers. A process that went down can only be started
      again. */
  ghost predicate Durable(w: World, op: Op) {
    && (if op.Restart? then w.store.nextID <= op.id && (w.down ==> op.crash) else Legal(w, op))
    && |Writes(op)| < TWO_63 && (forall e :: e in Writes(op) ==> Storable(e))
    && (Flushes(w.store, op) ==> FlushCounts(ToFlush(w.store, op)))
  }

  ghost predicate DurableRun(w: World, ops: seq<Op>) {
    ops == [] || (DurableRun(w, ops[..|ops| - 1]) && Durable(After(w, ops[..|ops| - 1]), ops[|ops| - 1]))
  }

  ghost predicate Survives(w: World) {
    && Refines(w) && Intact(w.store, w.left)
    && (w.store.log.Some? ==> Trusted(w.store.log.value, w.store.mem, w.trust))
  }

  ghost predicate Trusted(l: Wal.LogState, mem: map<Str, Entry>, trust: Trust) {
    match trust
    case Whole => Recoverable(l, mem)
    case Padded => mem == map[] && Hollow(l)
    case Partial => Tailed(l, mem) || Stuck(l)
  }

  lemma WroteRecoverable(s: Store, es: seq<Entry>)
    requires s.log.Some? && Recoverable(s.log.value, s.mem)
    requires |es| < TWO_63 && forall e :: e in es ==> Storable(e)
    ensures Wrote(s, es).log.Some? && Recoverable(Wrote(s, es).log.value, Wrote(s, es).mem)
  {
    hide Storable, WalFormat.Frame, ApplyAll, LogIs, Wal.Doubled;
    AppendIsRecoverable(s.log.value, s.mem, es);
  }

  lemma WrittenTrust(s: Store, es: seq<Entry>, trust: Trust)
    requires s.log.Some? && Trusted(s.log.value, s.mem, trust)
    requires es != [] && |es| < TWO_63 && forall e :: e in es ==> Storable(e)
    ensures Wrote(s, es).log.Some?
    ensures Trusted(Wrote(s, es).log.value, Wrote(s, es).mem, if trust == Padded then Partial else trust)
  {
    hide Recoverable, Hollow, Storable, Tailed, Stuck, ApplyAll, WalFormat.Frame, Wal.Doubled;
    var l := s.log.value;
    TrustedOk(l, s.mem, trust);
    match trust
    case Whole => WroteRecoverable(s, es);
    case Padded => HollowAppend(l, es);
    case Partial =>
      if Tailed(l, s.mem) {
        TailedAppend(l, s.mem, es);
      } else {
        StuckAppend(l, WalFormat.Frame(es));
      }
  }

  lemma TrustedOk(l: Wal.LogState, mem: map<Str, Entry>, trust: Trust)
    requires Trusted(l, mem, trust)
    ensures LogOk(l)
  {
    if trust == Whole {
      assert Recoverable(l, mem);
    }
  }

  lemma FreshIsTrusted(s: Store, s': Store)
    requires s'.mem == map[] && s'.log == if s.log.Some? then Some(Wal.Fresh()) else None
    ensures s'.log.Some? ==> Trusted(s'.log.value, s'.mem, Whole)
  {
    hide Recoverable;
    FreshIsRecoverable();
  }

  lemma CountedFits(s: Store, clock: int, left: set<Name>)
    requires Core(s, clock) && Intact(s, left) && s.mem != map[] && FlushCounts(s)
    ensures FlushEnds(s) == Done <==> FlushFits(s)
  {
    hide FlushFits, FlushCounts, FlushEnds, LevelsOk, NamesDistinct, RisingIds, SizesOk, FilesOk, FilesKnown, Storable;
    hide Versioned, Pow10;
    CoreKeyed(s, clock);
    DoneIffFits(s);
  }

  /** Whichever way a flush ends, the tables stay intact and the log is worth what it was or fresh. */
  lemma FlushSurvives(s: Store, clock: int, trust: Trust, left: set<Name>)
    requires Core(s, clock) && Intact(s, left) && s.nextID < TWO_63 && s.mem != map[]
    requires FlushCounts(s) && FlushMergesFit(s) && !FlushEnds(s).AsLegacy?
    requires s.log.Some? ==> Trusted(s.log.value, s.mem, trust)
    ensures var e, s' := FlushEnds(s), Flush(s);
      && Intact(s', if e.Failed? then left + {Name(0, s.nextID)} else left)
      && (s'.log.Some? ==> Trusted(s'.log.value, s'.mem, if e.Crashed? then trust else Whole))
  {
    hide Core, Intact, FlushEnds, FlushCounts, FlushMergesFit, FlushFits, Trusted, Flushed, CompactL0, FlushClosed;
    CountedFits(s, clock, left);
    if FlushEnds(s) == Done {
      FlushOk(s, clock, map[], left);
      FreshIsTrusted(s, Flush(s));
    } else if FlushEnds(s) == Failed {
      LostStored(s, left);
      FreshIsTrusted(s, Flush(s));
    } else {
      NextStored(s, left);
    }
  }

  lemma RefinesKeyed(w: World)
    requires Refines(w)
    ensures Memtable.KeyedByKey(w.store.mem)
  {
    hide Mirrors;
    CoreKeyed(w.store, w.clock);
  }

  lemma WriteCount(op: Op)
    requires op.Put? || op.Del?
    ensures Writes(op) == [] <==> op.Put? && op.kvs == []
  {
  }

  lemma WriteSurvives(w: World, op: Op)
    requires Survives(w) && Durable(w, op) && (op.Put? || op.Del?)
    ensures Survives(Next(w, op))
  {
    hide Core, Mirrors, Intact, Wrote, PlainWrites, Writes, Refines, Trusted, Flush, Fills, FlushCounts, FlushEnds;
    hide Storable, FlushMergesFit, TrustAfter;
    StepRefines(w, op);
    var s, es := w.store, Writes(op);
    RefinesKeyed(w);
    WroteStored(s, es, w.left);
    WroteID(s, es);
    if s.log.Some? && es != [] {
      WrittenTrust(s, es, w.trust);
    }
    WriteCount(op);
    if Flushes(s, op) {
      FillsSomething(s, op);
      WriteRefines(w, op);
      FlushSurvives(Wrote(s, es), op.now + |es|, if w.trust == Padded then Partial else w.trust, w.left);
    } else {
      NotFlushed(s, op);
    }
  }

  lemma FlushMemSurvives(w: World, op: Op)
    requires Survives(w) && Durable(w, op) && op.FlushMem?
    ensures Survives(Next(w, op))
  {
    hide Mirrors, Intact, PlainWrites, Writes, Core, Trusted, Flush, Fills, FlushCounts, FlushEnds, FlushMergesFit;
    hide TrustAfter, Storable, Base;
    StepRefines(w, op);
    NoneWritten(w.store, op);
    if Flushes(w.store, op) {
      FlushSurvives(w.store, w.clock, w.trust, w.left);
    } else {
      NotFlushed(w.store, op);
    }
  }

  lemma MoveSurvives(w: World, op: Op)
    requires Survives(w) && Durable(w, op) && (op.L0ToL1? || op.LevelDown? || op.Pass?)
    ensures Survives(Next(w, op))
    ensures Next(w, op).store.mem == w.store.mem && Next(w, op).store.threshold == w.store.threshold
  {
    hide Core, Mirrors, Intact, CompactL0, CompactLevel, LoopPass, PlainWrites, Trusted, Base, L0Fits, LevelFits;
    hide PassFits;
    StepRefines(w, op);
    MoveRefines(w, op);
    NoneWritten(w.store, op);
    var s := w.store;
    match op
    case L0ToL1 => CompactL0Ok(s, w.clock, w.plain, w.left);
    case LevelDown(level) => CompactLevelOk(s, level, w.clock, w.plain, w.left);
    case Pass => LoopPassOk(s, w.clock, w.plain, w.left);
  }

  /** A restart keeps the tables, gives back part of the memtable, and all of it with a log that holds it. */
  lemma RestartSurvives(w: World, op: Op)
    requires Survives(w) && Durable(w, op) && op.Restart?
    ensures Survives(Next(w, op))
    ensures var w' := Next(w, op);
      && w'.store.levels == w.store.levels && w'.left == {} && !w'.down && w'.store.threshold == w.store.threshold
      && PartOf(w'.store.mem, w.store.mem) && (Restartable(w) ==> w'.store.mem == w.store.mem)
  {
    hide Survives, Durable, Next, Restartable, PartOf;
    if Restartable(w) {
      RestartReturns(w, op);
      PartOfItself(w.store.mem);
    } else {
      RestartGivesPart(w, op);
    }
  }

  lemma PartOfItself(mem: map<Str, Entry>)
    ensures PartOf(mem, mem)
  {
  }

  lemma RestartableReturns(w: World)
    requires Survives(w) && Restartable(w)
    ensures Returns(w.store)
  {
    hide Recoverable, Hollow, Tailed, Stuck, Refines, Intact;
  }

  lemma RestartReturns(w: World, op: Op)
    requires Survives(w) && Durable(w, op) && op.Restart? && Restartable(w)
    ensures Survives(Next(w, op))
    ensures Next(w, op).store.mem == w.store.mem && Next(w, op).store.levels == w.store.levels
    ensures Next(w, op).left == {} && !Next(w, op).down && Next(w, op).store.threshold == w.store.threshold
  {
    hide Agrees, LevelsOk, NamesDistinct, SizesOk, FilesOk, Reopen, PlainWrites, RisingIds, Versioned, Trusted;
    hide Overlaid;
    hide VersionsOf, Pow10, FilesKnown, Returns, TrustAfter, Restartable;
    var s := w.store;
    RestartableReturns(w);
    ReopenRestores(s, op.crash, op.id);
    NoWrites(w.plain, 0);
    StoredSizes(Reopen(s, op.crash, op.id));
    RestoredTrust(s, op.crash, op.id);
  }

  /** A recovered memtable is no longer in the log, which holds nothing else either. */
  lemma RestoredTrust(s: Store, crash: bool, id: nat)
    requires Returns(s)
    ensures var s' := Reopen(s, crash, id); s'.log.Some? ==> Trusted(s'.log.value, s'.mem, TrustAfter(s'))
  {
    hide Recoverable, Hollow, Recovered, Load, LogFile, Tailed, Stuck;
    ReturnsMemtable(s, crash, id);
    FreshIsRecoverable();
    FreshIsTailed(s.mem);
    if s.log.Some? && s.mem != map[] {
      RecoveredOnce(s.log.value, s.mem, crash);
    }
  }

  /** The part of the memtable a log that may miss some of it gives back. */
  lemma PartReopens(w: World, op: Op)
    requires Survives(w) && Durable(w, op) && op.Restart? && !Restartable(w)
    ensures var s' := Reopen(w.store, op.crash, op.id);
      && PartOf(s'.mem, w.store.mem) && (s'.log.Some? <==> w.store.log.Some?)
      && (s'.log.Some? ==> LogOk(s'.log.value) && Trusted(s'.log.value, s'.mem, TrustAfter(s')))
  {
    hide Refines, Intact, Load, Recovered, LogFile, Hollow, Tailed, Stuck, Recoverable;
    if w.store.log.Some? {
      var l := w.store.log.value;
      if Tailed(l, w.store.mem) {
        TailedReopens(l, w.store.mem, op.crash);
      } else {
        StuckReopens(l, op.crash);
      }
      FreshIsRecoverable();
      FreshIsTailed(Reopen(w.store, op.crash, op.id).mem);
      ReopenedOk(Reopen(w.store, op.crash, op.id).log.value);
    }
  }

  lemma ReopenedOk(l: Wal.LogState)
    ensures Hollow(l) || Stuck(l) || l == Wal.Fresh() ==> LogOk(l)
  {
  }

  lemma RestartGivesPart(w: World, op: Op)
    requires Survives(w) && Durable(w, op) && op.Restart? && !Restartable(w)
    ensures Survives(Next(w, op))
    ensures Next(w, op).store.levels == w.store.levels && PartOf(Next(w, op).store.mem, w.store.mem)
    ensures Next(w, op).left == {} && !Next(w, op).down && Next(w, op).store.threshold == w.store.threshold
  {
    hide Agrees, LevelsOk, NamesDistinct, FilesOk, Reopen, PlainWrites, RisingIds, Versioned, Trusted, TrustAfter;
    hide VersionsOf, Pow10, FilesKnown, Overlaid, PartOf, Restartable, Mirrors, SizesOk;
    var s, s' := w.store, Reopen(w.store, op.crash, op.id);
    PartReopens(w, op);
    ReopenKeepsTables(s, op.crash, op.id);
    StoredSizes(s');
    PartVersioned(s.mem, s'.mem, s.levels, w.clock);
    PartShows(w, s');
  }

  /** Part of a memtable is as much newer than the levels. */
  lemma PartVersioned(mem: map<Str, Entry>, m: map<Str, Entry>, levels: seq<seq<Table>>, clock: int)
    requires Versioned(mem, levels, clock) && PartOf(m, mem)
    ensures Versioned(m, levels, clock)
  {
    hide Held, InOrder;
    forall e | e in m.Values ensures e in mem.Values {
      var k :| k in m && m[k] == e;
      assert k in mem && mem[k] == e;
    }
    assert VersionsOf(m, levels) <= VersionsOf(mem, levels);
  }

  /** Over the levels it shows the plain map of the levels under it. */
  lemma PartShows(w: World, s': Store)
    requires Refines(w) && s'.levels == w.store.levels && Versioned(s'.mem, s'.levels, w.clock)
    ensures Mirrors(s', Overlaid(w.saved, s'.mem)) && Mirrors(Base(s'), w.saved)
  {
    hide Visible, Versioned, VersionsOf, Core, Held;
    SameLevelsBase(w.store, s');
    SameMirrors(Base(w.store), Base(s'), w.saved);
    if |s'.levels| <= 7 {
      forall k | k != []
        ensures var m := Overlaid(w.saved, s'.mem); Visible(AllVersions(s'), k) == if k in m then Some(m[k]) else None
      {
        if k in s'.mem {
          MemIsVisible(s', w.clock, k);
        } else {
          BelowIsVisible(s', w.clock, k);
        }
      }
    }
  }

  lemma MemIsVisible(s: Store, clock: int, k: Str)
    requires Versioned(s.mem, s.levels, clock) && k in s.mem
    ensures Visible(AllVersions(s), k) == if s.mem[k].tomb then None else Some(s.mem[k].value)
  {
    hide AllVersions;
    MemIsNewest(s, clock, k);
  }

  lemma BelowIsVisible(s: Store, clock: int, k: Str)
    requires Versioned(s.mem, s.levels, clock) && k !in s.mem
    ensures Visible(AllVersions(s), k) == Visible(AllVersions(Base(s)), k)
  {
    hide Held, Aged, Newest;
    MemKeys(s, clock, k);
    var none: map<Str, Entry> := map[];
    assert none.Values == {};
    var v, v' := AllVersions(s), AllVersions(Base(s));
    var r := Newest(v, k);
    if r.Some? {
      NewestIs(v', k, r.value);
    } else {
      NoneNewest(v', k);
    }
  }

  lemma StoredSizes(s: Store)
    requires Stored(s)
    ensures |s.sizes| == |s.levels|
  {
    hide LevelsOk, NamesDistinct, RisingIds, FilesOk, Pow10;
  }

  lemma StepSurvives(w: World, op: Op)
    requires Survives(w) && Durable(w, op)
    ensures Survives(Next(w, op))
  {
    hide Survives, Durable, Next;
    if op.Restart? {
      RestartSurvives(w, op);
    } else if op.Put? || op.Del? {
      WriteSurvives(w, op);
    } else if op.FlushMem? {
      FlushMemSurvives(w, op);
    } else {
      MoveSurvives(w, op);
    }
  }

  lemma {:induction false} RunSurvives(w: World, ops: seq<Op>)
    requires Survives(w) && DurableRun(w, ops)
    ensures Survives(After(w, ops))
    decreases |ops|
  {
    hide Survives, Durable, Next;
    if ops != [] {
      RunSurvives(w, ops[..|ops| - 1]);
      StepSurvives(After(w, ops[..|ops| - 1]), ops[|ops| - 1]);
    }
  }

  lemma StartSurvives(numLevels: nat, threshold: nat, withLog: bool, id: nat, clock: int)
    requires 2 <= numLevels && Pow10(DIGITS) <= id
    ensures Survives(Start(numLevels, threshold, withLog, id, clock))
    ensures Start(numLevels, threshold, withLog, id, clock).store.mem == map[]
  {
    hide Core, Mirrors, Intact, Recoverable, Initial, Base;
    InitialCore(numLevels, threshold, withLog, id, clock);
    FreshIsRecoverable();
    InitialLog(numLevels, threshold, withLog, id);
  }

  lemma InitialLog(numLevels: nat, threshold: nat, withLog: bool, id: nat)
    ensures var s := Initial(numLevels, threshold, withLog, id);
      s.mem == map[] && s.log == if withLog then Some(Wal.Fresh()) else None
  {
  }

  lemma {:induction false} DurableCount(w: World, ops: seq<Op>)
    requires Survives(w) && DurableRun(w, ops)
    ensures |After(w, ops).store.levels| == |w.store.levels|
    decreases |ops|
  {
    hide Survives, Run1, Legal, NextTrust, Ends, Flushes;
    if ops != [] {
      var before, op := After(w, ops[..|ops| - 1]), ops[|ops| - 1];
      DurableCount(w, ops[..|ops| - 1]);
      RunSurvives(w, ops[..|ops| - 1]);
      if op.Restart? {
        RestartSurvives(before, op);
      } else {
        StepCount(before.store, op);
      }
    }
  }

  /** A restart shows a reader the history exactly when the log holds the memtable or there is none, or when what
      the log gives back shows the same over the levels. */
  lemma RestartKeepsHistory(w: World, op: Op)
    requires Survives(w) && Durable(w, op) && op.Restart? && |w.store.levels| <= 7
    ensures var s' := Reopen(w.store, op.crash, op.id);
      Agrees(AllVersions(s'), w.plain) <==> Restartable(w) || SamePlain(Overlaid(w.saved, s'.mem), w.plain)
  {
    hide Survives, Durable, Restartable, Agrees, AllVersions, Reopen, Overlaid, SamePlain, Trusted, PartOf;
    RestartSurvives(w, op);
    RestartPlain(w, op);
    SurvivesShows(Next(w, op));
    AgreesWith(AllVersions(Next(w, op).store), Next(w, op).plain, w.plain);
    SamePlainItself(w.plain);
  }

  lemma RestartPlain(w: World, op: Op)
    requires op.Restart?
    ensures Next(w, op).store == Reopen(w.store, op.crash, op.id)
    ensures Next(w, op).plain
         == if Restartable(w) then w.plain else Overlaid(w.saved, Reopen(w.store, op.crash, op.id).mem)
  {
    hide Reopen, Restartable, Overlaid, TrustAfter;
    NoWrites(w.plain, 0);
  }

  lemma SurvivesShows(w: World)
    requires Survives(w) && |w.store.levels| <= 7
    ensures Agrees(AllVersions(w.store), w.plain)
  {
    hide Agrees, AllVersions, Intact, Trusted, Core;
  }

  lemma SamePlainItself(m: map<Str, Str>)
    ensures SamePlain(m, m)
  {
  }

  /** Histories with restarts: in a run that kills or closes and reopens the store any number of times, also after
      a flush that failed or panicked, a reader sees the plain map of the history; a restart keeps that map when
      the log holds the memtable or there is none, and otherwise takes it back to what the levels hold under what
      the log gives back. Level sizes, files and manifest are exact at every step, but for the files that failed
      flushes left over and the next restart removes. */
  lemma HistorySurvivesRestarts(numLevels: nat, threshold: nat, withLog: bool, id: nat, clock: int,
                                ops: seq<Op>, k: Str)
    requires 2 <= numLevels && Pow10(DIGITS) <= id
    requires DurableRun(Start(numLevels, threshold, withLog, id, clock), ops)
    ensures var w := After(Start(numLevels, threshold, withLog, id, clock), ops);
      && Intact(w.store, w.left)
      && (k != [] && numLevels <= 7 ==> View(w.store, k) == if k in w.plain then Some(w.plain[k]) else None)
  {
    hide DurableRun, After, Visible, AllVersions, Intact, Recoverable, Start, Trusted, Core;
    StartSurvives(numLevels, threshold, withLog, id, clock);
    StartCount(numLevels, threshold, withLog, id, clock);
    RunSurvives(Start(numLevels, threshold, withLog, id, clock), ops);
    DurableCount(Start(numLevels, threshold, withLog, id, clock), ops);
  }
}
