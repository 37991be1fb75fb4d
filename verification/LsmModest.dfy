/** Runs within bounds a caller can check: entries, batches and deletions small enough for every flush and every
    merge to fit. */
module LsmModest {
  import opened Bytes
  import opened Entries
  import opened Versions
  import opened Varint
  import opened Records
  import opened TableLimits
  import opened Chunks
  import opened Paths
  import opened LsmModel
  import opened LsmVersions
  import opened LsmTables
  import opened LsmRoom
  import opened LsmRecovery
  import opened LsmSteps
  import opened LsmRuns
  import opened LsmRestarts
  import Memtable
  import WalFormat

  /** The estimate of the deletions since memory was last measured or emptied. */
  function DeletedBehind(ops: seq<Op>): nat {
    if ops == [] then 0
    else
      var before := DeletedBehind(ops[..|ops| - 1]);
      match ops[|ops| - 1]
      case Put(kvs, _) => if kvs == [] then before else 0
      case Del(key, _) => before + |key| + 16
      case FlushMem => 0
      case _ => before
  }

  /** Entries within the bounds, and, where memory may be flushed, threshold, deletions and batch together
      within what a flush can hold. */
  predicate Modest(threshold: nat, ops: seq<Op>, op: Op) {
    && |Writes(op)| < TWO_63 && (forall e :: e in Writes(op) ==> Bounded(e))
    && (op.Put? || op.FlushMem? ==> threshold + DeletedBehind(ops) + ChunkSize(Writes(op)) <= FLUSH_LIMIT)
  }

  ghost predicate ModestRun(w: World, ops: seq<Op>) {
    ops == [] ||
    var init, op := ops[..|ops| - 1], ops[|ops| - 1];
    && ModestRun(w, init) && Modest(w.store.threshold, init, op)
    && (op.Restart? || Timely(After(w, init), op))
    && (op.Restart? ==> After(w, init).store.nextID <= op.id)
  }

  lemma {:induction false} CostAfterWrites(mem: map<Str, Entry>, es: seq<Entry>)
    requires Memtable.KeyedByKey(mem)
    ensures Memtable.KeyedByKey(ApplyAll(mem, es))
    ensures Memtable.TotalCost(ApplyAll(mem, es).Values) <= Memtable.TotalCost(mem.Values) + ChunkSize(es)
    decreases |es|
  {
    hide Memtable.TotalCost;
    if es != [] {
      var n := |es| - 1;
      CostAfterWrites(mem, es[..n]);
      Memtable.SizeAfterUpdate(ApplyAll(mem, es[..n]), Applied(es[n]));
      Memtable.ValuesAfterUpdate(ApplyAll(mem, es[..n]), Applied(es[n]));
    }
  }

  /** Memory is within the threshold and the deletions since; memory and tables hold entries within the
      bounds. */
  ghost predicate Light(s: Store, threshold: nat, deleted: nat) {
    && s.threshold == threshold && Memtable.TotalCost(s.mem.Values) <= threshold + deleted
    && (forall e :: e in s.mem.Values ==> Bounded(e)) && Stocked(s)
  }

  lemma EmptyIsLight(s: Store, deleted: nat)
    requires s.mem == map[] && Stocked(s)
    ensures Light(s, s.threshold, deleted)
  {
    hide Stocked;
    var none: map<Str, Entry> := map[];
    assert none.Values == {};
  }

  lemma WroteBounded(s: Store, es: seq<Entry>)
    requires Memtable.KeyedByKey(s.mem) && Stocked(s)
    requires (forall e :: e in s.mem.Values ==> Bounded(e)) && forall e :: e in es ==> Bounded(e)
    ensures Memtable.KeyedByKey(Wrote(s, es).mem) && Stocked(Wrote(s, es))
    ensures forall e :: e in Wrote(s, es).mem.Values ==> Bounded(e)
    ensures Memtable.TotalCost(Wrote(s, es).mem.Values) <= Memtable.TotalCost(s.mem.Values) + ChunkSize(es)
  {
    hide AllBounded, WalFormat.Frame, Memtable.TotalCost, ChunkSize, ApplyAll;
    WrittenValues(s.mem, es);
    CostAfterWrites(s.mem, es);
  }

  lemma BoundedFlush(s: Store)
    requires Memtable.KeyedByKey(s.mem) && Stocked(s) && forall e :: e in s.mem.Values ==> Bounded(e)
    ensures FlushMergesFit(s) && Stocked(Flush(s))
  {
    hide Bounded, Stocked, FlushMergesFit, Flush, SortedMem;
    FlushedEntries(s);
    assert FlushedTable(s).entries == SortedMem(s.mem);
    assert forall e :: e in SortedMem(s.mem) ==> e in Elems(SortedMem(s.mem));
    StockedFlush(s);
  }

  /** A light store flushes well. */
  lemma LightFits(s: Store)
    requires Memtable.KeyedByKey(s.mem) && s.mem != map[] && Memtable.TotalCost(s.mem.Values) <= FLUSH_LIMIT
    requires forall e :: e in s.mem.Values ==> Bounded(e)
    ensures FlushCounts(s) && FlushFits(s) && FlushEnds(s) == Done
  {
    hide FlushFits, FlushEnds, Memtable.TotalCost;
    SmallMemtableFits(s);
    FitsCounts(s);
    DoneIffFits(s);
  }

  lemma FitsCounts(s: Store)
    requires FlushFits(s)
    ensures FlushCounts(s)
  {
    hide FlushCounts;
  }

  lemma KeyedAfter(w: World)
    requires Survives(w)
    ensures Memtable.KeyedByKey(w.store.mem)
  {
    hide Intact, Trusted, Refines;
    RefinesKeyed(w);
  }

  lemma ToFlushIsLight(w: World, ops: seq<Op>, op: Op)
    requires Survives(w) && Light(w.store, w.store.threshold, DeletedBehind(ops))
    requires Modest(w.store.threshold, ops, op) && Flushes(w.store, op)
    ensures var s := ToFlush(w.store, op);
      && Memtable.KeyedByKey(s.mem) && s.mem != map[] && Memtable.TotalCost(s.mem.Values) <= FLUSH_LIMIT
      && Stocked(s) && forall e :: e in s.mem.Values ==> Bounded(e)
  {
    hide Survives, Wrote, Bounded, Stocked, ChunkSize, DeletedBehind, Memtable.TotalCost, Fills, Writes;
    KeyedAfter(w);
    if op.Put? {
      WroteBounded(w.store, Writes(op));
      FillsIfPut(w.store, op);
      FillsSomething(w.store, op);
    } else {
      FlushingOps(w.store, op);
      NoneWritten(w.store, op);
    }
  }

  lemma FillsIfPut(s: Store, op: Op)
    requires Flushes(s, op) && op.Put?
    ensures Fills(s, op)
  {
    hide Fills;
  }

  lemma BoundedStorable(es: seq<Entry>)
    requires forall e :: e in es ==> Bounded(e)
    ensures forall e :: e in es ==> Storable(e)
  {
  }

  /** Over tables of entries within the bounds every merge fits. */
  lemma StockedMergesFit(s: Store, op: Op)
    requires Stocked(s) && (Flushes(s, op) ==> FlushMergesFit(ToFlush(s, op)))
    ensures MergesFit(s, op)
  {
    hide Stocked, Flushes, ToFlush, FlushMergesFit, L0Fits, LevelFits, PassFits;
    match op
    case L0ToL1 => StockedL0(s);
    case LevelDown(level) => StockedLevel(s, level);
    case Pass => StockedPass(s);
    case _ =>
  }

  /** The flush of a step within the bounds is done, and its merges fit. */
  lemma ModestFlushDone(w: World, ops: seq<Op>, op: Op)
    requires Survives(w) && Light(w.store, w.store.threshold, DeletedBehind(ops))
    requires Modest(w.store.threshold, ops, op)
    ensures Ends(w.store, op) == Done && MergesFit(w.store, op)
    ensures Flushes(w.store, op) ==> FlushCounts(ToFlush(w.store, op))
  {
    hide Survives, Light, FlushCounts, FlushFits, FlushMergesFit, ToFlush, Flushes, Modest, MergesFit, FlushEnds;
    hide DeletedBehind, Bounded, Stocked, Memtable.TotalCost;
    if Flushes(w.store, op) {
      ToFlushIsLight(w, ops, op);
      LightFits(ToFlush(w.store, op));
      BoundedFlush(ToFlush(w.store, op));
    }
    LightIsStocked(w.store, w.store.threshold, DeletedBehind(ops));
    StockedMergesFit(w.store, op);
  }

  /** A step within the bounds is durable, and its flush is done. */
  lemma ModestStep(w: World, ops: seq<Op>, op: Op)
    requires Survives(w) && !w.down && Light(w.store, w.store.threshold, DeletedBehind(ops))
    requires Modest(w.store.threshold, ops, op) && (op.Restart? || Timely(w, op))
    requires op.Restart? ==> w.store.nextID <= op.id
    ensures Durable(w, op) && Ends(w.store, op) == Done
  {
    hide Survives, Light, Bounded, FlushCounts, DeletedBehind, Timely, Ends, ToFlush, Flushes;
    hide Storable, Writes, ChunkSize, MergesFit;
    BoundedStorable(Writes(op));
    ModestFlushDone(w, ops, op);
  }

  lemma FlushingOps(s: Store, op: Op)
    requires Flushes(s, op)
    ensures op.Put? || op.FlushMem?
  {
    hide Wrote, Memtable.TotalCost;
  }

  lemma LightIsStocked(s: Store, threshold: nat, deleted: nat)
    requires Light(s, threshold, deleted)
    ensures Stocked(s) && s.threshold == threshold && forall e :: e in s.mem.Values ==> Bounded(e)
  {
    hide Stocked, Bounded, Memtable.TotalCost;
  }

  lemma {:induction false} PartCosts(v: set<Entry>, w: set<Entry>)
    requires v <= w
    ensures Memtable.TotalCost(v) <= Memtable.TotalCost(w)
    decreases |v|
  {
    hide Memtable.TotalCost;
    if v == {} {
      NothingCosts();
    } else {
      var e :| e in v;
      Memtable.TotalCostWithout(v, e);
      Memtable.TotalCostWithout(w, e);
      assert |v - {e}| < |v|;
      PartCosts(v - {e}, w - {e});
    }
  }

  lemma NothingCosts()
    ensures Memtable.TotalCost({}) == 0
  {
  }

  lemma PartValues(m: map<Str, Entry>, mem: map<Str, Entry>)
    requires PartOf(m, mem)
    ensures m.Values <= mem.Values
  {
    forall e | e in m.Values ensures e in mem.Values {
      var k :| k in m && m[k] == e;
      assert k in mem && mem[k] == e;
    }
  }

  lemma MoveStocked(w: World, op: Op)
    requires Survives(w) && Durable(w, op) && !op.Put? && !op.Del? && !op.FlushMem? && Stocked(w.store)
    ensures Next(w, op).store.mem.Values <= w.store.mem.Values
    ensures Next(w, op).store.threshold == w.store.threshold && Stocked(Next(w, op).store)
  {
    hide Survives, CompactL0, CompactLevel, LoopPass, Reopen, Stocked, Durable, TrustAfter, Restartable, PartOf;
    hide Overlaid;
    if op.Restart? {
      RestartSurvives(w, op);
      PartValues(Next(w, op).store.mem, w.store.mem);
      SameLevelsStocked(w.store, Next(w, op).store);
    } else {
      MoveSurvives(w, op);
      StockedL0(w.store);
      StockedPass(w.store);
      if op.LevelDown? {
        StockedLevel(w.store, op.level);
      }
    }
  }

  lemma SameLevelsStocked(s: Store, s': Store)
    requires Stocked(s) && s'.levels == s.levels
    ensures Stocked(s')
  {
    hide AllBounded;
  }

  lemma FlushedEmpty(s: Store, clock: int)
    requires Core(s, clock) && s.nextID < TWO_63 && s.mem != map[] && FlushEnds(s) == Done
    ensures Flush(s).mem == map[] && Flush(s).threshold == s.threshold
  {
    hide PlanL0, PlanOutputs, FlushedTable, FilesWith, Names, InputNames, TotalSize, RisingIds, Versioned, Pow10;
    hide FlushEnds;
  }

  /** After a step within the bounds memory is light again. */
  lemma StaysLight(w: World, ops: seq<Op>, op: Op)
    requires Survives(w) && Light(w.store, w.store.threshold, DeletedBehind(ops))
    requires Durable(w, op) && Ends(w.store, op) == Done && Modest(w.store.threshold, ops, op)
    ensures Light(Next(w, op).store, w.store.threshold, DeletedBehind(ops + [op]))
  {
    hide Survives, Stocked, Wrote, Memtable.TotalCost, Flush, DeletedBehind, ChunkSize, Bounded, Writes, FlushEnds;
    hide Durable, TrustAfter;
    DeletedSnoc(ops, op);
    var s := w.store;
    KeyedAfter(w);
    if Flushes(s, op) {
      ToFlushIsLight(w, ops, op);
      BoundedFlush(ToFlush(s, op));
      DurableFlushes(w, op);
      FlushingOps(s, op);
      EmptyIsLight(Flush(ToFlush(s, op)), 0);
    } else if op.Put? || op.Del? {
      NotFlushed(s, op);
      WroteBounded(s, Writes(op));
      WroteID(s, Writes(op));
      WriteCount(op);
      if op.Del? {
        DelCost(op);
      }
    } else if op.FlushMem? {
      NotFlushed(s, op);
      EmptyIsLight(s, 0);
    } else {
      MoveStocked(w, op);
      PartCosts(Next(w, op).store.mem.Values, s.mem.Values);
    }
  }

  /** What a done flush of a durable step leaves. */
  lemma DurableFlushes(w: World, op: Op)
    requires Survives(w) && Durable(w, op) && Flushes(w.store, op) && Ends(w.store, op) == Done
    ensures Run1(w.store, op) == Flush(ToFlush(w.store, op))
    ensures Flush(ToFlush(w.store, op)).mem == map[] && Flush(ToFlush(w.store, op)).threshold == w.store.threshold
  {
    hide Core, Mirrors, Intact, Trusted, Wrote, Flush, FlushEnds, FlushCounts, Writes, Storable, MergesFit, Base;
    hide Memtable.TotalCost, PlainWrites;
    if op.Put? {
      FillsSomething(w.store, op);
      WriteRefines(w, op);
      FlushedEmpty(ToFlush(w.store, op), op.now + |Writes(op)|);
    } else {
      FlushingOps(w.store, op);
      FlushedEmpty(w.store, w.clock);
    }
  }

  lemma DelCost(op: Op)
    requires op.Del?
    ensures ChunkSize(Writes(op)) == |op.key| + 16
  {
    var es := Writes(op);
    assert es == [Entry(op.key, [], op.now, true)] && es[..0] == [];
    assert ChunkSize(es[..0]) == 0;
  }

  lemma DeletedSnoc(ops: seq<Op>, op: Op)
    ensures DeletedBehind(ops + [op])
         == match op
            case Put(kvs, _) => (if kvs == [] then DeletedBehind(ops) else 0)
            case Del(key, _) => DeletedBehind(ops) + |key| + 16
            case FlushMem => 0
            case _ => DeletedBehind(ops)
  {
    assert (ops + [op])[..|ops|] == ops;
  }

  lemma {:induction false} ModestIsDurable(w: World, ops: seq<Op>)
    requires Survives(w) && w.store.mem == map[] && Stocked(w.store) && !w.down && ModestRun(w, ops)
    ensures DurableRun(w, ops) && NoFlushFails(w, ops) && !After(w, ops).down
    ensures Light(After(w, ops).store, w.store.threshold, DeletedBehind(ops))
    decreases |ops|
  {
    hide Survives, Durable, Light, Modest, DeletedBehind, Timely, Run1, Ends, Stocked, NextTrust, Flushes;
    if ops == [] {
      EmptyIsLight(w.store, DeletedBehind([]));
    } else {
      var init, op := ops[..|ops| - 1], ops[|ops| - 1];
      ModestIsDurable(w, init);
      RunSurvives(w, init);
      LightIsStocked(After(w, init).store, w.store.threshold, DeletedBehind(init));
      ModestStep(After(w, init), init, op);
      StaysLight(After(w, init), init, op);
      assert ops == init + [op];
    }
  }

  lemma StartIsStocked(numLevels: nat, threshold: nat, withLog: bool, id: nat, clock: int)
    ensures Stocked(Start(numLevels, threshold, withLog, id, clock).store)
  {
  }

  /** From bounds on what the caller passes: with keys and entries within the writer's bounds, and threshold,
      batch and the deletions since the last batch or flush together at most 48 KiB above 4 MiB, no flush fails
      and no file is left over; a reader sees the plain map, which is the map of all writes when each restart
      finds a log that holds the memtable, or no memtable. */
  lemma ModestHistorySurvives(numLevels: nat, threshold: nat, withLog: bool, id: nat, clock: int, ops: seq<Op>, k: Str)
    requires 2 <= numLevels && Pow10(DIGITS) <= id
    requires ModestRun(Start(numLevels, threshold, withLog, id, clock), ops)
    ensures var w0 := Start(numLevels, threshold, withLog, id, clock); var w := After(w0, ops);
      && Intact(w.store, {})
      && (k != [] && numLevels <= 7 ==> View(w.store, k) == if k in w.plain then Some(w.plain[k]) else None)
      && (RestartsSafely(w0, ops) ==> w.plain == AllWritten(map[], ops))
  {
    hide DurableRun, ModestRun, After, View, Intact, Start, Light, NoFlushFails, RestartsSafely, AllWritten, Survives;
    hide Stocked;
    var w := Start(numLevels, threshold, withLog, id, clock);
    StartSurvives(numLevels, threshold, withLog, id, clock);
    StartIsStocked(numLevels, threshold, withLog, id, clock);
    StartIsUp(numLevels, threshold, withLog, id, clock);
    ModestIsDurable(w, ops);
    if RestartsSafely(w, ops) {
      NothingIsTakenBack(w, ops);
    }
    NothingIsLeft(w, ops);
    HistorySurvivesRestarts(numLevels, threshold, withLog, id, clock, ops, k);
  }

  lemma StartIsUp(numLevels: nat, threshold: nat, withLog: bool, id: nat, clock: int)
    ensures var w := Start(numLevels, threshold, withLog, id, clock); !w.down && w.left == {} && w.plain == map[]
  {
  }

  lemma {:induction false} NothingIsLeft(w: World, ops: seq<Op>)
    requires NoFlushFails(w, ops) && w.left == {}
    ensures After(w, ops).left == {}
    decreases |ops|
  {
    hide Run1, Ends, NextTrust, Flushes;
    if ops != [] {
      NothingIsLeft(w, ops[..|ops| - 1]);
    }
  }
}
