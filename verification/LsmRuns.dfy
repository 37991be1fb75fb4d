/** Whole runs: from an empty directory, whatever the operations and however their flushes end, a reader sees
    the plain map that the same writes build, what a failed flush lost taken back. */
module LsmRuns {
  import opened Bytes
  import opened Entries
  import opened Versions
  import opened Varint
  import opened Records
  import opened Compaction
  import opened Chunks
  import opened Paths
  import opened LsmModel
  import opened LsmVersions
  import opened LsmTables
  import opened LsmRoom
  import opened LsmRecovery
  import opened LsmSteps
  import Memtable
  import WalFormat
  import Wal

  datatype Op =
    | Put(kvs: seq<KeyValue>, now: int)
    | Del(key: Str, now: int)
    | FlushMem
    | L0ToL1
    | LevelDown(level: nat)
    | Pass
    | Restart(crash: bool, id: nat)

  /** What the log is worth: it holds the memtable; it holds the zeros of a killed process and there is no
      memtable; or it may miss part of the memtable. */
  datatype Trust = Whole | Padded | Partial

  /** A store, the timestamps handed out so far, what its log is worth, the plain map the writes build, the
      plain map of what the levels hold, the files failed flushes left over, and whether the process is down. */
  datatype World = World(store: Store, clock: int, trust: Trust, plain: map<Str, Str>, saved: map<Str, Str>,
                         left: set<Name>, down: bool)

  ghost function Run1(s: Store, op: Op): Store {
    match op
    case Put(kvs, now) => PutBatch(s, kvs, now)
    case Del(key, now) => Delete(s, key, now)
    case FlushMem => Flush(s)
    case L0ToL1 => CompactL0(s)
    case LevelDown(level) => CompactLevel(s, level)
    case Pass => LoopPass(s)
    case Restart(crash, id) => Reopen(s, crash, id)
  }

  /** The versions an operation writes. */
  function Writes(op: Op): seq<Entry> {
    match op
    case Put(kvs, now) => BatchEntries(kvs, now)
    case Del(key, now) => [Entry(key, [], now, true)]
    case _ => []
  }

  /** Whether a batch fills the memtable. */
  ghost predicate Fills(s: Store, op: Op) {
    op.Put? && op.kvs != [] && Memtable.TotalCost(Wrote(s, Writes(op)).mem.Values) >= s.threshold
  }

  ghost predicate Flushes(s: Store, op: Op) {
    Fills(s, op) || (op.FlushMem? && s.mem != map[])
  }

  /** The store an operation flushes. */
  ghost function ToFlush(s: Store, op: Op): Store {
    if op.Put? then Wrote(s, Writes(op)) else s
  }

  /** How the operation's flush ends, if there is one. */
  ghost function Ends(s: Store, op: Op): FlushResult {
    if Flushes(s, op) then FlushEnds(ToFlush(s, op)) else Done
  }

  /** Nothing in memory and nothing in the log. */
  ghost predicate Blank(s: Store) {
    s.mem == map[] && s.log == Some(Wal.Fresh())
  }

  /** After a restart: a memtable that was recovered is no longer in the log. */
  ghost function TrustAfter(s: Store): Trust {
    if Blank(s) then Whole
    else if s.mem == map[] && s.log.Some? && Hollow(s.log.value) then Padded
    else Partial
  }

  /** The log holds the memtable, or there is no memtable. */
  ghost predicate Restartable(w: World) {
    if w.store.log.Some? then w.trust != Partial else w.store.mem == map[]
  }

  /** The plain map under a memtable. */
  function Overlaid(m: map<Str, Str>, mem: map<Str, Entry>): map<Str, Str> {
    map k | k in m.Keys + mem.Keys && !(k in mem && mem[k].tomb) :: if k in mem then mem[k].value else m[k]
  }

  ghost function NextTrust(w: World, op: Op): Trust {
    var e := Ends(w.store, op);
    if op.Restart? then TrustAfter(Run1(w.store, op))
    else if Flushes(w.store, op) && (e.Done? || e.Failed?) then Whole
    else if w.trust == Padded && Writes(op) != [] then Partial
    else w.trust
  }

  /** What an operation makes of a world. A failed flush takes the plain map back to what the levels hold, a
      flush that panics takes the process down, and a restart with a log that may miss part of the memtable
      leaves what the levels hold under what the log gives back. */
  ghost function Next(w: World, op: Op): World {
    var s, e, wrote := w.store, Ends(w.store, op), PlainWrites(w.plain, Writes(op));
    World(
      Run1(s, op),
      if op.Put? || op.Del? then op.now + |Writes(op)| else w.clock,
      NextTrust(w, op),
      if e.Failed? then w.saved
      else if op.Restart? && !Restartable(w) then Overlaid(w.saved, Run1(s, op).mem)
      else wrote,
      if Flushes(s, op) && e.Done? then wrote else w.saved,
      if op.Restart? then {} else if e.Failed? then w.left + {Name(0, s.nextID)} else w.left,
      e.Crashed?)
  }

  ghost function After(w: World, ops: seq<Op>): World {
    if ops == [] then w else Next(After(w, ops[..|ops| - 1]), ops[|ops| - 1])
  }

  /** The merges of an operation fit their files, cascades included. */
  ghost predicate MergesFit(s: Store, op: Op) {
    match op
    case L0ToL1 => L0Fits(s)
    case LevelDown(level) => LevelFits(s, level)
    case Pass => PassFits(s)
    case _ => Flushes(s, op) ==> FlushMergesFit(ToFlush(s, op))
  }

  /** The process is up, the clock exceeds every timestamp handed out, and table numbers fit 63 bits. */
  ghost predicate Timely(w: World, op: Op) {
    && !op.Restart? && !w.down
    && (op.Put? || op.Del? ==> w.clock <= op.now)
    && w.store.nextID < TWO_63
  }

  /** Merges fit their files, and a flush, which may fail or panic, does not happen to spell the legacy format. */
  ghost predicate Legal(w: World, op: Op) {
    Timely(w, op) && MergesFit(w.store, op) && !Ends(w.store, op).AsLegacy?
  }

  ghost predicate LegalRun(w: World, ops: seq<Op>) {
    ops == [] || (LegalRun(w, ops[..|ops| - 1]) && Legal(After(w, ops[..|ops| - 1]), ops[|ops| - 1]))
  }

  /** The invariants, and what a reader sees of the whole store and of its levels alone. */
  ghost predicate Refines(w: World) {
    Core(w.store, w.clock) && Mirrors(w.store, w.plain) && Mirrors(Base(w.store), w.saved)
  }

  lemma StampedWrites(op: Op)
    requires op.Put? || op.Del?
    ensures Stamped(Writes(op), op.now)
  {
  }

  lemma SameMirrors(s: Store, s': Store, m: map<Str, Str>)
    requires Mirrors(s, m) && |s.levels| == |s'.levels| && AllVersions(s) == AllVersions(s')
    ensures Mirrors(s', m)
  {
    hide Agrees, VersionsOf;
  }

  lemma FlushKeepsCount(s: Store)
    ensures |Flush(s).levels| == |s.levels|
  {
    hide Compact, PlanL0, FlushedTable, FilesWith, FlushEnds, FlushClosed;
    if |Flushed(s).levels| >= 2 && Flushed(s).levels[0] != [] {
      CompactCounts(Flushed(s), PlanL0(Flushed(s)));
    }
  }

  /** What a flush makes of what a reader sees: done, the levels alone show everything; failed, the store shows
      what the levels did; panicked, nothing changed yet. */
  lemma FlushRefines(s: Store, clock: int, m: map<Str, Str>, saved: map<Str, Str>)
    requires Core(s, clock) && Mirrors(s, m) && Mirrors(Base(s), saved) && s.nextID < TWO_63 && s.mem != map[]
    ensures var e := FlushEnds(s);
      && Core(Flush(s), clock)
      && Mirrors(Flush(s), if e.Failed? then saved else m)
      && Mirrors(Base(Flush(s)), if e.Done? then m else saved)
  {
    hide Core, Mirrors, AllVersions, Flush, FlushEnds;
    FlushKeepsCount(s);
    if FlushEnds(s) == Done {
      FlushOk(s, clock, m, {});
    } else {
      FlushEndsOtherwise(s, clock);
      SameLevelsBase(s, Flush(s));
      SameMirrors(Base(s), Base(Flush(s)), saved);
      SameMirrors(if FlushEnds(s).Failed? then Base(s) else s, Flush(s), if FlushEnds(s).Failed? then saved else m);
    }
  }

  lemma SameLevelsBase(s: Store, s': Store)
    requires s'.levels == s.levels
    ensures AllVersions(Base(s')) == AllVersions(Base(s))
  {
    hide HeldAll;
  }

  lemma WriteRefines(w: World, op: Op)
    requires Refines(w) && Timely(w, op) && (op.Put? || op.Del?)
    ensures var s := Wrote(w.store, Writes(op));
      && Core(s, op.now + |Writes(op)|) && Mirrors(s, PlainWrites(w.plain, Writes(op)))
      && Mirrors(Base(s), w.saved) && s.nextID == w.store.nextID && s.threshold == w.store.threshold
  {
    hide Core, Mirrors, Wrote, PlainWrites, Writes, AllVersions;
    StampedWrites(op);
    WroteID(w.store, Writes(op));
    WroteOk(w.store, w.clock, Writes(op), op.now, w.plain);
    SameMirrors(Base(w.store), Base(Wrote(w.store, Writes(op))), w.saved);
  }

  lemma FillsSomething(s: Store, op: Op)
    requires Fills(s, op)
    ensures op.Put? && Writes(op) != [] && Run1(s, op) == Flush(ToFlush(s, op)) && ToFlush(s, op).mem != map[]
  {
    hide Memtable.TotalCost, Wrote, Flush;
    WroteNonEmpty(s, Writes(op));
  }

  lemma NotFlushed(s: Store, op: Op)
    requires !Flushes(s, op) && (op.Put? || op.Del? || op.FlushMem?)
    ensures Run1(s, op) == if op.FlushMem? || Writes(op) == [] then s else Wrote(s, Writes(op))
    ensures Ends(s, op) == Done
  {
    hide Memtable.TotalCost, Wrote, FlushEnds;
  }

  lemma StepRefines(w: World, op: Op)
    requires Refines(w) && Timely(w, op)
    ensures Refines(Next(w, op))
  {
    hide Core, Mirrors, Flush, Wrote, PlainWrites, Writes, Fills, Base, FlushEnds;
    var s := w.store;
    NoWrites(w.plain, w.clock);
    if op.Put? || op.Del? {
      WriteRefines(w, op);
      var s1, now := Wrote(s, Writes(op)), op.now + |Writes(op)|;
      if Flushes(s, op) {
        FillsSomething(s, op);
        FlushRefines(s1, now, PlainWrites(w.plain, Writes(op)), w.saved);
      } else {
        NotFlushed(s, op);
        if Writes(op) == [] {
          LaterClock(s, w.clock, now);
        }
      }
    } else if op.FlushMem? {
      NoneWritten(s, op);
      if Flushes(s, op) {
        FlushRefines(s, w.clock, w.plain, w.saved);
      } else {
        NotFlushed(s, op);
      }
    } else {
      NoneWritten(s, op);
      MoveRefines(w, op);
    }
  }

  lemma NoneWritten(s: Store, op: Op)
    requires !op.Put? && !op.Del?
    ensures Writes(op) == [] && !Fills(s, op)
  {
  }

  /** Operations that only reorganise do so with the levels alone as well. */
  lemma MoveRefines(w: World, op: Op)
    requires Refines(w) && (op.L0ToL1? || op.LevelDown? || op.Pass?)
    ensures var s := Run1(w.store, op);
      Core(s, w.clock) && Mirrors(s, w.plain) && Mirrors(Base(s), w.saved) && Ends(w.store, op) == Done
    ensures !Flushes(w.store, op)
  {
    hide Core, Mirrors, Intact, CompactL0, CompactLevel, LoopPass, L0Fits, LevelFits, PassFits;
    var s := w.store;
    BaseCore(s, w.clock);
    match op
    case L0ToL1 =>
      CompactL0Ok(s, w.clock, w.plain, {});
      CompactL0Ok(Base(s), w.clock, w.saved, {});
      CompactL0Base(s);
    case LevelDown(level) =>
      CompactLevelOk(s, level, w.clock, w.plain, {});
      CompactLevelOk(Base(s), level, w.clock, w.saved, {});
      CompactLevelBase(s, level);
    case Pass =>
      LoopPassOk(s, w.clock, w.plain, {});
      LoopPassOk(Base(s), w.clock, w.saved, {});
      LoopPassBase(s);
  }

  lemma NoWrites(m: map<Str, Str>, now: int)
    ensures PlainWrites(m, []) == m && BatchEntries([], now) == []
  {
  }

  lemma LaterClock(s: Store, clock: int, later: int)
    requires Core(s, clock) && clock <= later
    ensures Core(s, later)
  {
    hide RisingIds, Versioned, Pow10;
    ClockAdvances(s.mem, s.levels, clock, later);
  }

  lemma WroteID(s: Store, es: seq<Entry>)
    ensures Wrote(s, es).nextID == s.nextID && Wrote(s, es).threshold == s.threshold
    ensures Wrote(s, es).log.Some? <==> s.log.Some?
    ensures Wrote(s, es).levels == s.levels
  {
    hide ApplyAll, WalFormat.Frame;
  }

  lemma WroteNonEmpty(s: Store, es: seq<Entry>)
    requires es != []
    ensures Wrote(s, es).mem != map[]
  {
    hide WalFormat.Frame;
    assert es[|es| - 1].key in Wrote(s, es).mem;
  }

  lemma {:induction false} RunRefines(w: World, ops: seq<Op>)
    requires Refines(w) && LegalRun(w, ops)
    ensures Refines(After(w, ops))
    decreases |ops|
  {
    hide Refines, Timely, MergesFit, Next, Ends;
    if ops != [] {
      RunRefines(w, ops[..|ops| - 1]);
      StepRefines(After(w, ops[..|ops| - 1]), ops[|ops| - 1]);
    }
  }

  /** A store opened on an empty directory, before the first write. */
  ghost function Start(numLevels: nat, threshold: nat, withLog: bool, id: nat, clock: int): World {
    World(Initial(numLevels, threshold, withLog, id), clock, Whole, map[], map[], {}, false)
  }

  lemma InitialCore(numLevels: nat, threshold: nat, withLog: bool, id: nat, clock: int)
    requires 2 <= numLevels && Pow10(DIGITS) <= id
    ensures Refines(Start(numLevels, threshold, withLog, id, clock))
    ensures Intact(Initial(numLevels, threshold, withLog, id), {})
  {
    hide Visible, Pow10;
    var s := Initial(numLevels, threshold, withLog, id);
    HeldNone();
    assert forall i :: 0 <= i < |s.levels| ==> s.levels[i] == [] && Held(s.levels[i]) == {};
    assert AllVersions(s) == {} && Base(s) == s;
    VisibleNothing();
    var none: seq<Table> := [];
    assert multiset(none) == multiset{};
  }

  lemma VisibleNothing()
    ensures forall k :: Visible({}, k) == None
  {
  }

  /** The store is the map of its history: after any run of batches, deletes, flushes, compactions
      and background passes, the newest version of each non-empty key over memtable and tables is
      what the plain map holds, which a failed flush takes back to what the levels held. */
  lemma HistoryIsVisible(numLevels: nat, threshold: nat, withLog: bool, id: nat, clock: int, ops: seq<Op>, k: Str)
    requires 2 <= numLevels <= 7 && Pow10(DIGITS) <= id
    requires LegalRun(Start(numLevels, threshold, withLog, id, clock), ops)
    requires k != []
    ensures var w := After(Start(numLevels, threshold, withLog, id, clock), ops);
      View(w.store, k) == if k in w.plain then Some(w.plain[k]) else None
  {
    hide Core, LegalRun, After, Start, Visible, AllVersions;
    InitialCore(numLevels, threshold, withLog, id, clock);
    RunRefines(Start(numLevels, threshold, withLog, id, clock), ops);
    LevelCount(Start(numLevels, threshold, withLog, id, clock), ops);
    StartCount(numLevels, threshold, withLog, id, clock);
  }

  lemma StartCount(numLevels: nat, threshold: nat, withLog: bool, id: nat, clock: int)
    ensures |Start(numLevels, threshold, withLog, id, clock).store.levels| == numLevels
  {
  }

  /** No operation but a restart changes the number of levels. */
  lemma StepCount(s: Store, op: Op)
    requires !op.Restart?
    ensures |Run1(s, op).levels| == |s.levels|
  {
    hide CompactL0, CompactLevel, LoopLevels, Flush, Wrote, Memtable.TotalCost;
    WroteID(s, Writes(op));
    FlushKeepsCount(s);
    FlushKeepsCount(Wrote(s, Writes(op)));
    match op
    case L0ToL1 => CompactL0Count(s);
    case LevelDown(level) => CompactLevelShape(s, level);
    case Pass =>
      CompactL0Count(s);
      LoopCount(if |s.levels| > 0 && |s.levels[0]| > MAX_L0_FILES then CompactL0(s) else s, 1);
    case _ =>
  }

  lemma CompactL0Count(s: Store)
    ensures |CompactL0(s).levels| == |s.levels|
  {
    hide Compact, PlanL0;
    if |s.levels| >= 2 && s.levels[0] != [] {
      CompactCounts(s, PlanL0(s));
    }
  }

  lemma {:induction false} LoopCount(s: Store, level: nat)
    ensures |LoopLevels(s, level).levels| == |s.levels|
    decreases |s.levels| - level
  {
    hide CompactLevel, LevelSize;
    if level + 1 < |s.levels| && |s.sizes| == |s.levels| {
      CompactLevelShape(s, level);
      LoopCount(if s.sizes[level] > LevelSize(BASE_LEVEL_SIZE, level) then CompactLevel(s, level) else s, level + 1);
    }
  }

  lemma {:induction false} LevelCount(w: World, ops: seq<Op>)
    requires LegalRun(w, ops)
    ensures |After(w, ops).store.levels| == |w.store.levels|
    decreases |ops|
  {
    hide Run1, MergesFit, Ends, NextTrust;
    if ops != [] {
      LevelCount(w, ops[..|ops| - 1]);
      StepCount(After(w, ops[..|ops| - 1]).store, ops[|ops| - 1]);
    }
  }

  /** In every reachable store the memtable is newer than every level, a level newer than those below
      it, and a later level-0 table newer than an earlier one; two versions of a key never have one
      timestamp, and every timestamp is below the clock. */
  lemma HistoryKeepsAge(numLevels: nat, threshold: nat, withLog: bool, id: nat, clock: int, ops: seq<Op>)
    requires 2 <= numLevels && Pow10(DIGITS) <= id
    requires LegalRun(Start(numLevels, threshold, withLog, id, clock), ops)
    ensures var w := After(Start(numLevels, threshold, withLog, id, clock), ops);
      && Aged(w.store.mem, w.store.levels) && NoTies(AllVersions(w.store))
      && forall e :: e in AllVersions(w.store) ==> e.ts < w.clock
  {
    hide LegalRun, After, Start, Mirrors, Aged, NoTies, RisingIds, VersionsOf;
    InitialCore(numLevels, threshold, withLog, id, clock);
    RunRefines(Start(numLevels, threshold, withLog, id, clock), ops);
  }

  // ----- what a failed flush takes -----

  /** The map all writes build, whatever became of them. */
  function AllWritten(m: map<Str, Str>, ops: seq<Op>): map<Str, Str> {
    if ops == [] then m else PlainWrites(AllWritten(m, ops[..|ops| - 1]), Writes(ops[|ops| - 1]))
  }

  /** No flush of the run fails. */
  ghost predicate NoFlushFails(w: World, ops: seq<Op>) {
    ops == [] ||
    (NoFlushFails(w, ops[..|ops| - 1]) && !Ends(After(w, ops[..|ops| - 1]).store, ops[|ops| - 1]).Failed?)
  }

  /** Each restart of the run finds a log that holds the memtable, or no memtable. */
  ghost predicate RestartsSafely(w: World, ops: seq<Op>) {
    ops == [] ||
    (RestartsSafely(w, ops[..|ops| - 1]) && (ops[|ops| - 1].Restart? ==> Restartable(After(w, ops[..|ops| - 1]))))
  }

  /** In such a run the plain map is that of all writes. */
  lemma {:induction false} NothingIsTakenBack(w: World, ops: seq<Op>)
    requires NoFlushFails(w, ops) && RestartsSafely(w, ops)
    ensures After(w, ops).plain == AllWritten(w.plain, ops)
    decreases |ops|
  {
    hide Run1, Ends, PlainWrites, NextTrust;
    if ops != [] {
      NothingIsTakenBack(w, ops[..|ops| - 1]);
    }
  }

  /** The two maps have the same value, or none, for every key but the empty one. */
  ghost predicate SamePlain(m: map<Str, Str>, m': map<Str, Str>) {
    forall k :: k != [] ==> (k in m <==> k in m') && (k in m ==> m[k] == m'[k])
  }

  lemma AgreesWith(v: set<Entry>, m: map<Str, Str>, m': map<Str, Str>)
    requires Agrees(v, m)
    ensures Agrees(v, m') <==> SamePlain(m, m')
  {
    hide Visible;
    if Agrees(v, m') {
      forall k | k != [] ensures (k in m <==> k in m') && (k in m ==> m[k] == m'[k]) {
        assert Visible(v, k) == Visible(v, k);
      }
    }
  }

  /** A batch that fills the memtable, and does not take the process down, shows a reader the plain map with its
      writes exactly when its flush fits its mapping, or when memory held nothing the levels do not show. */
  lemma PutKeepsHistory(w: World, op: Op)
    requires Refines(w) && Legal(w, op) && Fills(w.store, op) && |w.store.levels| <= 7
    requires FlushCounts(ToFlush(w.store, op)) && forall e :: e in ToFlush(w.store, op).mem.Values ==> Storable(e)
    requires !Ends(w.store, op).Crashed?
    ensures Agrees(AllVersions(Next(w, op).store), PlainWrites(w.plain, Writes(op)))
       <==> FlushFits(ToFlush(w.store, op)) || SamePlain(w.saved, PlainWrites(w.plain, Writes(op)))
  {
    hide Core, Agrees, Flush, Wrote, PlainWrites, Writes, FlushEnds, FlushFits, AllVersions, Storable, FlushCounts;
    hide SamePlain, MergesFit, Memtable.TotalCost;
    StepRefines(w, op);
    WriteRefines(w, op);
    FillsSomething(w.store, op);
    CoreKeyed(ToFlush(w.store, op), op.now + |Writes(op)|);
    DoneIffFits(ToFlush(w.store, op));
    StepCount(w.store, op);
    AgreesWith(AllVersions(Next(w, op).store), Next(w, op).plain, PlainWrites(w.plain, Writes(op)));
    SameItself(w.plain, op);
  }

  lemma SameItself(m: map<Str, Str>, op: Op)
    ensures SamePlain(PlainWrites(m, Writes(op)), PlainWrites(m, Writes(op)))
  {
    hide PlainWrites;
  }
}
