/** Where the engine does less than its documentation says: for each case an input that shows it, over
    all keys and values it happens with. */
module LsmLimits {
  import opened Bytes
  import opened Entries
  import opened Versions
  import opened Records
  import opened TableFormat
  import opened TableLimits
  import opened TableLookup
  import opened Sstable
  import opened Chunks
  import opened Varint
  import opened Paths
  import opened LsmModel
  import opened LsmVersions
  import opened LsmTables
  import opened LsmRecovery
  import opened LsmGet
  import opened LsmRuns
  import opened LsmSettle
  import opened LsmScenes
  import Phantom
  import Memtable
  import WalFormat
  import Wal

  // ----- the second restart -----

  /** A restart behind a restart finds nothing in the log. */
  lemma LogAfterRestart(l: Wal.LogState, mem: map<Str, Entry>, crash: bool, again: bool)
    requires Recoverable(l, mem)
    ensures var r := Recovered(LogFile(l, crash));
      r.0 == mem && Recovered(LogFile(r.1, again)).0 == map[]
  {
    hide Recoverable, Hollow, Recovered, LogFile;
    RecoveredIsMemtable(l, mem, crash);
    if mem == map[] {
      EmptyIsHollow(l);
      HollowReopens(l, crash);
      HollowReopens(Recovered(LogFile(l, crash)).1, again);
    } else {
      RecoveredOnce(l, mem, crash);
      FreshIsRecoverable();
      RecoveredIsMemtable(Wal.Fresh(), map[], again);
    }
  }

  /** recoverWAL resets the log while the entries are only in memory: the first restart gives the
      memtable back, and a second one right behind it keeps it exactly when it was empty. */
  lemma SecondRestartForgets(s: Store, crash: bool, id: nat, again: bool, id': nat)
    requires s.log.Some? && Recoverable(s.log.value, s.mem)
    ensures var s1 := Reopen(s, crash, id);
      var s2 := Reopen(s1, again, id');
      s1.mem == s.mem && s2.mem == map[] && (s2.mem == s1.mem <==> s.mem == map[])
  {
    hide Recoverable, Recovered, Load, LogFile;
    LogAfterRestart(s.log.value, s.mem, crash, again);
  }

  // ----- the log of a killed process that had written nothing -----

  ghost function LoggedAll(l: Wal.LogState, batches: seq<seq<Entry>>): (r: Wal.LogState)
    requires LogOk(l)
    ensures LogOk(r)
  {
    if batches == [] then l
    else Wal.Appended(LoggedAll(l, batches[..|batches| - 1]), WalFormat.Frame(batches[|batches| - 1]))
  }

  lemma {:induction false} LoggedAllBytes(l: Wal.LogState, batches: seq<seq<Entry>>)
    requires LogOk(l)
    ensures LoggedAll(l, batches).bytes == l.bytes + WalFormat.Frames(batches)
    decreases |batches|
  {
    hide WalFormat.Frame, Wal.Doubled;
    if batches == [] {
      assert l.bytes + [] == l.bytes;
    } else {
      var n := |batches| - 1;
      LoggedAllBytes(l, batches[..n]);
      FramesAppend(batches[..n], batches[n]);
      assert batches == batches[..n] + [batches[n]];
    }
  }

  /** The log file a process leaves that opened an empty directory and was killed. */
  function UncleanLog(): Wal.LogState {
    Wal.OpenFile(Wal.CrashFile(Wal.Fresh()))
  }

  lemma UncleanBytes()
    ensures LogOk(UncleanLog()) && UncleanLog().bytes == [WalFormat.VERSION] + Zeros(Wal.INITIAL_SIZE - 1)
  {
  }

  /** So it is after a kill, and a log like new after a close. */
  lemma IdleStop(numLevels: nat, threshold: nat, clock: nat, crash: bool, id: nat)
    ensures var s := Reopen(Initial(numLevels, threshold, true, clock), crash, id);
      s.mem == map[] && s.log == Some(if crash then UncleanLog() else Wal.Fresh())
  {
    hide Load, WalFormat.ReplayFrom, Zeros;
    UncleanBytes();
    WalFormat.ZerosReplayNothing(Wal.INITIAL_SIZE - 1);
    WalFormat.ZerosReplayNothing(0);
    assert Zeros(0) == [];
    assert ([WalFormat.VERSION] + Zeros(Wal.INITIAL_SIZE - 1))[1..] == Zeros(Wal.INITIAL_SIZE - 1);
    Wal.FreshReopens();
    assert Wal.Fresh().bytes[1..] == [];
  }

  /** The next process takes the preallocated zeros for log and writes behind them. Its batches do not
      start on a multiple of five zero bytes, so the recovery after it finds none of them, however it
      stops. */
  lemma UncleanLogLosesBatches(batches: seq<seq<Entry>>, crash: bool)
    requires forall b :: b in batches ==> WalFormat.Loggable(b)
    requires batches != [] && batches[0] != []
    ensures LogOk(UncleanLog())
    ensures Recovered(LogFile(LoggedAll(UncleanLog(), batches), crash)).0 == map[]
  {
    hide WalFormat.Loggable, WalFormat.Frames, UncleanLog, Recovered, LogFile, LoggedAll, Zeros;
    UncleanBytes();
    LoggedAllBytes(UncleanLog(), batches);
    RecoveredBehindZeros(LoggedAll(UncleanLog(), batches), Wal.INITIAL_SIZE - 1, batches, crash);
  }

  // ----- tables of a run -----

  lemma OneSorted(e: Entry)
    ensures Sorted([e]) && Elems([e]) == {e}
  {
    assert Elems([e]) == {e};
  }

  lemma PresentIsFound(t: Table, k: Str)
    requires Sorted(t.entries) && AllStorable(t.entries) && FindKey(t.entries, k).Some?
    ensures TableLookup.Get(Handle(t), k) == Found(FindKey(t.entries, k).value)
  {
    hide TableLookup.Get, Written, Behind, Storable, Admits;
    GetFinds(t.entries, STEP, Expect(t), k);
  }

  lemma OneInTable(t: Table, e: Entry)
    requires t.entries == [e] && Storable(e)
    ensures TableLookup.Get(Handle(t), e.key) == Found(e)
  {
    hide TableLookup.Get, Handle, Storable;
    OneSorted(e);
    PresentIsFound(t, e.key);
  }

  lemma FirstFinds(ts: seq<Table>, k: Str, e: Entry)
    requires ts != [] && TableLookup.Get(Handle(ts[0]), k) == Found(e)
    ensures GetTables(ts, k) == Found(e)
  {
    hide TableLookup.Get, Handle;
  }

  lemma LevelZeroFinds(s: Store, k: Str, e: Entry)
    requires s.mem == map[] && |s.levels| > 0 && GetTables(s.levels[0], k) == Found(e)
    ensures LsmGet.GetEntry(s, k) == Found(e)
  {
    hide GetTables;
  }

  lemma TwoHeld(t0: Table, t1: Table, e0: Entry, e1: Entry)
    requires t0.entries == [e0] && t1.entries == [e1]
    ensures Held([t0, t1]) == {e0, e1}
  {
    hide Held;
    HeldOne(t0);
    HeldOne(t1);
    HeldAppend([t0], [t1]);
    assert [t0] + [t1] == [t0, t1];
  }

  lemma OnlyTopHeld(levels: seq<seq<Table>>)
    requires |levels| > 0 && forall i :: 0 < i < |levels| ==> levels[i] == []
    ensures VersionsOf(map[], levels) == Held(levels[0])
  {
    hide Held;
    HeldNone();
    var none: map<Str, Entry> := map[];
    assert none.Values == {};
  }

  lemma OneAscends(kv: KeyValue)
    ensures Ascending([kv]) && BatchCost([kv]) == |kv.key| + |kv.value| + 16
  {
    assert [kv][..0] == [];
    assert BatchCost([kv][..0]) == 0;
  }

  lemma OneEntry(kv: KeyValue, now: int)
    ensures BatchEntries([kv], now) == [Entry(kv.key, kv.value, now, false)]
  {
  }

  // ----- a key nobody wrote -----

  /** Put one pair with a certain key into an empty store, with any value whose flush fits the mapping: the
      memtable is flushed, and Get finds a key that was never written. */
  lemma StrayIsRead(numLevels: nat, threshold: nat, id: nat, clock: int, v: Str)
    requires 2 <= numLevels && Pow10(DIGITS) <= id < TWO_63 && 0 < threshold <= 143 + |v|
    requires RunFits([Entry(Phantom.Seed(), v, clock, false)])
    ensures var ops := [Put([KeyValue(Phantom.Seed(), v)], clock)];
      var w := After(Start(numLevels, threshold, false, id, clock), ops);
      && Reaches(Start(numLevels, threshold, false, id, clock), ops, w)
      && View(w.store, Phantom.Stray()) == None && Phantom.Stray() !in w.plain
      && LsmGet.Get(w.store, Phantom.Stray()) == Value([])
  {
    hide Quiet, Reaches, Phantom.Seed, Phantom.Stray, Start, Pow10, StacksWorld, After, View, LsmGet.Get, RunFits;
    FitsStorable(Entry(Phantom.Seed(), v, clock, false));
    var w0 := Start(numLevels, threshold, false, id, clock);
    StartFacts(numLevels, threshold, id, clock);
    StartQuiet(numLevels, threshold, id, clock);
    ReachesItself(w0);
    var kv := KeyValue(Phantom.Seed(), v);
    SeedSize();
    OneAscends(kv);
    OneEntry(kv, clock);
    var ops, w := PutReaches(w0, [], w0, [kv]);
    ReachesAfter(w0, ops, w);
    assert ops == [Put([kv], clock)];
    FirstTable(w0, w, [kv]);
    StrayIsFoundIn(w.store, Table(0, id, [Entry(Phantom.Seed(), v, clock, false)]), v, clock);
    Phantom.SeedBelowStray();
    StrayNotPlain(w0, w, kv);
  }

  lemma FitsStorable(e: Entry)
    requires RunFits([e])
    ensures Storable(e)
  {
    hide FileBytes, HasRoom, Storable;
    assert e in [e];
  }

  /** A store whose only table is the flushed pair. */
  lemma StrayIsFoundIn(s: Store, t: Table, v: Str, clock: int)
    requires Storable(Entry(Phantom.Seed(), v, clock, false))
    requires t.level == 0 && t.entries == [Entry(Phantom.Seed(), v, clock, false)]
    requires s.mem == map[] && |s.levels| > 0 && s.levels[0] == [t]
    requires forall i :: 0 < i < |s.levels| ==> s.levels[i] == []
    ensures View(s, Phantom.Stray()) == None && LsmGet.Get(s, Phantom.Stray()) == Value([])
  {
    hide Storable, Phantom.Seed, Phantom.Stray, Visible, Newest, VersionsOf, Held, GetTables, LsmGet.GetEntry;
    hide TableLookup.Get, Handle;
    StrayInTable(t, v, clock);
    FirstFinds([t], Phantom.Stray(), Entry(Phantom.Stray(), [], 0, false));
    LevelZeroFinds(s, Phantom.Stray(), Entry(Phantom.Stray(), [], 0, false));
    OnlyTopHeld(s.levels);
    HeldOne(t);
    OneSorted(t.entries[0]);
    Phantom.SeedBelowStray();
    NoneNewest(Held([t]), Phantom.Stray());
    NoneVisible(Held([t]), Phantom.Stray());
  }

  lemma StrayInTable(t: Table, v: Str, clock: int)
    requires Storable(Entry(Phantom.Seed(), v, clock, false))
    requires t.level == 0 && t.entries == [Entry(Phantom.Seed(), v, clock, false)]
    ensures TableLookup.Get(Handle(t), Phantom.Stray()) == Found(Entry(Phantom.Stray(), [], 0, false))
  {
    hide Storable, Phantom.Seed, Phantom.Stray, TableLookup.Get, Written;
    Phantom.StrayIsFound(v, clock, false);
  }

  lemma SeedSize()
    ensures |Phantom.Seed()| == 127
  {
  }

  /** The first filling batch becomes the only table. */
  lemma FirstTable(w0: World, w: World, kvs: seq<KeyValue>)
    requires StacksWorld(w0, w, kvs) && |w0.store.levels| > 0
    requires forall i :: 0 <= i < |w0.store.levels| ==> w0.store.levels[i] == []
    ensures w.store.mem == map[] && |w.store.levels| == |w0.store.levels|
    ensures w.store.levels[0] == [Table(0, w0.store.nextID, BatchEntries(kvs, w0.clock))]
    ensures forall i :: 0 < i < |w.store.levels| ==> w.store.levels[i] == []
  {
    hide Accounted, RisingIds, Pow10, PlainPut, BatchEntries;
  }

  lemma StrayNotPlain(w0: World, w: World, kv: KeyValue)
    requires StacksWorld(w0, w, [kv]) && w0.plain == map[] && kv.key != Phantom.Stray()
    ensures Phantom.Stray() !in w.plain
  {
    hide Stacks, Phantom.Stray;
    assert !HasKey([kv], Phantom.Stray());
  }

  // ----- two versions in level 0 -----

  /** Get scans level 0 from its oldest table: two batches, each large enough to be flushed and small enough to
      fit its mapping, write one key, and a read gives the first value where the newest version has the second. */
  lemma TwoPutsReadStale(numLevels: nat, threshold: nat, id: nat, clock: int, k: Str, v0: Str, v1: Str)
    requires 2 <= numLevels && Pow10(DIGITS) <= id && id + 1 < TWO_63
    requires 0 < threshold <= |k| + |v0| + 16 && threshold <= |k| + |v1| + 16
    requires RunFits([Entry(k, v0, clock, false)]) && RunFits([Entry(k, v1, clock + 1, false)])
    ensures var ops := [Put([KeyValue(k, v0)], clock), Put([KeyValue(k, v1)], clock + 1)];
      var w := After(Start(numLevels, threshold, false, id, clock), ops);
      && Reaches(Start(numLevels, threshold, false, id, clock), ops, w)
      && View(w.store, k) == Some(v1) && LsmGet.Get(w.store, k) == Value(v0)
  {
    hide Quiet, Reaches, Storable, Start, Pow10, StacksWorld, After, View, LsmGet.Get, Ascending, BatchCost;
    hide BatchEntries, RunFits;
    FitsStorable(Entry(k, v0, clock, false));
    var w0 := Start(numLevels, threshold, false, id, clock);
    StartFacts(numLevels, threshold, id, clock);
    StartQuiet(numLevels, threshold, id, clock);
    ReachesItself(w0);
    var a, b := KeyValue(k, v0), KeyValue(k, v1);
    OneAscends(a);
    OneAscends(b);
    OneEntry(a, clock);
    OneEntry(b, clock + 1);
    var ops1, w1 := PutReaches(w0, [], w0, [a]);
    FirstTable(w0, w1, [a]);
    StacksQuiet(w0, w1, [a]);
    var ops, w := PutReaches(w0, ops1, w1, [b]);
    ReachesAfter(w0, ops, w);
    assert ops == [Put([a], clock), Put([b], clock + 1)];
    SecondTable(w1, w, [b], Table(0, id, [Entry(k, v0, clock, false)]));
    var e0, e1 := Entry(k, v0, clock, false), Entry(k, v1, clock + 1, false);
    TwoVersionsRead(w.store, Table(0, id, [e0]), Table(0, id + 1, [e1]), e0, e1);
  }

  lemma StacksQuiet(w: World, w': World, kvs: seq<KeyValue>)
    requires StacksWorld(w, w', kvs)
    ensures Quiet(w'.store) && w'.clock == w.clock + |kvs| && w'.store.nextID == w.store.nextID + 1
    ensures w'.store.threshold == w.store.threshold
  {
    hide Quiet, PlainPut, BatchEntries;
  }

  lemma SecondTable(w: World, w': World, kvs: seq<KeyValue>, t: Table)
    requires StacksWorld(w, w', kvs) && |w.store.levels| > 0 && w.store.levels[0] == [t]
    requires forall i :: 0 < i < |w.store.levels| ==> w.store.levels[i] == []
    ensures w'.store.mem == map[] && |w'.store.levels| == |w.store.levels|
    ensures w'.store.levels[0] == [t, Table(0, w.store.nextID, BatchEntries(kvs, w.clock))]
    ensures forall i :: 0 < i < |w'.store.levels| ==> w'.store.levels[i] == []
  {
    hide Accounted, RisingIds, Pow10, PlainPut, BatchEntries;
  }

  lemma TwoVersionsRead(s: Store, t0: Table, t1: Table, e0: Entry, e1: Entry)
    requires s.mem == map[] && |s.levels| > 0 && s.levels[0] == [t0, t1]
    requires forall i :: 0 < i < |s.levels| ==> s.levels[i] == []
    requires t0.entries == [e0] && t1.entries == [e1] && e0.key == e1.key && e0.ts < e1.ts
    requires Storable(e0) && !e0.tomb && !e1.tomb
    ensures View(s, e0.key) == Some(e1.value) && LsmGet.Get(s, e0.key) == Value(e0.value)
  {
    hide TableLookup.Get, Handle, Newest, GetTables, VersionsOf, Held;
    OneInTable(t0, e0);
    FirstFinds(s.levels[0], e0.key, e0);
    TwoHeld(t0, t1, e0, e1);
    OnlyTopHeld(s.levels);
    NewestIs({e0, e1}, e0.key, e1);
  }

  // ----- a table that outgrows its mapping -----

  /** A flush that fails leaves only what the levels held. */
  lemma FailedFlushForgets(s: Store)
    requires FlushClosed(s).Leaves?
    ensures AllVersions(Lost(s)) == HeldAll(s.levels)
  {
    hide FlushClosed, HeldAll;
    var none: map<Str, Entry> := map[];
    assert none.Values == {};
  }

  /** It leaves the file all the same: the table's bytes as far as the mapping went, which do not open, and no other
      file. */
  lemma FailedFlushLeavesFile(s: Store)
    requires Memtable.KeyedByKey(s.mem) && s.mem != map[] && FlushCounts(s)
    requires forall e :: e in s.mem.Values ==> Storable(e)
    requires FlushEnds(s) == Failed
    ensures Flush(s).nextID == s.nextID + 1
    ensures var es, name, f := SortedMem(s.mem), Name(0, s.nextID), Flush(s).files;
      && f.Keys == s.files.Keys + {name} && (forall n :: n in s.files && n != name ==> f[n] == s.files[n])
      && var whole, m := FileBytes(es, STEP, |es|), SizeAfter(es);
         && |f[name]| == |whole| > m && f[name][..m] == whole[..m] && f[name][m..] == Zeros(|whole| - m)
         && !TableFormat.Open(f[name], false).Opened?
  {
    hide FileBytes, SizeAfter, TableFormat.Open, SortedMem, Storable, FlushEnds, Flush, FlushClosed, FlushCounts;
    FailedIsLost(s);
    FailedIsCut(s);
  }

  lemma FailedIsCut(s: Store)
    requires Memtable.KeyedByKey(s.mem) && s.mem != map[] && FlushCounts(s)
    requires forall e :: e in s.mem.Values ==> Storable(e)
    requires FlushEnds(s) == Failed && FlushClosed(s).Leaves?
    ensures var es, f := SortedMem(s.mem), FlushClosed(s).bytes;
      var whole, m := FileBytes(es, STEP, |es|), SizeAfter(es);
      |f| == |whole| > m && f[..m] == whole[..m] && f[m..] == Zeros(|whole| - m)
  {
    hide FileBytes, SizeAfter, TableFormat.Open, SortedMem, Storable, Clipped, FlushEnds, Handle, FlushedTable;
    hide FlushCounts, Zeros;
    DoneIffFits(s);
    var es := SortedMem(s.mem);
    ClippedBytes(FileBytes(es, STEP, |es|), SizeAfter(es));
  }

  lemma FailedIsLost(s: Store)
    requires s.mem != map[] && FlushEnds(s) == Failed
    ensures FlushClosed(s).Leaves? && !TableFormat.Open(FlushClosed(s).bytes, false).Opened?
    ensures Flush(s).files == s.files[Name(0, s.nextID) := FlushClosed(s).bytes] && Flush(s).nextID == s.nextID + 1
  {
    hide FlushClosed, TableFormat.Open;
  }

  lemma OneWritten(s: Store, kv: KeyValue, now: int)
    requires s.mem == map[]
    ensures var e := Entry(kv.key, kv.value, now, false); var s1 := Wrote(s, BatchEntries([kv], now));
      && s1.mem == map[kv.key := e] && s1.levels == s.levels && s1.threshold == s.threshold
      && Memtable.TotalCost(s1.mem.Values) == Cost(e) && SortedMem(s1.mem) == [e]
  {
    hide WalFormat.Frame, Memtable.TotalCost;
    var e := Entry(kv.key, kv.value, now, false);
    OneEntry(kv, now);
    assert [e][..0] == [];
    assert ApplyAll(s.mem, [e][..0]) == map[];
    OneInMemory(e);
    OneSorted(e);
    SortedDistinct([e]);
    SortedUnique(SortedEntries({e}), [e]);
    Memtable.TotalCostWithout({e}, e);
    assert {e} - {e} == {};
    NoCost();
  }

  lemma NoCost()
    ensures Memtable.TotalCost({}) == 0
  {
  }

  /** flushMemtable empties memory and resets the log before it opens the new file. For every key within the
      bounds there is a value that, put into an empty store, makes the table `n` bytes larger than its
      mapping, whatever the threshold up to almost 8 MiB: up to 24 the put fails and nothing of it is left in
      memory, log or levels, and with 25 it panics. */
  lemma FlushCanFail(s: Store, key: Str, now: int, n: nat) returns (v: Str)
    requires s.mem == map[] && s.threshold <= INITIAL_SIZE - 2240
    requires forall i :: 0 <= i < |s.levels| ==> s.levels[i] == []
    requires |key| <= MAX_KEY && IsInt64(now) && n <= 25
    ensures var kvs := [KeyValue(key, v)]; var s1 := Wrote(s, BatchEntries(kvs, now));
      && View(s1, key) == Some(v)
      && (n == 0 <==> PutEnds(s, kvs, now) == Done)
      && (n == 25 <==> PutEnds(s, kvs, now) == Crashed)
      && (5 <= n <= 24 ==> PutEnds(s, kvs, now) == Failed && PutBatch(s, kvs, now) == Lost(s1))
      && (n <= 24 ==> FlushClosed(s1).Leaves? && View(Lost(s1), key) == None)
  {
    hide Wrote, CloseOf, TableFormat.Open, Newest, HeldAll, SortedMem, Memtable.TotalCost, Writable, SizeAfter;
    hide FileBytes, Lost;
    v := ValueForExcess(key, now, n);
    var kv := KeyValue(key, v);
    var e := Entry(key, v, now, false);
    OneWritten(s, kv, now);
    var s1 := Wrote(s, BatchEntries([kv], now));
    ExcessDecides(key, v, now, n);
    NothingHeld(s.levels);
    OneInMemory(e);
    NewestIs({e}, key, e);
    assert AllVersions(s1) == {e};
    if n <= 24 {
      FailedFlushForgets(s1);
      NoneNewest({}, key);
      NoneVisible({}, key);
    }
  }

  lemma NothingHeld(levels: seq<seq<Table>>)
    requires forall i :: 0 <= i < |levels| ==> levels[i] == []
    ensures HeldAll(levels) == {}
  {
  }
}
