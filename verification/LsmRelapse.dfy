/** Two runs in which a background pass changes what a read gives: it brings an older value back, and it
    loses the empty key. */
module LsmRelapse {
  import opened Bytes
  import opened Entries
  import opened Versions
  import opened Varint
  import opened Records
  import opened TableFormat
  import opened TableLimits
  import opened TableLookup
  import opened Compaction
  import opened Chunks
  import opened Paths
  import opened LsmModel
  import opened LsmVersions
  import opened LsmTables
  import opened LsmRoom
  import opened LsmGet
  import opened LsmRuns
  import opened LsmRestarts
  import opened LsmSettle
  import opened LsmScenes
  import opened LsmLimits

  // ----- an older value that comes back -----

  /** An ascending batch that fills the memtable by itself, with keys within the bounds, and stays within one
      output file. */
  predicate Filling(kvs: seq<KeyValue>, threshold: nat) {
    && Ascending(kvs) && 0 < threshold <= BatchCost(kvs) <= TARGET_SIZE
    && forall kv :: kv in kvs ==> |kv.key| <= MAX_KEY
  }

  lemma {:induction false} NoneLarger(kvs: seq<KeyValue>)
    ensures forall kv :: kv in kvs ==> |kv.key| + |kv.value| + 16 <= BatchCost(kvs)
    decreases |kvs|
  {
    if kvs != [] {
      var n := |kvs| - 1;
      NoneLarger(kvs[..n]);
      assert kvs == kvs[..n] + [kvs[n]];
    }
  }

  /** A filling batch written `n` times, each time flushed. */
  lemma FillsReach(w0: World, ops: seq<Op>, w: World, kvs: seq<KeyValue>, n: nat)
    returns (ops': seq<Op>, w': World, ts: seq<Table>)
    requires Reaches(w0, ops, w) && Quiet(w.store) && Filling(kvs, w.store.threshold)
    requires |w.store.levels[0]| + n <= 2 * MAX_L0_FILES && w.store.nextID + n <= TWO_63
    requires IsInt64(w.clock) && IsInt64(Tick(w.clock, |kvs|, n)) && Stocked(w.store)
    ensures Reaches(w0, ops', w') && Quiet(w'.store) && Stocked(w'.store)
    ensures |ts| == n && Layers(ts, kvs, w.clock, w.store.nextID)
    ensures w'.store.levels == w.store.levels[0 := w.store.levels[0] + ts]
    ensures w'.store.nextID == w.store.nextID + n && w'.store.threshold == w.store.threshold
    ensures w'.clock == Tick(w.clock, |kvs|, n)
    ensures if n == 0 then w'.plain == w.plain else PlainPut(w.plain, w'.plain, kvs)
  {
    hide Reaches, Quiet, PlainPut, BatchCost, Ascending, Layers, Stocked, Lands, Tick;
    StoreLevels(w.store);
    NoneLarger(kvs);
    SmallLands(kvs, w.clock, Tick(w.clock, |kvs|, n));
    ops', w', ts := StockedPutsReach(w0, ops, w, kvs, n);
  }

  lemma {:induction false} FillingIsSized(kvs: seq<KeyValue>)
    requires BatchCost(kvs) <= TARGET_SIZE
    ensures Sized(kvs)
    decreases |kvs|
  {
    if kvs != [] {
      var n := |kvs| - 1;
      FillingIsSized(kvs[..n]);
      assert kvs == kvs[..n] + [kvs[n]];
    }
  }

  lemma BatchStorable(kvs: seq<KeyValue>, now: int)
    requires BatchCost(kvs) <= TARGET_SIZE && ClockFits(now, |kvs|)
    ensures AllStorable(BatchEntries(kvs, now)) && |Data(BatchEntries(kvs, now))| <= TARGET_SIZE + 19 * |kvs|
  {
    hide BatchCost, Data;
    FillingIsSized(kvs);
    BatchDataSize(kvs, now);
  }

  /** `c` is written behind `a`, then again alone, and then `d`, which is above it, is. */
  datatype Story = Story(a: Str, c: Str, d: Str, older: Str, newer: Str, other: Str) {
    function Both(): seq<KeyValue> { [KeyValue(a, older), KeyValue(c, older)] }
    function Again(): seq<KeyValue> { [KeyValue(c, newer)] }
    function Above(): seq<KeyValue> { [KeyValue(d, other)] }

    predicate Told(threshold: nat) {
      && a != [] && Less(a, c) && Less(c, d)
      && Filling(Both(), threshold) && Filling(Again(), threshold) && Filling(Above(), threshold)
    }
  }

  /** The first nine flushes. */
  lemma NineTables(w0: World, st: Story)
    returns (ops: seq<Op>, w: World, old4: seq<Table>, new4: seq<Table>, top: seq<Table>)
    requires Quiet(w0.store) && st.Told(w0.store.threshold) && w0.store.nextID + 9 < TWO_63
    requires Stocked(w0.store) && !w0.down && ClockFits(w0.clock, 17)
    requires forall i :: 0 <= i < |w0.store.levels| ==> w0.store.levels[i] == []
    ensures Reaches(w0, ops, w) && Quiet(w.store) && Stocked(w.store)
    ensures |old4| == 4 && Layers(old4, st.Both(), w0.clock, w0.store.nextID)
    ensures |new4| == 4 && Layers(new4, st.Again(), Tick(w0.clock, 2, 4), w0.store.nextID + 4)
    ensures |top| == 1 && Layers(top, st.Above(), Tick(Tick(w0.clock, 2, 4), 1, 4), w0.store.nextID + 8)
    ensures w.store.levels == w0.store.levels[0 := old4 + new4 + top] && w.store.nextID == w0.store.nextID + 9
    ensures w.store.threshold == w0.store.threshold && w.clock == Tick(Tick(Tick(w0.clock, 2, 4), 1, 4), 1, 1)
    ensures st.c in w.plain && w.plain[st.c] == st.newer
  {
    hide Reaches, Quiet, Layers, Tick, PlainPut, Filling, Stocked;
    StoreLevels(w0.store);
    ReachesItself(w0);
    Ticks(w0.clock);
    Ticks(w0.clock + 8);
    Ticks(w0.clock + 12);
    var ops1, w1, ts1 := FillsReach(w0, [], w0, st.Both(), 4);
    StoreLevels(w1.store);
    var ops2, w2, ts2 := FillsReach(w0, ops1, w1, st.Again(), 4);
    StoreLevels(w2.store);
    var ops3, w3, ts3 := FillsReach(w0, ops2, w2, st.Above(), 1);
    ops, w, old4, new4, top := ops3, w3, ts1, ts2, ts3;
    assert [] + ts1 == ts1;
    LastWriteStays(w1.plain, w2.plain, w3.plain, st);
  }

  lemma StoreLevels(s: Store)
    requires Quiet(s)
    ensures 2 <= |s.levels|
  {
  }

  lemma LastWriteStays(m1: map<Str, Str>, m2: map<Str, Str>, m3: map<Str, Str>, st: Story)
    requires PlainPut(m1, m2, st.Again()) && PlainPut(m2, m3, st.Above()) && Less(st.c, st.d)
    ensures st.c in m3 && m3[st.c] == st.newer
  {
    LessIrreflexive(st.c);
    assert st.Again()[0].key == st.c;
    assert !HasKey(st.Above(), st.c);
  }

  /** Nine level-0 tables, of which the first four are one batch written again and again. */
  ghost predicate Heaped(s: Store, kvs: seq<KeyValue>, clock: int, id: nat, take: seq<Table>, rest: seq<Table>) {
    && Quiet(s) && s.levels[0] == take + rest && |take| == 4 && |rest| == 5 && Layers(take, kvs, clock, id)
    && (forall i :: 2 <= i < |s.levels| ==> s.levels[i] == [])
    && s.nextID < TWO_63
  }

  /** The table a pass makes of them. */
  ghost function LastWriting(s: Store, kvs: seq<KeyValue>, clock: int): Table {
    Table(1, s.nextID, BatchEntries(kvs, Tick(clock, |kvs|, 3)))
  }

  lemma HeapMerges(s: Store, kvs: seq<KeyValue>, clock: int, id: nat, take: seq<Table>, rest: seq<Table>)
    requires Heaped(s, kvs, clock, id, take, rest) && NoneOverlap(s.levels[1], take)
    requires Ascending(kvs) && kvs[0].key != [] && BatchCost(kvs) <= TARGET_SIZE
    requires |kvs| <= 2 && ClockFits(Tick(clock, |kvs|, 3), |kvs|) && TotalSize(s.levels[1]) <= TARGET_SIZE + 38
    ensures TakesFour(s, [LastWriting(s, kvs, clock)]) && Shallow(s, [LastWriting(s, kvs, clock)])
  {
    hide Ascending, Tick, BatchCost, Layers, Outputs, TotalSize, RisingIds, Accounted, Pow10, NoneOverlap, Data;
    assert s.levels[0][..4] == take;
    LayersMerge(take, kvs, clock, id, 1, s.nextID);
    BatchStorable(kvs, Tick(clock, |kvs|, 3));
    TotalSizeOne(LastWriting(s, kvs, clock));
    assert LevelSize(BASE_LEVEL_SIZE, 1) == 0xA0_0000;
  }

  lemma HeapPasses(w0: World, ops: seq<Op>, w: World, kvs: seq<KeyValue>, clock: int, id: nat, take: seq<Table>,
                   rest: seq<Table>) returns (ops': seq<Op>, w': World)
    requires Reaches(w0, ops, w) && Stocked(w.store)
    requires Heaped(w.store, kvs, clock, id, take, rest) && NoneOverlap(w.store.levels[1], take)
    requires Ascending(kvs) && kvs[0].key != [] && BatchCost(kvs) <= TARGET_SIZE
    requires |kvs| <= 2 && ClockFits(Tick(clock, |kvs|, 3), |kvs|) && TotalSize(w.store.levels[1]) <= TARGET_SIZE + 38
    ensures Reaches(w0, ops', w') && ops' == ops + [Pass] && w' == Next(w, Pass) && Quiet(w'.store)
    ensures Stocked(w'.store)
    ensures w'.store.levels
         == w.store.levels[0 := rest][1 := w.store.levels[1] + [LastWriting(w.store, kvs, clock)]]
    ensures w'.store.nextID == w.store.nextID + 1 && w'.store.threshold == w.store.threshold
    ensures w'.clock == w.clock && w'.plain == w.plain
  {
    hide Reaches, Ascending, Tick, BatchCost, Layers, TotalSize, RisingIds, Accounted, Pow10, NoneOverlap, Next;
    hide TakesFour, Shallow, LastWriting, Stocked;
    HeapMerges(w.store, kvs, clock, id, take, rest);
    ops', w' := PassReaches(w0, ops, w, [LastWriting(w.store, kvs, clock)]);
    assert (take + rest)[4..] == rest;
  }

  // what the two tables report and hold

  lemma OneSample(t: Table, e: Entry, f: Entry)
    requires t.entries == [e, f]
    ensures MaxKey(Handle(t)) == e.key
  {
    hide FileBytes, FilterOf, Data;
    assert [e, f][..1] == [e];
    assert Samples([e, f], STEP) == Samples([e], STEP) + [];
    SampleOfOne(e);
  }

  lemma OneKeyRange(t: Table, e: Entry)
    requires t.entries == [e]
    ensures MinKey(Handle(t)) == e.key
  {
    hide Written;
    OneSorted(e);
    ReportedKeys(t.entries, STEP, Expect(t));
  }

  lemma {:induction false} SmallestSame(ts: seq<Table>, k: Str)
    requires ts != [] && forall t :: t in ts ==> MinKey(Handle(t)) == k
    ensures Smallest(ts) == k
    decreases |ts|
  {
    hide Handle, MinKey;
    LessIrreflexive(k);
    assert ts[|ts| - 1] in ts;
    if |ts| > 1 {
      SmallestSame(ts[..|ts| - 1], k);
    }
  }

  lemma {:induction false} AllMiss(ts: seq<Table>, k: Str)
    requires forall t :: t in ts ==> TableLookup.Get(Handle(t), k) == Missing
    ensures GetTables(ts, k) == Missing
    decreases |ts|
  {
    hide Handle, TableLookup.Get;
    if ts != [] {
      assert ts[0] in ts;
      AllMiss(ts[1..], k);
    }
  }

  lemma AboveMisses(t: Table, e: Entry, k: Str)
    requires t.entries == [e] && Storable(e) && Less(k, e.key)
    ensures TableLookup.Get(Handle(t), k) == Missing
  {
    hide TableLookup.Get, Handle, Storable, Admits, Trailing, Strays;
    OneSorted(e);
    LessAsymmetric(k, e.key);
    assert e in t.entries;
    ProbeIsSearch(t, k);
  }

  lemma Ticks(clock: int)
    ensures Tick(clock, 2, 3) == clock + 6 && Tick(clock, 2, 4) == clock + 8
    ensures Tick(clock, 1, 1) == clock + 1 && Tick(clock, 1, 3) == clock + 3 && Tick(clock, 1, 4) == clock + 4
  {
    assert Tick(clock, 2, 1) == clock + 2 && Tick(clock, 2, 2) == clock + 4;
    assert Tick(clock, 1, 1) == clock + 1;
    TickOne(clock, 2);
    TickOne(clock, 3);
    TickOne(clock, 4);
  }

  lemma {:induction false} TickOne(clock: int, i: nat)
    ensures Tick(clock, 1, i) == clock + i
    decreases i
  {
    if i > 0 {
      TickOne(clock, i - 1);
    }
  }

  /** The tables of a store in the story: level 0 as given, level 1, and nothing below. */
  ghost predicate TwoLevels(s: Store, top: seq<Table>, one: seq<Table>) {
    && 2 <= |s.levels| && s.levels[0] == top && s.levels[1] == one
    && forall i :: 2 <= i < |s.levels| ==> s.levels[i] == []
  }

  /** After the first pass: the older writings are one level-1 table. */
  lemma UpToFirstPass(w0: World, st: Story)
    returns (ops: seq<Op>, w: World, u: Table, new4: seq<Table>, top: seq<Table>)
    requires Quiet(w0.store) && st.Told(w0.store.threshold) && w0.store.nextID + 10 < TWO_63
    requires Stocked(w0.store) && !w0.down && ClockFits(w0.clock, 17)
    requires forall i :: 0 <= i < |w0.store.levels| ==> w0.store.levels[i] == []
    ensures Reaches(w0, ops, w) && Quiet(w.store) && Stocked(w.store) && st.c in w.plain && w.plain[st.c] == st.newer
    ensures u == Table(1, w0.store.nextID + 9, BatchEntries(st.Both(), w0.clock + 6))
    ensures |new4| == 4 && Layers(new4, st.Again(), w0.clock + 8, w0.store.nextID + 4)
    ensures |top| == 1 && Layers(top, st.Above(), w0.clock + 12, w0.store.nextID + 8)
    ensures TwoLevels(w.store, new4 + top, [u])
    ensures w.store.threshold == w0.store.threshold && w.store.nextID == w0.store.nextID + 10
    ensures w.clock == w0.clock + 13
  {
    hide Reaches, Quiet, Layers, Tick, PlainPut, BatchCost, BatchEntries, NoneOverlap, HasKey, Heaped, TotalSize;
    hide Story.Told, Story.Both, Story.Again, Story.Above, LastWriting, Ascending, Next, TwoLevels, Stocked;
    FitsFacts(st, w0.store.threshold);
    var ops1, w1, old4, mid, one := NineTables(w0, st);
    Ticks(w0.clock);
    Ticks(w0.clock + 8);
    Ticks(w0.clock + 12);
    StoreLevels(w0.store);
    NineAreHeaped(w0.store, w1.store, st, w0.clock, old4, mid, one);
    LastOfBoth(w1.store, st, w0.clock);
    ops, w := HeapPasses(w0, ops1, w1, st.Both(), w0.clock, w0.store.nextID, old4, mid + one);
    u, new4, top := LastWriting(w1.store, st.Both(), w0.clock), mid, one;
    FirstPassLevels(w0.store, w1.store, w.store, u, old4, mid, one);
  }

  lemma NineAreHeaped(s0: Store, s: Store, st: Story, clock: int, old4: seq<Table>, mid: seq<Table>, one: seq<Table>)
    requires Quiet(s) && 2 <= |s0.levels| && s.nextID < TWO_63
    requires forall i :: 0 <= i < |s0.levels| ==> s0.levels[i] == []
    requires s.levels == s0.levels[0 := old4 + mid + one] && |old4| == 4 && |mid| == 4 && |one| == 1
    requires Layers(old4, st.Both(), clock, s0.nextID)
    ensures Heaped(s, st.Both(), clock, s0.nextID, old4, mid + one)
    ensures NoneOverlap(s.levels[1], old4) && TotalSize(s.levels[1]) == 0
  {
    hide Quiet, Layers, NoneOverlap;
    NoTablesNoSize();
    NothingOverlapped(old4);
    assert old4 + mid + one == old4 + (mid + one);
  }

  lemma LastOfBoth(s: Store, st: Story, clock: int)
    ensures LastWriting(s, st.Both(), clock) == Table(1, s.nextID, BatchEntries(st.Both(), Tick(clock, 2, 3)))
    ensures |st.Both()| == 2 && |st.Again()| == 1 && |st.Above()| == 1
  {
    hide BatchEntries, Tick;
  }

  lemma FirstPassLevels(s0: Store, s1: Store, s2: Store, u: Table, old4: seq<Table>, mid: seq<Table>, one: seq<Table>)
    requires 2 <= |s0.levels| && forall i :: 0 <= i < |s0.levels| ==> s0.levels[i] == []
    requires s1.levels == s0.levels[0 := old4 + mid + one]
    requires s2.levels == s1.levels[0 := mid + one][1 := s1.levels[1] + [u]]
    ensures TwoLevels(s2, mid + one, [u])
  {
    assert [] + [u] == [u];
  }

  /** Before the second pass. */
  lemma UpToSecondPass(w0: World, st: Story)
    returns (ops: seq<Op>, w: World, u: Table, new4: seq<Table>, rest: seq<Table>)
    requires Quiet(w0.store) && st.Told(w0.store.threshold) && w0.store.nextID + 14 < TWO_63
    requires Stocked(w0.store) && !w0.down && ClockFits(w0.clock, 17)
    requires forall i :: 0 <= i < |w0.store.levels| ==> w0.store.levels[i] == []
    ensures Reaches(w0, ops, w) && Stocked(w.store) && st.c in w.plain && w.plain[st.c] == st.newer
    ensures u == Table(1, w0.store.nextID + 9, BatchEntries(st.Both(), w0.clock + 6))
    ensures TwoLevels(w.store, new4 + rest, [u])
    ensures Heaped(w.store, st.Again(), w0.clock + 8, w0.store.nextID + 4, new4, rest)
    ensures forall t :: t in rest ==> Upper(t, st, w0.clock)
  {
    hide Reaches, Quiet, Layers, Tick, PlainPut, BatchEntries, NoneOverlap, HasKey, Upper, Stocked, Filling;
    var ops2, w2, t, mid, top := UpToFirstPass(w0, st);
    StoreLevels(w2.store);
    Ticks(w2.clock);
    var more: seq<Table>;
    ops, w, more := FillsReach(w0, ops2, w2, st.Above(), 4);
    u, new4, rest := t, mid, top + more;
    assert mid + top + more == new4 + rest;
    PlainStays(w2.plain, w.plain, st);
    UpperTables(top, st, w0.clock, w0.clock + 12, w0.store.nextID + 8);
    UpperTables(more, st, w0.clock, w0.clock + 13, w2.store.nextID);
  }

  /** A table of the last batch. */
  ghost predicate Upper(t: Table, st: Story, clock: int) {
    exists now :: t.entries == BatchEntries(st.Above(), now) && clock + 12 <= now <= clock + 16
  }

  lemma PlainStays(m: map<Str, Str>, m': map<Str, Str>, st: Story)
    requires PlainPut(m, m', st.Above()) && Less(st.c, st.d) && st.c in m
    ensures st.c in m' && m'[st.c] == m[st.c]
  {
    LessIrreflexive(st.c);
    assert !HasKey(st.Above(), st.c);
  }

  lemma UpperTables(ts: seq<Table>, st: Story, clock: int, from: int, id: nat)
    requires Layers(ts, st.Above(), from, id) && clock + 12 <= from && from + |ts| <= clock + 17
    ensures forall t :: t in ts ==> Upper(t, st, clock)
  {
    hide BatchEntries;
    forall t | t in ts ensures Upper(t, st, clock) {
      var i :| 0 <= i < |ts| && ts[i] == t;
      TickOne(from, i);
      assert t.entries == BatchEntries(st.Above(), from + i);
    }
  }

  /** compactL0ToL1 tests overlap by reported ranges, and a table's reported range can end below its last
      key. In this run a pass moves the newer version of `c` into level 1 behind the older one: a read gives
      the newer value before the pass and the older one after it, while the newest version stays. */
  lemma PassBringsBackOlder(numLevels: nat, threshold: nat, id: nat, clock: int, st: Story)
    returns (ops: seq<Op>, w: World)
    requires 2 <= numLevels <= 7 && Pow10(DIGITS) <= id && id + 15 < TWO_63 && ClockFits(clock, 17)
    requires st.Told(threshold)
    ensures var w0 := Start(numLevels, threshold, false, id, clock);
      Reaches(w0, ops, w) && Reaches(w0, ops + [Pass], Next(w, Pass))
    ensures View(w.store, st.c) == Some(st.newer) && LsmGet.Get(w.store, st.c) == Value(st.newer)
    ensures View(Next(w, Pass).store, st.c) == Some(st.newer)
    ensures LsmGet.Get(Next(w, Pass).store, st.c) == Value(st.older)
  {
    hide Reaches, Quiet, Start, Pow10, View, LsmGet.Get, Story.Told, TwoLevels, Heaped, Next, NoneOverlap, TotalSize;
    hide Stocked;
    hide BatchEntries;
    var w0 := Start(numLevels, threshold, false, id, clock);
    StartFacts(numLevels, threshold, id, clock);
    StartQuiet(numLevels, threshold, id, clock);
    var ops1, w1, u, new4, rest := UpToSecondPass(w0, st);
    ops, w := ops1, w1;
    FitsFacts(st, threshold);
    NewerIsFirst(w.store, st, new4, rest, u, clock, id + 4);
    OldIsKept(w.store, st, new4, rest, u, clock, id + 4);
    Ticks(clock + 8);
    var ops2, w2 := HeapPasses(w0, ops, w, st.Again(), clock + 8, id + 4, new4, rest);
    PassedLevels(w.store, w2.store, new4, rest, u, LastWriting(w.store, st.Again(), clock + 8));
    OlderIsFirst(w2.store, st, rest, u, LastWriting(w.store, st.Again(), clock + 8), clock);
    NonEmptyIsShown(numLevels, threshold, id, clock, ops, w, st.c);
    NonEmptyIsShown(numLevels, threshold, id, clock, ops + [Pass], w2, st.c);
  }

  lemma PassedLevels(s: Store, s': Store, new4: seq<Table>, rest: seq<Table>, u: Table, v: Table)
    requires TwoLevels(s, new4 + rest, [u]) && Quiet(s')
    requires s'.levels == s.levels[0 := rest][1 := s.levels[1] + [v]]
    ensures TwoLevels(s', rest, [u] + [v]) && s'.mem == map[]
  {
    hide Accounted, RisingIds, Pow10;
  }

  lemma FitsFacts(st: Story, threshold: nat)
    requires st.Told(threshold)
    ensures st.a != [] && st.c != [] && Less(st.a, st.c) && Less(st.c, st.d)
    ensures Ascending(st.Both()) && st.Both()[0].key != []
    ensures Ascending(st.Again()) && BatchCost(st.Again()) <= TARGET_SIZE
    ensures BatchCost(st.Both()) <= TARGET_SIZE && BatchCost(st.Above()) <= TARGET_SIZE
  {
  }

  lemma NonEmptyIsShown(numLevels: nat, threshold: nat, id: nat, clock: int, ops: seq<Op>, w: World, k: Str)
    requires 2 <= numLevels <= 7 && Pow10(DIGITS) <= id && k != []
    requires Reaches(Start(numLevels, threshold, false, id, clock), ops, w)
    ensures View(w.store, k) == if k in w.plain then Some(w.plain[k]) else None
  {
    hide Start, After, LegalRun, DurableRun, NoFlushFails, Reaches, View, Pow10;
    ReachesWell(Start(numLevels, threshold, false, id, clock), ops, w);
    ReachesAfter(Start(numLevels, threshold, false, id, clock), ops, w);
    HistoryIsVisible(numLevels, threshold, false, id, clock, ops, k);
  }

  lemma NewerIsFirst(s: Store, st: Story, new4: seq<Table>, rest: seq<Table>, u: Table, clock: int, id: nat)
    requires TwoLevels(s, new4 + rest, [u]) && ClockFits(clock, 17) && BatchCost(st.Again()) <= TARGET_SIZE
    requires Heaped(s, st.Again(), clock + 8, id, new4, rest)
    ensures LsmGet.Get(s, st.c) == Value(st.newer)
  {
    hide Accounted, RisingIds, Pow10, TableLookup.Get, Handle, GetTables, Storable, BatchCost;
    BatchStorable(st.Again(), clock + 8);
    var e := Entry(st.c, st.newer, clock + 8, false);
    OneEntry(st.Again()[0], clock + 8);
    assert s.levels[0][0] == new4[0] && new4[0].entries == [e];
    assert BatchEntries(st.Again(), clock + 8)[0] == e;
    OneInTable(s.levels[0][0], e);
    FirstFinds(s.levels[0], st.c, e);
    LevelZeroFinds(s, st.c, e);
  }

  lemma OldIsKept(s: Store, st: Story, new4: seq<Table>, rest: seq<Table>, u: Table, clock: int, id: nat)
    requires TwoLevels(s, new4 + rest, [u]) && u.entries == BatchEntries(st.Both(), clock + 6)
    requires Less(st.a, st.c) && ClockFits(clock, 17) && BatchCost(st.Both()) <= TARGET_SIZE
    requires Heaped(s, st.Again(), clock + 8, id, new4, rest)
    ensures new4 != [] && NoneOverlap(s.levels[1], new4) && TotalSize(s.levels[1]) <= TARGET_SIZE + 38
  {
    hide Accounted, RisingIds, Pow10, Handle, BatchCost, MaxKey, MinKey, TotalSize, Greatest, Data, Smallest;
    OneSample(u, Entry(st.a, st.older, clock + 6, false), Entry(st.c, st.older, clock + 7, false));
    forall t | t in new4 ensures MinKey(Handle(t)) == st.c {
      var i :| 0 <= i < 4 && new4[i] == t;
      OneKeyRange(t, t.entries[0]);
    }
    SmallestSame(new4, st.c);
    BatchStorable(st.Both(), clock + 6);
    TotalSizeOne(u);
  }

  lemma OlderIsFirst(s: Store, st: Story, rest: seq<Table>, u: Table, v: Table, clock: int)
    requires TwoLevels(s, rest, [u] + [v]) && s.mem == map[]
    requires u.entries == BatchEntries(st.Both(), clock + 6)
    requires Less(st.a, st.c) && Less(st.c, st.d) && ClockFits(clock, 17)
    requires BatchCost(st.Both()) <= TARGET_SIZE && BatchCost(st.Above()) <= TARGET_SIZE
    requires forall t :: t in rest ==> Upper(t, st, clock)
    ensures LsmGet.Get(s, st.c) == Value(st.older)
  {
    hide TableLookup.Get, Handle, GetTables, Storable, BatchCost, GetLevels, Upper, BatchEntries, FindKey;
    UpperMiss(rest, st, clock);
    OlderInTable(u, st, clock);
    FirstFinds(s.levels[1], st.c, Entry(st.c, st.older, clock + 7, false));
    LevelOneFinds(s, st.c, Entry(st.c, st.older, clock + 7, false));
  }

  lemma UpperMiss(rest: seq<Table>, st: Story, clock: int)
    requires forall t :: t in rest ==> Upper(t, st, clock)
    requires Less(st.c, st.d) && ClockFits(clock, 17) && BatchCost(st.Above()) <= TARGET_SIZE
    ensures GetTables(rest, st.c) == Missing
  {
    hide TableLookup.Get, Handle, GetTables, Storable, BatchCost;
    forall t | t in rest ensures TableLookup.Get(Handle(t), st.c) == Missing {
      var now :| t.entries == BatchEntries(st.Above(), now) && clock + 12 <= now <= clock + 16;
      BatchStorable(st.Above(), now);
      OneEntry(st.Above()[0], now);
      AboveMisses(t, Entry(st.d, st.other, now, false), st.c);
    }
    AllMiss(rest, st.c);
  }

  lemma OlderInTable(u: Table, st: Story, clock: int)
    requires u.entries == BatchEntries(st.Both(), clock + 6) && Less(st.a, st.c) && ClockFits(clock, 17)
    requires BatchCost(st.Both()) <= TARGET_SIZE
    ensures TableLookup.Get(Handle(u), st.c) == Found(Entry(st.c, st.older, clock + 7, false))
  {
    hide TableLookup.Get, Handle, Storable, BatchCost, FindKey, BatchEntries, Sorted, Data;
    TwoEntries(st, clock + 6);
    SecondInTable(u, Entry(st.a, st.older, clock + 6, false), Entry(st.c, st.older, clock + 7, false));
    BatchStorable(st.Both(), clock + 6);
    PresentIsFound(u, st.c);
  }

  lemma TwoEntries(st: Story, now: int)
    ensures BatchEntries(st.Both(), now) == [Entry(st.a, st.older, now, false), Entry(st.c, st.older, now + 1, false)]
    ensures |st.Both()| == 2
  {
  }

  lemma SecondInTable(t: Table, e: Entry, f: Entry)
    requires t.entries == [e, f] && Less(e.key, f.key)
    ensures Sorted(t.entries) && FindKey(t.entries, f.key) == Some(f)
  {
    LessIrreflexive(f.key);
    assert t.entries[1..] == [f];
  }

  lemma LevelOneFinds(s: Store, k: Str, e: Entry)
    requires s.mem == map[] && 2 <= |s.levels| && GetTables(s.levels[0], k) == Missing
    requires GetTables(s.levels[1], k) == Found(e)
    ensures LsmGet.GetEntry(s, k) == Found(e)
  {
    hide GetTables;
    var below := s.levels[1..];
    assert below[0] == s.levels[1] && GetLevels(below, k) == Found(e);
  }

  // ----- the empty key -----

  /** Merging versions of the empty key alone leaves nothing. */
  lemma EmptyKeyMerges(ts: seq<Table>, kvs: seq<KeyValue>, clock: int, id: nat, newID: nat)
    requires Layers(ts, kvs, clock, id) && Ascending(kvs) && |kvs| == 1 && kvs[0].key == []
    ensures Outputs(ts, 1, newID) == []
  {
    hide Held, Layers, Ascending, ChunksOf, Tick;
    LayersHaveNoTies(ts, kvs, clock, id);
    forall e | e in Held(ts) ensures e.key == [] {
      var i, j := LayerEntry(ts, kvs, clock, id, e);
    }
    assert Survivors(Held(ts), false) == {};
    OutputsAre(ts, [], 1, newID);
    NoChunks();
  }

  lemma NoChunks()
    ensures ChunksOf([]) == []
  {
  }

  /** The empty key and another one. */
  ghost predicate Pair(empty: seq<KeyValue>, other: seq<KeyValue>, threshold: nat) {
    && |empty| == |other| == 1 && empty[0].key == [] && other[0].key != []
    && Filling(empty, threshold) && Filling(other, threshold)
  }

  lemma PairHeaps(w0: World, empty: seq<KeyValue>, other: seq<KeyValue>)
    returns (ops: seq<Op>, w: World, take: seq<Table>, rest: seq<Table>)
    requires Quiet(w0.store) && Pair(empty, other, w0.store.threshold) && w0.store.nextID + 9 < TWO_63
    requires Stocked(w0.store) && !w0.down && ClockFits(w0.clock, 9)
    requires forall i :: 0 <= i < |w0.store.levels| ==> w0.store.levels[i] == []
    ensures Reaches(w0, ops, w) && Heaped(w.store, empty, w0.clock, w0.store.nextID, take, rest)
    ensures Layers(rest, other, w0.clock + 4, w0.store.nextID + 4) && w.store.levels[1] == [] && Stocked(w.store)
  {
    hide Reaches, Quiet, Layers, Tick, PlainPut, Filling, Stocked;
    StoreLevels(w0.store);
    ReachesItself(w0);
    Ticks(w0.clock);
    TickOne(w0.clock + 4, 5);
    var ops1, w1, ts1 := FillsReach(w0, [], w0, empty, 4);
    StoreLevels(w1.store);
    ops, w, rest := FillsReach(w0, ops1, w1, other, 5);
    take := ts1;
    assert [] + ts1 == ts1;
  }

  lemma EmptyPasses(s: Store, empty: seq<KeyValue>, clock: int, id: nat, take: seq<Table>, rest: seq<Table>)
    requires Heaped(s, empty, clock, id, take, rest) && s.levels[1] == []
    requires Ascending(empty) && |empty| == 1 && empty[0].key == []
    ensures TakesFour(s, []) && Shallow(s, [])
  {
    hide Ascending, Layers, Outputs, RisingIds, Accounted, Pow10, NoneOverlap, LevelSize;
    assert s.levels[0][..4] == take;
    EmptyKeyMerges(take, empty, clock, id, s.nextID);
    NothingOverlapped(take);
    NoTablesNoSize();
  }

  /** The newest version of the empty key among the tables of the pair. */
  lemma EmptyKeyShown(s: Store, empty: seq<KeyValue>, other: seq<KeyValue>, clock: int, id: nat, take: seq<Table>,
                      rest: seq<Table>)
    requires Heaped(s, empty, clock, id, take, rest) && Layers(rest, other, clock + 4, id + 4) && s.levels[1] == []
    requires |empty| == |other| == 1 && empty[0].key == [] && other[0].key != [] && NoTies(AllVersions(s))
    ensures View(s, []) == Some(empty[0].value)
  {
    hide RisingIds, Accounted, Pow10, Newest, Held, Layers, Tick;
    OnlyTopHeld(s.levels);
    HeldAppend(take, rest);
    LayerHeld(take, empty, clock, id, 3);
    var e := Entry([], empty[0].value, Tick(clock, 1, 3), false);
    assert BatchEntries(empty, Tick(clock, 1, 3)) == [e];
    OneSorted(e);
    forall f | f in AllVersions(s) && f.key == [] ensures f.ts <= e.ts {
      if f in Held(take) {
        var i, a := LayerEntry(take, empty, clock, id, f);
        TickOrder(clock, 1, i, 3);
      } else {
        var i, a := LayerEntry(rest, other, clock + 4, id + 4, f);
      }
    }
    NewestIs(AllVersions(s), [], e);
  }

  lemma EmptyKeyGone(s: Store, other: seq<KeyValue>, clock: int, id: nat)
    requires s.mem == map[] && 0 < |s.levels| && Layers(s.levels[0], other, clock, id)
    requires forall i :: 0 < i < |s.levels| ==> s.levels[i] == []
    requires |other| == 1 && other[0].key != []
    ensures View(s, []) == None
  {
    hide Newest, Held, Layers;
    OnlyTopHeld(s.levels);
    forall f | f in AllVersions(s) ensures f.key != [] {
      var i, a := LayerEntry(s.levels[0], other, clock, id, f);
    }
    NoneNewest(AllVersions(s), []);
    NoneVisible(AllVersions(s), []);
  }

  /** A batch with the empty key is flushed four times, another one five times; the pass that follows merges
      the four tables into nothing, and the empty key, shown until then, is gone. */
  lemma PassLosesEmptyKey(numLevels: nat, threshold: nat, id: nat, clock: int, v: Str, other: KeyValue)
    returns (ops: seq<Op>, w: World)
    requires 2 <= numLevels <= 7 && Pow10(DIGITS) <= id && id + 9 < TWO_63 && ClockFits(clock, 9)
    requires Pair([KeyValue([], v)], [other], threshold)
    ensures var w0 := Start(numLevels, threshold, false, id, clock);
      Reaches(w0, ops, w) && Reaches(w0, ops + [Pass], Next(w, Pass))
    ensures View(w.store, []) == Some(v) && View(Next(w, Pass).store, []) == None
  {
    hide Reaches, Quiet, Start, Pow10, View, Next, Layers, Pair, TakesFour, Shallow, TookFour, Heaped, NoTies;
    hide AllVersions, Stocked;
    var w0 := Start(numLevels, threshold, false, id, clock);
    StartFacts(numLevels, threshold, id, clock);
    StartQuiet(numLevels, threshold, id, clock);
    var empty := [KeyValue([], v)];
    PairFacts(empty, [other], threshold);
    var ops1, w1, take, rest := PairHeaps(w0, empty, [other]);
    ops, w := ops1, w1;
    HeapedFacts(w.store, empty, clock, id, take, rest);
    EmptyPasses(w.store, empty, clock, id, take, rest);
    var ops2, w2 := PassReaches(w0, ops, w, []);
    ReachedHasNoTies(numLevels, threshold, id, clock, ops, w);
    EmptyKeyShown(w.store, empty, [other], clock, id, take, rest);
    PassedEmpty(w.store, w2.store, take, rest);
    EmptyKeyGone(w2.store, [other], clock + 4, id + 4);
  }

  lemma PairFacts(empty: seq<KeyValue>, other: seq<KeyValue>, threshold: nat)
    requires Pair(empty, other, threshold)
    ensures Ascending(empty) && |empty| == |other| == 1 && empty[0].key == [] && other[0].key != []
  {
    hide Ascending;
  }

  lemma HeapedFacts(s: Store, kvs: seq<KeyValue>, clock: int, id: nat, take: seq<Table>, rest: seq<Table>)
    requires Heaped(s, kvs, clock, id, take, rest)
    ensures 2 <= |s.levels| && s.levels[0] == take + rest && |take| == 4 && |rest| == 5 && s.nextID < TWO_63
    ensures forall i :: 2 <= i < |s.levels| ==> s.levels[i] == []
  {
  }

  lemma ReachedHasNoTies(numLevels: nat, threshold: nat, id: nat, clock: int, ops: seq<Op>, w: World)
    requires 2 <= numLevels <= 7 && Pow10(DIGITS) <= id
    requires Reaches(Start(numLevels, threshold, false, id, clock), ops, w)
    ensures NoTies(AllVersions(w.store))
  {
    hide Start, After, LegalRun, DurableRun, NoFlushFails, Reaches, NoTies, AllVersions, Pow10;
    ReachesWell(Start(numLevels, threshold, false, id, clock), ops, w);
    ReachesAfter(Start(numLevels, threshold, false, id, clock), ops, w);
    HistoryKeepsAge(numLevels, threshold, false, id, clock, ops);
  }

  lemma PassedEmpty(s: Store, s': Store, take: seq<Table>, rest: seq<Table>)
    requires TookFour(s, s', []) && s.levels[0] == take + rest && |take| == 4 && s.levels[1] == []
    requires forall i :: 2 <= i < |s.levels| ==> s.levels[i] == []
    ensures s'.mem == map[] && 0 < |s'.levels| && s'.levels[0] == rest
    ensures forall i :: 0 < i < |s'.levels| ==> s'.levels[i] == []
  {
    hide Accounted, RisingIds, Pow10;
    assert (take + rest)[4..] == rest;
  }
}
