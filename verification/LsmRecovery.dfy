/** Recovery: what the log and the files of a stopped store are read back as. */
module LsmRecovery {
  import opened Bytes
  import opened Entries
  import opened Versions
  import opened Records
  import opened TableFormat
  import opened TableLookup
  import opened Sstable
  import opened Paths
  import opened Chunks
  import opened LsmModel
  import opened LsmTables
  import WalFormat
  import Wal

  // ----- the log -----

  /** The log is the frames of these batches, and replaying them gives the memtable. */
  ghost predicate LogIs(l: Wal.LogState, mem: map<Str, Entry>, batches: seq<seq<Entry>>) {
    && l.bytes == [WalFormat.VERSION] + WalFormat.Frames(batches)
    && (forall b :: b in batches ==> WalFormat.Loggable(b))
    && ApplyAll(map[], WalFormat.Flatten(batches)) == mem
  }

  /** The log holds the whole memtable. */
  ghost predicate Recoverable(l: Wal.LogState, mem: map<Str, Entry>) {
    LogOk(l) && exists batches :: LogIs(l, mem, batches)
  }

  lemma {:induction false} ApplyAllAppend(mem: map<Str, Entry>, a: seq<Entry>, b: seq<Entry>)
    ensures ApplyAll(mem, a + b) == ApplyAll(ApplyAll(mem, a), b)
    decreases |b|
  {
    if b == [] {
      assert a + b == a;
    } else {
      var n := |b| - 1;
      ApplyAllAppend(mem, a, b[..n]);
      assert (a + b)[..|a + b| - 1] == a + b[..n];
    }
  }

  lemma {:induction false} FramesAppend(batches: seq<seq<Entry>>, es: seq<Entry>)
    ensures WalFormat.Frames(batches + [es]) == WalFormat.Frames(batches) + WalFormat.Frame(es)
    ensures WalFormat.Flatten(batches + [es]) == WalFormat.Flatten(batches) + es
    decreases |batches|
  {
    hide WalFormat.Frame;
    if batches == [] {
      assert batches + [es] == [es];
      assert [es][1..] == [];
      assert WalFormat.Frames([es]) == WalFormat.Frame(es) + WalFormat.Frames([]);
      assert WalFormat.Flatten([es]) == es + WalFormat.Flatten([]);
    } else {
      FramesAppend(batches[1..], es);
      assert (batches + [es])[1..] == batches[1..] + [es];
    }
  }

  lemma FreshIsRecoverable()
    ensures Recoverable(Wal.Fresh(), map[])
  {
    assert WalFormat.Frames([]) == [] && WalFormat.Flatten([]) == [];
    assert [WalFormat.VERSION] + [] == [WalFormat.VERSION];
    assert LogIs(Wal.Fresh(), map[], []);
  }

  lemma AppendedOk(l: Wal.LogState, buf: Str)
    requires LogOk(l)
    ensures LogOk(Wal.Appended(l, buf))
  {
  }

  /** A batch that is logged and applied stays recoverable. */
  lemma AppendIsRecoverable(l: Wal.LogState, mem: map<Str, Entry>, es: seq<Entry>)
    requires Recoverable(l, mem) && WalFormat.Loggable(es)
    ensures Recoverable(Wal.Appended(l, WalFormat.Frame(es)), ApplyAll(mem, es))
  {
    hide WalFormat.Frame, WalFormat.Loggable, WalFormat.Frames, WalFormat.Flatten, ApplyAll, Wal.Doubled;
    var batches :| LogIs(l, mem, batches);
    AppendedOk(l, WalFormat.Frame(es));
    FramesAppend(batches, es);
    ApplyAllAppend(map[], WalFormat.Flatten(batches), es);
    var l' := Wal.Appended(l, WalFormat.Frame(es));
    assert l'.bytes == [WalFormat.VERSION] + (WalFormat.Frames(batches) + WalFormat.Frame(es));
    assert LogIs(l', ApplyAll(mem, es), batches + [es]);
  }

  /** recoverWAL gives the memtable back, after a kill with the preallocated zeros still in the file
      as after Close. */
  lemma RecoveredIsMemtable(l: Wal.LogState, mem: map<Str, Entry>, crash: bool)
    requires Recoverable(l, mem)
    ensures Recovered(LogFile(l, crash)).0 == mem && LogOk(Recovered(LogFile(l, crash)).1)
  {
    hide WalFormat.Loggable, WalFormat.Frames, WalFormat.Flatten, ApplyAll, WalFormat.ReplayFrom;
    var batches :| LogIs(l, mem, batches);
    var file := LogFile(l, crash);
    var z := |file| - |l.bytes|;
    assert file == [WalFormat.VERSION] + WalFormat.Frames(batches) + Zeros(z);
    WalFormat.PaddingIsInert(batches, z);
    assert Wal.OpenFile(file).bytes == file;
  }

  // ----- a log that replays to nothing -----

  /** Nothing but frames of nothing and zero bytes. */
  ghost predicate Hollow(l: Wal.LogState) {
    LogOk(l) && exists batches, z: nat :: HollowOf(l, batches, z)
  }

  ghost predicate HollowOf(l: Wal.LogState, batches: seq<seq<Entry>>, z: nat) {
    && l.bytes == [WalFormat.VERSION] + WalFormat.Frames(batches) + Zeros(z)
    && (forall b :: b in batches ==> WalFormat.Loggable(b)) && WalFormat.Flatten(batches) == []
  }

  lemma MoreZeros(a: nat, b: nat)
    ensures Zeros(a) + Zeros(b) == Zeros(a + b)
  {
  }

  /** Such a log is kept by a restart, killed or closed, and gives an empty memtable. */
  lemma HollowReopens(l: Wal.LogState, crash: bool)
    requires Hollow(l)
    ensures Recovered(LogFile(l, crash)).0 == map[] && Hollow(Recovered(LogFile(l, crash)).1)
  {
    hide WalFormat.Loggable, WalFormat.Frames, WalFormat.Flatten, WalFormat.ReplayFrom, Zeros;
    var batches, z: nat :| HollowOf(l, batches, z);
    var file := LogFile(l, crash);
    var more := |file| - |l.bytes|;
    MoreZeros(z, more);
    NoZeros();
    assert file == [WalFormat.VERSION] + WalFormat.Frames(batches) + Zeros(z + more);
    WalFormat.PaddingIsInert(batches, z + more);
    assert Wal.OpenFile(file).bytes == file;
    assert HollowOf(Wal.OpenFile(file), batches, z + more);
    NothingApplied();
  }

  lemma NoZeros()
    ensures Zeros(0) == []
  {
  }

  lemma NothingApplied()
    ensures ApplyAll(map[], []) == map[]
  {
  }

  lemma AppliedSomething(es: seq<Entry>)
    requires es != []
    ensures ApplyAll(map[], es) != map[]
  {
    assert es[|es| - 1].key in ApplyAll(map[], es);
  }

  /** An empty memtable's log replays to nothing. */
  lemma EmptyIsHollow(l: Wal.LogState)
    requires Recoverable(l, map[])
    ensures Hollow(l)
  {
    hide WalFormat.Loggable, WalFormat.Frames, WalFormat.Flatten, ApplyAll, Zeros;
    var batches :| LogIs(l, map[], batches);
    if WalFormat.Flatten(batches) != [] {
      AppliedSomething(WalFormat.Flatten(batches));
      assert false;
    }
    NoZeros();
    assert HollowOf(l, batches, 0);
  }

  /** After a restart that found a memtable the log is empty, and that memtable is in no file. */
  lemma RecoveredOnce(l: Wal.LogState, mem: map<Str, Entry>, crash: bool)
    requires Recoverable(l, mem) && mem != map[]
    ensures Recovered(LogFile(l, crash)).1 == Wal.Fresh()
  {
    hide WalFormat.Loggable, WalFormat.Frames, WalFormat.Flatten, ApplyAll, WalFormat.ReplayFrom, Zeros;
    RecoveredIsMemtable(l, mem, crash);
    NothingApplied();
  }

  // ----- a log that misses part of the memtable -----

  /** A log with `z` zero bytes before its first batch is recovered exactly when `z` is a multiple of
      five, and otherwise nothing of it is. */
  lemma RecoveredBehindZeros(l: Wal.LogState, z: nat, batches: seq<seq<Entry>>, crash: bool)
    requires forall b :: b in batches ==> WalFormat.Loggable(b)
    requires batches != [] && batches[0] != []
    requires l.bytes == [WalFormat.VERSION] + Zeros(z) + WalFormat.Frames(batches) && |l.bytes| <= l.size
    ensures Recovered(LogFile(l, crash)).0
         == if z % 5 == 0 then ApplyAll(map[], WalFormat.Flatten(batches)) else map[]
  {
    hide WalFormat.Loggable, WalFormat.Frames, WalFormat.ReplayFrom, WalFormat.Flatten, ApplyAll, Zeros;
    var file := LogFile(l, crash);
    var pad := |file| - |l.bytes|;
    WalFormat.AppendBehindZeros(z, batches, pad);
    var rest := Zeros(z) + (WalFormat.Frames(batches) + Zeros(pad));
    assert file == [WalFormat.VERSION] + rest;
    assert file[1..] == rest;
    assert Wal.OpenFile(file).bytes == file;
    NothingApplied();
  }

  ghost predicate PartOf(m: map<Str, Entry>, mem: map<Str, Entry>) {
    forall k :: k in m ==> k in mem && m[k] == mem[k]
  }

  lemma {:induction false} AppliedPart(m: map<Str, Entry>, mem: map<Str, Entry>, es: seq<Entry>)
    requires PartOf(m, mem)
    ensures PartOf(ApplyAll(m, es), ApplyAll(mem, es))
    decreases |es|
  {
    if es != [] {
      AppliedPart(m, mem, es[..|es| - 1]);
    }
  }

  /** Zero bytes, and behind them the frames of the last batches that went into the memtable. */
  ghost predicate TailIs(l: Wal.LogState, mem: map<Str, Entry>, z: nat, batches: seq<seq<Entry>>,
                         before: map<Str, Entry>) {
    && l.bytes == [WalFormat.VERSION] + Zeros(z) + WalFormat.Frames(batches)
    && (forall b :: b in batches ==> WalFormat.Loggable(b) && b != [])
    && ApplyAll(before, WalFormat.Flatten(batches)) == mem
  }

  ghost predicate Tailed(l: Wal.LogState, mem: map<Str, Entry>) {
    LogOk(l) && exists z: nat, batches, before :: TailIs(l, mem, z, batches, before)
  }

  /** Zero bytes that misalign everything behind them. */
  ghost predicate Stuck(l: Wal.LogState) {
    LogOk(l) && exists z: nat, f :: StuckOf(l, z, f)
  }

  ghost predicate StuckOf(l: Wal.LogState, z: nat, f: Str) {
    z % 5 != 0 && f != [] && f[0] != 0 && l.bytes == [WalFormat.VERSION] + Zeros(z) + f
  }

  lemma FreshIsTailed(mem: map<Str, Entry>)
    ensures Tailed(Wal.Fresh(), mem)
  {
    NoZeros();
    assert WalFormat.Frames([]) == [] && WalFormat.Flatten([]) == [];
    assert [WalFormat.VERSION] + [] + [] == [WalFormat.VERSION];
    assert TailIs(Wal.Fresh(), mem, 0, [], mem);
  }

  lemma TailedAppend(l: Wal.LogState, mem: map<Str, Entry>, es: seq<Entry>)
    requires Tailed(l, mem) && WalFormat.Loggable(es) && es != []
    ensures Tailed(Wal.Appended(l, WalFormat.Frame(es)), ApplyAll(mem, es))
  {
    hide WalFormat.Frame, WalFormat.Loggable, WalFormat.Frames, WalFormat.Flatten, ApplyAll, Wal.Doubled, Zeros;
    var z: nat, batches, before :| TailIs(l, mem, z, batches, before);
    AppendedOk(l, WalFormat.Frame(es));
    FramesAppend(batches, es);
    ApplyAllAppend(before, WalFormat.Flatten(batches), es);
    var l' := Wal.Appended(l, WalFormat.Frame(es));
    assert l'.bytes == [WalFormat.VERSION] + Zeros(z) + (WalFormat.Frames(batches) + WalFormat.Frame(es));
    assert TailIs(l', ApplyAll(mem, es), z, batches + [es], before);
  }

  lemma StuckAppend(l: Wal.LogState, buf: Str)
    requires Stuck(l)
    ensures Stuck(Wal.Appended(l, buf))
  {
    hide Wal.Doubled, Zeros;
    var z: nat, f :| StuckOf(l, z, f);
    AppendedOk(l, buf);
    assert Wal.Appended(l, buf).bytes == [WalFormat.VERSION] + Zeros(z) + (f + buf);
    assert StuckOf(Wal.Appended(l, buf), z, f + buf);
  }

  /** Frames of nothing are zero bytes. */
  lemma {:induction false} HollowFrames(batches: seq<seq<Entry>>) returns (z: nat)
    requires WalFormat.Flatten(batches) == []
    ensures WalFormat.Frames(batches) == Zeros(z)
    decreases |batches|
  {
    hide WalFormat.Frame, Zeros;
    if batches == [] {
      z := 0;
      NoZeros();
    } else {
      assert |WalFormat.Flatten(batches)| == |batches[0]| + |WalFormat.Flatten(batches[1..])|;
      z := HollowFrames(batches[1..]);
      WalFormat.EmptyFrame();
      MoreZeros(5, z);
      z := 5 + z;
    }
  }

  lemma HollowAppend(l: Wal.LogState, es: seq<Entry>)
    requires Hollow(l) && WalFormat.Loggable(es) && es != []
    ensures Tailed(Wal.Appended(l, WalFormat.Frame(es)), ApplyAll(map[], es))
  {
    hide WalFormat.Frame, WalFormat.Loggable, WalFormat.Frames, WalFormat.Flatten, ApplyAll, Zeros;
    var batches, z: nat :| HollowOf(l, batches, z);
    var y := HollowFrames(batches);
    MoreZeros(y, z);
    NoFrames();
    NothingApplied();
    assert l.bytes == [WalFormat.VERSION] + Zeros(y + z) + [];
    assert TailIs(l, map[], y + z, [], map[]);
    TailedAppend(l, map[], es);
  }

  lemma NoFrames()
    ensures WalFormat.Frames([]) == [] && WalFormat.Flatten([]) == []
  {
  }

  /** A restart with such a log gives back part of the memtable; the log is then fresh, or it holds zeros, or
      zeros that misalign the rest. */
  lemma TailedReopens(l: Wal.LogState, mem: map<Str, Entry>, crash: bool)
    requires Tailed(l, mem)
    ensures var (m, l') := Recovered(LogFile(l, crash));
      PartOf(m, mem) && if m == map[] then Hollow(l') || Stuck(l') else l' == Wal.Fresh()
  {
    hide WalFormat.Loggable, WalFormat.Frames, WalFormat.Flatten, ApplyAll, WalFormat.ReplayFrom, Zeros, LogFile;
    hide Recovered;
    var z: nat, batches, before :| TailIs(l, mem, z, batches, before);
    if batches == [] {
      NoFrames();
      assert l.bytes == [WalFormat.VERSION] + [] + Zeros(z);
      assert HollowOf(l, [], z);
      HollowReopens(l, crash);
    } else {
      assert batches[0] in batches;
      RecoveredBehindZeros(l, z, batches, crash);
      FlattenSomething(batches);
      if z % 5 == 0 {
        NothingApplied();
        AppliedPart(map[], before, WalFormat.Flatten(batches));
        AppliedSomething(WalFormat.Flatten(batches));
        GivesThenFresh(LogFile(l, crash));
      } else {
        FramesStart(batches);
        assert StuckOf(l, z, WalFormat.Frames(batches));
        StuckReopens(l, crash);
      }
    }
  }

  lemma FlattenSomething(batches: seq<seq<Entry>>)
    requires batches != [] && batches[0] != []
    ensures WalFormat.Flatten(batches) != []
  {
  }

  lemma FramesStart(batches: seq<seq<Entry>>)
    requires batches != [] && batches[0] != []
    ensures WalFormat.Frames(batches) != [] && WalFormat.Frames(batches)[0] != 0
  {
    hide WalFormat.Frame;
    WalFormat.FrameStartsNonZero(batches[0]);
  }

  lemma GivesThenFresh(file: Str)
    requires Recovered(file).0 != map[]
    ensures Recovered(file).1 == Wal.Fresh()
  {
    hide WalFormat.ReplayFrom;
    NothingApplied();
  }

  lemma StuckReopens(l: Wal.LogState, crash: bool)
    requires Stuck(l)
    ensures Recovered(LogFile(l, crash)).0 == map[] && Stuck(Recovered(LogFile(l, crash)).1)
  {
    hide WalFormat.ReplayFrom, Zeros;
    var z: nat, f :| StuckOf(l, z, f);
    var file := LogFile(l, crash);
    var pad := Zeros(|file| - |l.bytes|);
    WalFormat.BehindMisaligned(z, f + pad);
    assert file == [WalFormat.VERSION] + Zeros(z) + (f + pad);
    assert file[1..] == Zeros(z) + (f + pad);
    assert Wal.OpenFile(file).bytes == file;
    assert StuckOf(Wal.OpenFile(file), z, f + pad);
    NothingApplied();
  }

  /** Stopping and opening gives the memtable back: the log holds it, or there is none and the log says so. */
  ghost predicate Returns(s: Store) {
    if s.log.Some?
    then Recoverable(s.log.value, s.mem) || (s.mem == map[] && Hollow(s.log.value))
    else s.mem == map[]
  }

  lemma ReturnsMemtable(s: Store, crash: bool, now: nat)
    requires Returns(s)
    ensures var s' := Reopen(s, crash, now);
      && s'.mem == s.mem && (s'.log.Some? <==> s.log.Some?) && (s'.log.Some? ==> LogOk(s'.log.value))
      && (s.log.Some? && s.mem == map[] ==> Hollow(s'.log.value))
  {
    hide Recoverable, Hollow, Recovered, Load, LogFile;
    if s.log.Some? {
      var l := s.log.value;
      if Recoverable(l, s.mem) {
        RecoveredIsMemtable(l, s.mem, crash);
        if s.mem == map[] {
          EmptyIsHollow(l);
        }
      }
      if Hollow(l) && s.mem == map[] {
        HollowReopens(l, crash);
        HollowIsLog(Recovered(LogFile(l, crash)).1);
      }
    }
  }

  lemma HollowIsLog(l: Wal.LogState)
    requires Hollow(l)
    ensures LogOk(l)
  {
  }

  // ----- the tables -----

  lemma LoadOne(t: Table, level: nat, nextID: nat, files: map<Name, Str>)
    requires TableOk(t, level, nextID) && NameOf(t) in files && files[NameOf(t)] == Handle(t).data
    ensures LoadTable(NameOf(t), files) == [t]
  {
    hide TableFormat.Open, FileBytes, Writable, Data, FilterOf, Samples, GetAll;
    HandleData(t);
    FileRoundTrip(t.entries, STEP, Expect(t), true);
  }

  lemma HandleData(t: Table)
    ensures Handle(t).data == FileBytes(t.entries, STEP, Expect(t))
    ensures Handle(t).dataSize == |Data(t.entries)|
  {
  }

  lemma {:induction false} LoadsLevel(ts: seq<Table>, level: nat, nextID: nat, files: map<Name, Str>)
    requires TablesOk(ts, level, nextID)
    requires forall t :: t in ts ==> NameOf(t) in files && files[NameOf(t)] == Handle(t).data
    ensures LoadLevel(NamesOf(ts), files) == ts
    decreases |ts|
  {
    hide TableOk, Handle, LoadTable;
    if ts != [] {
      var n := |ts| - 1;
      LoadsLevel(ts[..n], level, nextID, files);
      LoadOne(ts[n], level, nextID, files);
      assert NamesOf(ts)[..n] == NamesOf(ts[..n]);
      assert ts == ts[..n] + [ts[n]];
    }
  }

  /** Opening the files of the manifest gives back every level, table by table. */
  lemma LoadsLevels(s: Store)
    requires Stored(s)
    ensures Load(s.manifest, s.files) == s.levels
  {
    hide TableOk, Handle, LoadLevel, NamesDistinct, RisingIds, SizesOk;
    var levels := Load(s.manifest, s.files);
    forall i | 0 <= i < |s.levels| ensures levels[i] == s.levels[i] {
      assert TablesOk(s.levels[i], i, s.nextID);
      LoadsLevel(s.levels[i], i, s.nextID, s.files);
    }
  }

  /** A table in whose data block one byte has changed is left out at the next opening. */
  lemma DamagedIsLeftOut(t: Table, level: nat, nextID: nat, files: map<Name, Str>, i: nat, c: byte)
    requires TableOk(t, level, nextID) && i < DataSize(t) && Data(t.entries)[i] != c
    ensures i < |Handle(t).data| && LoadTable(NameOf(t), files[NameOf(t) := Handle(t).data[i := c]]) == []
  {
    hide TableFormat.Open, FileBytes, Writable, Data, FilterOf, Samples, GetAll;
    HandleData(t);
    DamageIsFound(t.entries, STEP, Expect(t), i, c);
  }

  /** The manifest names exactly the files of tables. */
  lemma KnownAreNamed(s: Store, n: Name)
    requires s.manifest == Names(s.levels)
    ensures n in KnownNames(s.manifest) <==> HasName(s.levels, n)
  {
    hide NameOf;
    if HasName(s.levels, n) {
      var i, t :| 0 <= i < |s.levels| && t in s.levels[i] && NameOf(t) == n;
      var j :| 0 <= j < |s.levels[i]| && s.levels[i][j] == t;
      assert s.manifest[i][j] == n;
    }
    if n in KnownNames(s.manifest) {
      var i, j :| 0 <= i < |s.manifest| && 0 <= j < |s.manifest[i]| && s.manifest[i][j] == n;
      assert s.levels[i][j] in s.levels[i];
    }
  }

  /** Stopping and opening again: the same levels, the same table files and no others, whatever part of the memtable
      the log gives back. */
  lemma ReopenKeepsTables(s: Store, crash: bool, now: nat)
    requires Stored(s) && now >= s.nextID && PartOf(Reopen(s, crash, now).mem, s.mem)
    requires Reopen(s, crash, now).log.Some? ==> LogOk(Reopen(s, crash, now).log.value)
    ensures var s' := Reopen(s, crash, now);
      && s'.levels == s.levels && s'.nextID == now && s'.threshold == s.threshold
      && (s'.log.Some? <==> s.log.Some?) && Intact(s', {})
  {
    hide LogFile, LevelsOk, NamesDistinct, RisingIds, Load, Names, Recovered;
    hide TotalSize, Pow10, HasName, KnownNames, Handle, Storable;
    var s' := Reopen(s, crash, now);
    LoadsLevels(s);
    forall n ensures n in KnownNames(s.manifest) <==> HasName(s.levels, n) {
      KnownAreNamed(s, n);
    }
    forall i, t | 0 <= i < |s.levels| && t in s.levels[i] ensures NameOf(t) in s'.files {
      assert HasName(s.levels, NameOf(t)) by { NamedByTable(s.levels, i, t); }
    }
    LaterIsOk(s.levels, s.nextID, now);
    SizesRecount(s.levels);
  }

  /** When the log holds the memtable or there is none, it is the same memtable. */
  lemma ReopenRestores(s: Store, crash: bool, now: nat)
    requires Stored(s) && Returns(s)
    requires now >= s.nextID
    ensures var s' := Reopen(s, crash, now);
      && s'.mem == s.mem && s'.levels == s.levels && s'.nextID == now && s'.threshold == s.threshold
      && (s'.log.Some? <==> s.log.Some?) && Intact(s', {})
  {
    hide Stored, Returns, Reopen, FilesKnown;
    ReturnsMemtable(s, crash, now);
    ReopenKeepsTables(s, crash, now);
  }

  lemma NamedByTable(levels: seq<seq<Table>>, i: nat, t: Table)
    requires i < |levels| && t in levels[i]
    ensures HasName(levels, NameOf(t))
  {
  }

  lemma LaterIsOk(levels: seq<seq<Table>>, nextID: nat, later: nat)
    requires LevelsOk(levels, nextID) && nextID <= later
    ensures LevelsOk(levels, later)
  {
    hide TablesOk;
    forall i | 0 <= i < |levels| ensures TablesOk(levels[i], i, later) {
      OlderOk(levels[i], i, nextID, later);
    }
  }

  lemma SizesRecount(levels: seq<seq<Table>>)
    ensures SizesOk(SizesOf(levels), levels)
  {
  }
}
