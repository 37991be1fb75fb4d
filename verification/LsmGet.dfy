/** Reading: the first hit over memtable and levels, and when it is the newest version. */
module LsmGet {
  import opened Bytes
  import opened Entries
  import opened Versions
  import opened Records
  import opened TableFormat
  import opened TableLookup
  import opened Paths
  import opened LsmModel
  import opened LsmVersions
  import opened LsmTables

  /** The first table of a level that has the key. */
  function GetTables(ts: seq<Table>, k: Str): Probe {
    if ts == [] then Missing
    else
      var r := TableLookup.Get(Handle(ts[0]), k);
      if r.Missing? then GetTables(ts[1..], k) else r
  }

  function GetLevels(levels: seq<seq<Table>>, k: Str): Probe {
    if levels == [] then Missing
    else
      var r := GetTables(levels[0], k);
      if r.Missing? then GetLevels(levels[1..], k) else r
  }

  /** The version LSM.Get stops at. */
  function GetEntry(s: Store, k: Str): Probe {
    if k in s.mem then Found(s.mem[k]) else GetLevels(s.levels, k)
  }

  datatype Answer = Value(value: Str) | Absent | Crash

  function AnswerOf(r: Probe): Answer {
    match r
    case Found(e) => if e.tomb then Absent else Value(e.value)
    case Missing => Absent
    case Panicked => Crash
  }

  /** LSM.Get. */
  function Get(s: Store, k: Str): Answer {
    AnswerOf(GetEntry(s, k))
  }

  // ----- tables -----

  ghost predicate HoldsKey(t: Table, k: Str) {
    FindKey(t.entries, k).Some?
  }

  /** A lookup of the key ends inside the data block: the key is not above the last one, or the filter
      rejects it, or no piece of what is behind the data block answers it. */
  ghost predicate StaysInside(t: Table, k: Str) {
    !AllBelow(t.entries, k) || !Admits(Handle(t), k) || !Strays(Trailing(t.entries, STEP, Expect(t)), k)
  }

  /** What a lookup of the table gives that does not stay inside. */
  ghost function StrayAnswer(t: Table, k: Str): Probe {
    Bite(Trailing(t.entries, STEP, Expect(t)), k)
  }

  /** Filter and lookup of a table answer like a linear search exactly when they stay inside. */
  lemma ProbeIsSearch(t: Table, k: Str)
    requires Sorted(t.entries) && AllStorable(t.entries)
    ensures TableLookup.Get(Handle(t), k) == Searched(t.entries, k) <==> StaysInside(t, k)
    ensures !StaysInside(t, k) ==>
              !HoldsKey(t, k) && StrayAnswer(t, k) != Missing && TableLookup.Get(Handle(t), k) == StrayAnswer(t, k)
  {
    hide Written, Admits, Storable, TableLookup.Get, Strays, Trailing, Bite;
    GetIsSearch(t.entries, STEP, Expect(t), k);
  }

  // ----- the linear search over memtable and levels -----

  function SearchTables(ts: seq<Table>, k: Str): Probe {
    if ts == [] then Missing
    else
      var r := Searched(ts[0].entries, k);
      if r.Missing? then SearchTables(ts[1..], k) else r
  }

  function SearchLevels(levels: seq<seq<Table>>, k: Str): Probe {
    if levels == [] then Missing
    else
      var r := SearchTables(levels[0], k);
      if r.Missing? then SearchLevels(levels[1..], k) else r
  }

  /** The version a search of memtable and tables in the order of LSM.Get stops at. */
  function SearchEntry(s: Store, k: Str): Probe {
    if k in s.mem then Found(s.mem[k]) else SearchLevels(s.levels, k)
  }

  /** The first table that has the key or strays for it. */
  ghost function FirstReply(ts: seq<Table>, k: Str): Option<Table> {
    if ts == [] then None
    else if HoldsKey(ts[0], k) || !StaysInside(ts[0], k) then Some(ts[0])
    else FirstReply(ts[1..], k)
  }

  ghost function Reply(levels: seq<seq<Table>>, k: Str): Option<Table> {
    if levels == [] then None
    else
      var t := FirstReply(levels[0], k);
      if t.Some? then t else Reply(levels[1..], k)
  }

  /** What that table replies. */
  ghost function ReplyOf(t: Option<Table>, k: Str): Probe {
    if t.None? then Missing
    else if HoldsKey(t.value, k) then Searched(t.value.entries, k)
    else StrayAnswer(t.value, k)
  }

  /** The first table, in the order of LSM.Get, that has the key or strays for it has it; or none does either. */
  ghost predicate Straight(s: Store, k: Str) {
    k in s.mem || var t := Reply(s.levels, k); t.None? || HoldsKey(t.value, k)
  }

  /** What LSM.Get strays to when the first table to reply has not the key. */
  ghost function Strayed(s: Store, k: Str): Probe {
    ReplyOf(Reply(s.levels, k), k)
  }

  ghost predicate Searchable(ts: seq<Table>) {
    forall t :: t in ts ==> Sorted(t.entries) && AllStorable(t.entries)
  }

  lemma {:induction false} TablesReply(ts: seq<Table>, k: Str)
    requires Searchable(ts)
    ensures var t := FirstReply(ts, k);
      && GetTables(ts, k) == ReplyOf(t, k) && (t.Some? ==> GetTables(ts, k) != Missing)
      && (t.None? || HoldsKey(t.value, k) ==> SearchTables(ts, k) == GetTables(ts, k))
    decreases |ts|
  {
    hide FindKey, Handle, TableLookup.Get, StaysInside, StrayAnswer, Storable;
    if ts != [] {
      assert ts[0] in ts;
      ProbeIsSearch(ts[0], k);
      TablesReply(ts[1..], k);
    }
  }

  lemma {:induction false} LevelsReply(levels: seq<seq<Table>>, k: Str)
    requires forall i :: 0 <= i < |levels| ==> Searchable(levels[i])
    ensures var t := Reply(levels, k);
      && GetLevels(levels, k) == ReplyOf(t, k)
      && (t.None? || HoldsKey(t.value, k) ==> SearchLevels(levels, k) == GetLevels(levels, k))
    decreases |levels|
  {
    hide FirstReply, ReplyOf, GetTables, SearchTables, HoldsKey, Searchable;
    NoReply(k);
    if levels != [] {
      TablesReply(levels[0], k);
      LevelsReply(levels[1..], k);
    }
  }

  lemma NoReply(k: Str)
    ensures ReplyOf(None, k) == Missing
  {
  }

  /** Get is the linear search over memtable and levels exactly when the first table that has the key or strays
      for it has the key, or no table does either, or that table strays to the very version the search finds. */
  lemma GetIsLinear(s: Store, k: Str)
    requires Stored(s)
    ensures GetEntry(s, k) == if Straight(s, k) then SearchEntry(s, k) else Strayed(s, k)
    ensures GetEntry(s, k) == SearchEntry(s, k) <==> Straight(s, k) || Strayed(s, k) == SearchEntry(s, k)
  {
    hide Stored, ReplyOf, Reply, HoldsKey, GetLevels, SearchLevels, Searchable;
    forall i | 0 <= i < |s.levels| ensures Searchable(s.levels[i]) {
      StoredSearchable(s, i);
    }
    LevelsReply(s.levels, k);
  }

  lemma StoredSearchable(s: Store, i: nat)
    requires Stored(s) && i < |s.levels|
    ensures Searchable(s.levels[i])
  {
    hide NamesDistinct, RisingIds, FilesOk, SizesOk, FileBytes, Storable, Pow10;
    assert TablesOk(s.levels[i], i, s.nextID);
    forall t | t in s.levels[i] ensures Sorted(t.entries) && AllStorable(t.entries) {
      assert TableOk(t, i, s.nextID);
    }
  }

  // ----- where the search stops -----

  /** The index of the first table that has the key. */
  ghost predicate FirstHolder(ts: seq<Table>, k: Str, i: nat) {
    i < |ts| && HoldsKey(ts[i], k) && forall j :: 0 <= j < i ==> !HoldsKey(ts[j], k)
  }

  ghost predicate NoHolder(ts: seq<Table>, k: Str) {
    forall t :: t in ts ==> !HoldsKey(t, k)
  }

  lemma {:induction false} SearchIsFirst(ts: seq<Table>, k: Str) returns (i: nat)
    ensures if NoHolder(ts, k) then SearchTables(ts, k) == Missing
            else FirstHolder(ts, k, i) && SearchTables(ts, k) == Found(FindKey(ts[i].entries, k).value)
    decreases |ts|
  {
    hide FindKey;
    i := 0;
    if ts != [] {
      assert ts[0] in ts && ts == [ts[0]] + ts[1..];
      if !HoldsKey(ts[0], k) {
        var j := SearchIsFirst(ts[1..], k);
        i := j + 1;
        if !NoHolder(ts[1..], k) {
          FirstBehind(ts, k, j);
        }
      }
    }
  }

  lemma FirstBehind(ts: seq<Table>, k: Str, j: nat)
    requires ts != [] && !HoldsKey(ts[0], k) && FirstHolder(ts[1..], k, j)
    ensures FirstHolder(ts, k, j + 1)
  {
    hide HoldsKey;
    forall n | 0 <= n < j + 1 ensures !HoldsKey(ts[n], k) {
      if n > 0 {
        assert ts[n] == ts[1..][n - 1];
      }
    }
  }

  /** The level the first hit comes from. */
  ghost predicate TopLevel(levels: seq<seq<Table>>, k: Str, i: nat) {
    i < |levels| && !NoHolder(levels[i], k) && forall j :: 0 <= j < i ==> NoHolder(levels[j], k)
  }

  lemma {:induction false} SearchIsTop(levels: seq<seq<Table>>, k: Str) returns (i: nat)
    ensures if forall j :: 0 <= j < |levels| ==> NoHolder(levels[j], k) then SearchLevels(levels, k) == Missing
            else TopLevel(levels, k, i) && SearchLevels(levels, k) == SearchTables(levels[i], k)
    decreases |levels|
  {
    hide NoHolder, FirstHolder, SearchTables;
    i := 0;
    if levels != [] {
      var h := SearchIsFirst(levels[0], k);
      if NoHolder(levels[0], k) {
        i := SearchIsTop(levels[1..], k);
        i := i + 1;
        assert forall j :: 0 < j < |levels| ==> levels[j] == levels[1..][j - 1];
      } else {
        assert FirstHolder(levels[0], k, h);
      }
    }
  }

  // ----- the newest version -----

  lemma HolderHasVersion(ts: seq<Table>, k: Str)
    ensures NoHolder(ts, k) <==> forall e :: e in Held(ts) ==> e.key != k
    ensures forall t :: t in ts && HoldsKey(t, k) ==> FindKey(t.entries, k).value in Held(ts)
  {
    if !NoHolder(ts, k) {
      var t :| t in ts && HoldsKey(t, k);
      assert FindKey(t.entries, k).value in Held(ts);
    }
    forall e | e in Held(ts) && e.key == k ensures !NoHolder(ts, k) {
      var t :| t in ts && e in t.entries;
      assert HoldsKey(t, k);
    }
  }

  /** A sorted table has one version of a key. */
  lemma OneVersion(t: Table, k: Str, e: Entry)
    requires Sorted(t.entries) && e in t.entries && e.key == k
    ensures FindKey(t.entries, k) == Some(e)
  {
    SortedDistinct(t.entries);
    var r := FindKey(t.entries, k);
    assert r.Some? && r.value in Elems(t.entries) && e in Elems(t.entries);
  }

  /** The newest version of its level, in the highest level that has the key, is the newest of all. */
  lemma TopIsNewest(s: Store, clock: int, k: Str, i: nat, e: Entry)
    requires Versioned(s.mem, s.levels, clock) && k !in s.mem
    requires TopLevel(s.levels, k, i) && IsNewest(Held(s.levels[i]), k, e)
    ensures Newest(AllVersions(s), k) == Some(e)
  {
    hide Held, NoHolder;
    forall f | f in AllVersions(s) && f.key == k ensures f.ts <= e.ts {
      MemKeys(s, clock, k);
      if f !in s.mem.Values {
        var j :| 0 <= j < |s.levels| && f in Held(s.levels[j]);
        if j < i {
          HolderHasVersion(s.levels[j], k);
        } else if i < j {
          assert Newer(Held(s.levels[i]), Held(s.levels[j]));
        }
      }
    }
    NewestIs(AllVersions(s), k, e);
  }

  lemma NoneAnywhere(s: Store, clock: int, k: Str)
    requires Versioned(s.mem, s.levels, clock) && k !in s.mem
    requires forall j :: 0 <= j < |s.levels| ==> NoHolder(s.levels[j], k)
    ensures Newest(AllVersions(s), k) == None
  {
    hide Held, NoHolder;
    forall f | f in AllVersions(s) ensures f.key != k {
      if f in s.mem.Values {
        var x :| x in s.mem && s.mem[x] == f;
      } else {
        var j :| 0 <= j < |s.levels| && f in Held(s.levels[j]);
        HolderHasVersion(s.levels[j], k);
      }
    }
  }

  /** At most one table of the list has the key. */
  ghost predicate OneHolder(ts: seq<Table>, k: Str) {
    forall i, j :: 0 <= i < j < |ts| ==> !(HoldsKey(ts[i], k) && HoldsKey(ts[j], k))
  }

  lemma OnlyHolderIsNewest(ts: seq<Table>, k: Str, i: nat)
    requires FirstHolder(ts, k, i) && OneHolder(ts, k) && forall t :: t in ts ==> Sorted(t.entries)
    ensures IsNewest(Held(ts), k, FindKey(ts[i].entries, k).value)
  {
    HolderHasVersion(ts, k);
    var e := FindKey(ts[i].entries, k).value;
    assert ts[i] in ts;
    forall f | f in Held(ts) && f.key == k ensures f.ts <= e.ts {
      var t :| t in ts && f in t.entries;
      var j :| 0 <= j < |ts| && ts[j] == t;
      OneVersion(t, k, f);
      assert HoldsKey(ts[j], k);
    }
  }

  ghost function ViewAnswer(s: Store, k: Str): Answer {
    var v := View(s, k);
    if v.Some? then Value(v.value) else Absent
  }

  lemma NewestAnswers(s: Store, k: Str, e: Option<Entry>)
    requires Newest(AllVersions(s), k) == e
    ensures ViewAnswer(s, k) == AnswerOf(if e.Some? then Found(e.value) else Missing)
  {
    hide AllVersions, Newest;
  }

  /** Get shows the newest version of every key that at most one table of each level holds. */
  lemma GetShowsView(s: Store, clock: int, k: Str)
    requires Core(s, clock) && Stored(s) && Straight(s, k)
    requires forall i :: 0 <= i < |s.levels| ==> OneHolder(s.levels[i], k)
    ensures Get(s, k) == ViewAnswer(s, k)
  {
    hide Core, Stored, AllVersions, OneHolder, Straight, Newest, FirstIsNewest, GetEntry, SearchEntry;
    GetIsNewest(s, clock, k);
    forall i: nat | TopLevel(s.levels, k, i) ensures FirstIsNewest(s.levels[i], k) {
      OneHolderIsNewest(s.levels[i], k);
    }
    NewestAnswers(s, k, Newest(AllVersions(s), k));
  }

  lemma FirstInRange(ts: seq<Table>, k: Str, h: nat)
    requires FirstHolder(ts, k, h)
    ensures h < |ts| && HoldsKey(ts[h], k) && ts[h] in ts && !NoHolder(ts, k)
  {
  }

  // ----- when Get is exact -----

  /** No later table of the list has a newer version of the key than the first that has it. */
  ghost predicate FirstIsNewest(ts: seq<Table>, k: Str) {
    forall h: nat, j: nat :: FirstHolder(ts, k, h) && h < j < |ts| && HoldsKey(ts[j], k) ==>
      FindKey(ts[j].entries, k).value.ts <= FindKey(ts[h].entries, k).value.ts
  }

  lemma FirstIsNewestHeld(ts: seq<Table>, k: Str, h: nat)
    requires FirstHolder(ts, k, h) && forall t :: t in ts ==> Sorted(t.entries)
    ensures FirstIsNewest(ts, k) <==> IsNewest(Held(ts), k, FindKey(ts[h].entries, k).value)
  {
    hide Sorted, Held, FindKey, FirstIsNewest;
    HolderHasVersion(ts, k);
    var e := FindKey(ts[h].entries, k).value;
    assert ts[h] in ts;
    if FirstIsNewest(ts, k) {
      forall f | f in Held(ts) && f.key == k ensures f.ts <= e.ts {
        FirstAgainst(ts, k, h, f);
      }
    }
    if IsNewest(Held(ts), k, e) {
      AllAgainstFirst(ts, k, h);
    }
  }

  lemma FirstAgainst(ts: seq<Table>, k: Str, h: nat, f: Entry)
    requires FirstHolder(ts, k, h) && FirstIsNewest(ts, k) && forall t :: t in ts ==> Sorted(t.entries)
    requires f in Held(ts) && f.key == k
    ensures f.ts <= FindKey(ts[h].entries, k).value.ts
  {
    hide Sorted, Held, FindKey;
    var t :| t in ts && f in t.entries;
    var j: nat :| j < |ts| && ts[j] == t;
    OneVersion(t, k, f);
    assert HoldsKey(ts[j], k);
  }

  lemma AllAgainstFirst(ts: seq<Table>, k: Str, h: nat)
    requires FirstHolder(ts, k, h) && IsNewest(Held(ts), k, FindKey(ts[h].entries, k).value)
    ensures FirstIsNewest(ts, k)
  {
    hide Held, FindKey;
    forall g: nat, j: nat | FirstHolder(ts, k, g) && g < j < |ts| && HoldsKey(ts[j], k)
      ensures FindKey(ts[j].entries, k).value.ts <= FindKey(ts[g].entries, k).value.ts
    {
      HeldByHolder(ts, k, j);
      FirstIsOne(ts, k, g, h);
    }
  }

  lemma FirstIsOne(ts: seq<Table>, k: Str, g: nat, h: nat)
    requires FirstHolder(ts, k, g) && FirstHolder(ts, k, h)
    ensures g == h
  {
    hide HoldsKey;
  }

  /** In the highest level that has the key, its first table that has it has its newest version. */
  ghost predicate ReadsNewest(s: Store, k: Str) {
    k in s.mem || forall i: nat :: TopLevel(s.levels, k, i) ==> FirstIsNewest(s.levels[i], k)
  }

  /** The newest version as a probe. */
  ghost function NewestProbe(s: Store, k: Str): Probe {
    var e := Newest(AllVersions(s), k);
    if e.Some? then Found(e.value) else Missing
  }

  /** The linear search stops at the newest version of the key, if there is any, exactly when the first table with
      the key in the highest level with the key has that level's newest version. */
  lemma SearchIsNewest(s: Store, clock: int, k: Str)
    requires Core(s, clock) && Stored(s)
    ensures SearchEntry(s, k) == NewestProbe(s, k) <==> ReadsNewest(s, k)
  {
    hide Versioned, Stored, NoHolder, AllVersions, FirstHolder, RisingIds, Newest, FirstIsNewest;
    hide TopLevel, HoldsKey, Core, FindKey, IsNewest, Storable;
    CoreAge(s, clock);
    if k in s.mem {
      MemIsNewest(s, clock, k);
    } else {
      var i := SearchIsTop(s.levels, k);
      if forall j :: 0 <= j < |s.levels| ==> NoHolder(s.levels[j], k) {
        NoneAnywhere(s, clock, k);
        NoTopLevel(s.levels, k);
      } else {
        TopInRange(s.levels, k, i);
        StoredSearchable(s, i);
        var h := SearchIsFirst(s.levels[i], k);
        FirstInRange(s.levels[i], k, h);
        FirstIsNewestHeld(s.levels[i], k, h);
        TopDecides(s, clock, k, i, FindKey(s.levels[i][h].entries, k).value);
        OnlyTop(s.levels, k, i);
      }
    }
  }

  /** Get stops at the newest version of the key, if there is any, exactly when it does not stray and the first
      table with the key in the highest level with the key has that level's newest version; or when it strays to
      that very version. */
  lemma GetIsNewest(s: Store, clock: int, k: Str)
    requires Core(s, clock) && Stored(s)
    ensures GetEntry(s, k) == NewestProbe(s, k)
       <==> if Straight(s, k) then ReadsNewest(s, k) else Strayed(s, k) == NewestProbe(s, k)
  {
    hide Core, Stored, Straight, ReadsNewest, GetEntry, SearchEntry, NewestProbe, Strayed;
    GetIsLinear(s, k);
    SearchIsNewest(s, clock, k);
  }

  lemma OneHolderIsNewest(ts: seq<Table>, k: Str)
    requires OneHolder(ts, k)
    ensures FirstIsNewest(ts, k)
  {
    hide HoldsKey, FindKey;
  }

  lemma NoTopLevel(levels: seq<seq<Table>>, k: Str)
    requires forall j :: 0 <= j < |levels| ==> NoHolder(levels[j], k)
    ensures forall i: nat :: !TopLevel(levels, k, i)
  {
    hide NoHolder;
  }

  lemma TopInRange(levels: seq<seq<Table>>, k: Str, i: nat)
    requires TopLevel(levels, k, i)
    ensures i < |levels| && !NoHolder(levels[i], k)
  {
    hide NoHolder;
  }

  lemma OnlyTop(levels: seq<seq<Table>>, k: Str, i: nat)
    requires TopLevel(levels, k, i)
    ensures forall j: nat :: TopLevel(levels, k, j) ==> j == i
  {
    hide NoHolder;
  }

  /** A version in the top level is the newest of all exactly when it is the newest of its level. */
  lemma TopDecides(s: Store, clock: int, k: Str, i: nat, e: Entry)
    requires Versioned(s.mem, s.levels, clock) && k !in s.mem
    requires TopLevel(s.levels, k, i) && e in Held(s.levels[i]) && e.key == k
    ensures Newest(AllVersions(s), k) == Some(e) <==> IsNewest(Held(s.levels[i]), k, e)
  {
    hide Versioned, Held, Newest, NoHolder;
    if IsNewest(Held(s.levels[i]), k, e) {
      TopIsNewest(s, clock, k, i, e);
    }
    if Newest(AllVersions(s), k) == Some(e) {
      NewestOfPart(s, k, i, e);
    }
  }

  lemma NewestOfPart(s: Store, k: Str, i: nat, e: Entry)
    requires i < |s.levels| && Newest(AllVersions(s), k) == Some(e) && e in Held(s.levels[i])
    ensures IsNewest(Held(s.levels[i]), k, e)
  {
    hide Held;
    assert forall f :: f in Held(s.levels[i]) ==> f in AllVersions(s);
  }

  // ----- level 0 -----

  /** Of two level-0 tables with a key the later has the newer version, so the first is stale. */
  lemma TwoHoldersAreStale(ts: seq<Table>, k: Str)
    requires InOrder(ts) && !OneHolder(ts, k)
    ensures !FirstIsNewest(ts, k)
  {
    hide InOrder, FindKey, OneHolder, NoHolder;
    SomeHolder(ts, k);
    var h := SearchIsFirst(ts, k);
    var j := SecondHolder(ts, k, h);
    HeldByHolder(ts, k, h);
    HeldByHolder(ts, k, j);
    LaterIsNewer(ts, h, j, FindKey(ts[h].entries, k).value, FindKey(ts[j].entries, k).value);
  }

  lemma SomeHolder(ts: seq<Table>, k: Str)
    requires !OneHolder(ts, k)
    ensures !NoHolder(ts, k)
  {
    hide HoldsKey;
  }

  lemma SecondHolder(ts: seq<Table>, k: Str, h: nat) returns (j: nat)
    requires FirstHolder(ts, k, h) && !OneHolder(ts, k)
    ensures h < j < |ts| && HoldsKey(ts[j], k)
  {
    hide HoldsKey;
    var i, n :| 0 <= i < n < |ts| && HoldsKey(ts[i], k) && HoldsKey(ts[n], k);
    j := n;
  }

  /** When level 0 has the key and the memtable does not, Get stops at the newest version exactly
      when no second level-0 table has the key, or when it strays to that very version. */
  lemma LevelZeroGetIsExact(s: Store, clock: int, k: Str)
    requires Core(s, clock) && Stored(s)
    requires k !in s.mem && !NoHolder(s.levels[0], k)
    ensures GetEntry(s, k) == NewestProbe(s, k)
       <==> if Straight(s, k) then OneHolder(s.levels[0], k) else Strayed(s, k) == NewestProbe(s, k)
  {
    hide Stored, NoHolder, FirstHolder, OneHolder, Newest, HoldsKey, FindKey, IsNewest, Storable;
    hide InOrder, Core, Straight, GetEntry, Strayed, NewestProbe, Versioned, FirstIsNewest;
    GetIsNewest(s, clock, k);
    CoreAge(s, clock);
    assert TopLevel(s.levels, k, 0);
    OnlyTop(s.levels, k, 0);
    if OneHolder(s.levels[0], k) {
      OneHolderIsNewest(s.levels[0], k);
    } else {
      TwoHoldersAreStale(s.levels[0], k);
    }
  }

  // ----- reading level 0 newest first -----

  function Reversed(ts: seq<Table>): (r: seq<Table>)
    ensures |r| == |ts| && forall i :: 0 <= i < |ts| ==> r[i] == ts[|ts| - 1 - i]
  {
    if ts == [] then [] else [ts[|ts| - 1]] + Reversed(ts[..|ts| - 1])
  }

  lemma ReversedHolds(ts: seq<Table>)
    ensures Held(Reversed(ts)) == Held(ts)
    ensures forall t :: t in Reversed(ts) <==> t in ts
  {
    var r := Reversed(ts);
    forall t | t in ts ensures t in r {
      var i :| 0 <= i < |ts| && ts[i] == t;
      assert r[|ts| - 1 - i] == t;
    }
    forall e | e in Held(ts) ensures e in Held(r) {
      var t :| t in ts && e in t.entries;
      assert t in r;
    }
    forall e | e in Held(r) ensures e in Held(ts) {
      var t :| t in r && e in t.entries;
      assert t in ts;
    }
  }

  lemma LaterIsNewer(ts: seq<Table>, i: nat, j: nat, f: Entry, e: Entry)
    requires InOrder(ts) && i < j < |ts| && f in ts[i].entries && e in ts[j].entries && e.key == f.key
    ensures f.ts < e.ts
  {
    assert Newer(Elems(ts[j].entries), Elems(ts[i].entries));
    assert e in Elems(ts[j].entries) && f in Elems(ts[i].entries);
  }

  /** The index of the last table that has the key. */
  ghost predicate LastHolder(ts: seq<Table>, k: Str, i: nat) {
    i < |ts| && HoldsKey(ts[i], k) && forall j :: i < j < |ts| ==> !HoldsKey(ts[j], k)
  }

  lemma ReversedAt(ts: seq<Table>, i: nat)
    requires i < |ts|
    ensures Reversed(ts)[i] == ts[|ts| - 1 - i]
  {
    hide Reversed;
  }

  lemma ReversedFirst(ts: seq<Table>, k: Str, h: nat)
    requires FirstHolder(Reversed(ts), k, h)
    ensures h < |ts| && Reversed(ts)[h] == ts[|ts| - 1 - h] && LastHolder(ts, k, |ts| - 1 - h)
  {
    hide HoldsKey, Reversed;
    ReversedAt(ts, h);
    forall j | |ts| - 1 - h < j < |ts| ensures !HoldsKey(ts[j], k) {
      ReversedBefore(ts, k, h, j);
    }
  }

  lemma ReversedBefore(ts: seq<Table>, k: Str, h: nat, j: nat)
    requires FirstHolder(Reversed(ts), k, h) && |ts| - 1 - h < j < |ts|
    ensures !HoldsKey(ts[j], k)
  {
    hide HoldsKey, Reversed;
    var r := Reversed(ts);
    ReversedAt(ts, |ts| - 1 - j);
    assert !HoldsKey(r[|ts| - 1 - j], k);
  }

  /** The version a holder has is among those held. */
  lemma HeldByHolder(ts: seq<Table>, k: Str, h: nat)
    requires h < |ts| && HoldsKey(ts[h], k)
    ensures FindKey(ts[h].entries, k).value in Held(ts) && FindKey(ts[h].entries, k).value in ts[h].entries
    ensures FindKey(ts[h].entries, k).value.key == k
  {
    assert ts[h] in ts;
  }

  lemma LastHolderIsNewest(ts: seq<Table>, k: Str, h: nat)
    requires InOrder(ts) && LastHolder(ts, k, h) && forall t :: t in ts ==> Sorted(t.entries)
    ensures IsNewest(Held(ts), k, FindKey(ts[h].entries, k).value)
  {
    hide Sorted, InOrder, Held, FindKey;
    HeldByHolder(ts, k, h);
    var e := FindKey(ts[h].entries, k).value;
    forall f | f in Held(ts) && f.key == k ensures f.ts <= e.ts {
      OldBesideLast(ts, k, h, f);
    }
  }

  lemma OldBesideLast(ts: seq<Table>, k: Str, h: nat, f: Entry)
    requires InOrder(ts) && LastHolder(ts, k, h) && forall t :: t in ts ==> Sorted(t.entries)
    requires f in Held(ts) && f.key == k
    ensures f.ts <= FindKey(ts[h].entries, k).value.ts
  {
    hide Sorted, InOrder, Held, FindKey;
    HeldByHolder(ts, k, h);
    var t :| t in ts && f in t.entries;
    var j :| 0 <= j < |ts| && ts[j] == t;
    OneVersion(t, k, f);
    if j < h {
      LaterIsNewer(ts, j, h, f, FindKey(ts[h].entries, k).value);
    }
  }

  lemma NewestFirstFindsNewest(ts: seq<Table>, k: Str, h: nat)
    requires InOrder(ts) && FirstHolder(Reversed(ts), k, h) && forall t :: t in ts ==> Sorted(t.entries)
    ensures IsNewest(Held(ts), k, FindKey(Reversed(ts)[h].entries, k).value)
  {
    hide Sorted, InOrder, Held, Reversed, FirstHolder;
    ReversedFirst(ts, k, h);
    LastHolderIsNewest(ts, k, |ts| - 1 - h);
  }

  /** A search of level 0 from its newest table needs no hypothesis on level 0. */
  lemma NewestFirstShowsView(s: Store, clock: int, k: Str)
    requires Core(s, clock) && Stored(s)
    requires forall i :: 1 <= i < |s.levels| ==> OneHolder(s.levels[i], k)
    ensures SearchEntry(s.(levels := s.levels[0 := Reversed(s.levels[0])]), k) == NewestProbe(s, k)
  {
    hide Stored, NoHolder, AllVersions, FirstHolder, OneHolder, RisingIds, Newest, NoTies, InOrder;
    hide VersionsOf, Held, TopLevel, HoldsKey, Reversed, Versioned, Core, FindKey, Storable;
    CoreAge(s, clock);
    var levels := s.levels[0 := Reversed(s.levels[0])];
    if k in s.mem {
      MemIsNewest(s, clock, k);
    } else {
      ReversedHolds(s.levels[0]);
      SameTables(levels[0], s.levels[0], k);
      var i := SearchIsTop(levels, k);
      if forall j :: 0 <= j < |levels| ==> NoHolder(levels[j], k) {
        NoneAnywhere(s, clock, k);
      } else {
        TopInRange(levels, k, i);
        var h := SearchIsFirst(levels[i], k);
        FirstInRange(levels[i], k, h);
        StoredSearchable(s, i);
        if i == 0 {
          NewestFirstFindsNewest(s.levels[0], k, h);
        } else {
          OnlyHolderIsNewest(levels[i], k, h);
        }
        TopSame(levels, s.levels, k, i);
        TopIsNewest(s, clock, k, i, FindKey(levels[i][h].entries, k).value);
      }
    }
  }

  lemma CoreAge(s: Store, clock: int)
    requires Core(s, clock)
    ensures Versioned(s.mem, s.levels, clock) && 2 <= |s.levels| && InOrder(s.levels[0])
  {
    hide NoTies, InOrder, RisingIds, Newer, VersionsOf, Held;
  }

  lemma TopSame(a: seq<seq<Table>>, b: seq<seq<Table>>, k: Str, i: nat)
    requires |a| == |b| && TopLevel(a, k, i)
    requires forall j :: 0 <= j < |a| ==> (NoHolder(a[j], k) <==> NoHolder(b[j], k))
    ensures TopLevel(b, k, i)
  {
    hide NoHolder;
  }

  lemma SameTables(a: seq<Table>, b: seq<Table>, k: Str)
    requires forall t :: t in a <==> t in b
    ensures NoHolder(a, k) <==> NoHolder(b, k)
  {
    hide FindKey;
  }
}
