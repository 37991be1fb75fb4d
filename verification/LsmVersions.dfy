/** Why reorganising never changes what a reader should see: which source is newer than which, and
    what writing, flushing and compacting do to the set of versions. */
module LsmVersions {
  import opened Bytes
  import opened Entries
  import opened Versions
  import opened Compaction
  import opened Chunks
  import opened LsmModel
  import Memtable

  /** The memtable is newer than every level, a level newer than those below it, and in level 0 a
      later table newer than an earlier one. */
  ghost predicate Aged(mem: map<Str, Entry>, levels: seq<seq<Table>>) {
    && (forall i :: 0 <= i < |levels| ==> Newer(mem.Values, Held(levels[i])))
    && (forall i, j :: 0 <= i < j < |levels| ==> Newer(Held(levels[i]), Held(levels[j])))
    && (|levels| > 0 ==> InOrder(levels[0]))
  }

  /** Later tables of the list hold newer versions. */
  ghost predicate InOrder(ts: seq<Table>) {
    forall i, j :: 0 <= i < j < |ts| ==> Newer(Elems(ts[j].entries), Elems(ts[i].entries))
  }

  /** The invariant about versions; all timestamps are below `clock`. */
  ghost predicate Versioned(mem: map<Str, Entry>, levels: seq<seq<Table>>, clock: int) {
    && Memtable.KeyedByKey(mem)
    && NoTies(VersionsOf(mem, levels))
    && Aged(mem, levels)
    && forall e :: e in VersionsOf(mem, levels) ==> e.ts < clock
  }

  // ----- writing -----

  /** A version newer than all others is what a reader sees of its key, and changes no other key. */
  lemma NewVersionIsVisible(v: set<Entry>, v': set<Entry>, e: Entry, k: Str)
    requires NoTies(v) && forall f :: f in v ==> f.ts < e.ts
    requires e in v' && v' <= v + {e}
    requires forall f :: f in v && f.key != e.key ==> f in v'
    ensures NoTies(v')
    ensures Visible(v', k) == if k != e.key then Visible(v, k) else if e.tomb then None else Some(e.value)
  {
    if k == e.key {
      NewestIs(v', k, e);
    } else {
      var r := Newest(v, k);
      if r.Some? {
        NewestIs(v', k, r.value);
      } else {
        assert Newest(v', k).None?;
      }
    }
  }

  lemma WriteOne(mem: map<Str, Entry>, levels: seq<seq<Table>>, clock: int, x: Entry, k: Str)
    requires Versioned(mem, levels, clock) && x.ts >= clock
    ensures Versioned(mem[x.key := Applied(x)], levels, x.ts + 1)
    ensures Visible(VersionsOf(mem[x.key := Applied(x)], levels), k)
         == if k != x.key then Visible(VersionsOf(mem, levels), k) else if x.tomb then None else Some(x.value)
  {
    hide Newest, Visible, Aged, HeldAll, NoTies;
    var e := Applied(x);
    var mem' := mem[x.key := e];
    Memtable.ValuesAfterUpdate(mem, e);
    MemValues(mem, e);
    var v, v' := VersionsOf(mem, levels), VersionsOf(mem', levels);
    assert forall f :: f in v && f.key != e.key ==> f in v';
    NewVersionIsVisible(v, v', e, k);
    WriteKeepsAge(mem, levels, e);
  }

  lemma WriteKeepsAge(mem: map<Str, Entry>, levels: seq<seq<Table>>, e: Entry)
    requires Memtable.KeyedByKey(mem) && Aged(mem, levels)
    requires forall f :: f in HeldAll(levels) ==> f.ts < e.ts
    ensures Aged(mem[e.key := e], levels)
  {
    hide Held;
    MemValues(mem, e);
    forall i | 0 <= i < |levels| ensures Newer(mem[e.key := e].Values, Held(levels[i])) {
      assert Newer(mem.Values, Held(levels[i]));
      assert forall f :: f in Held(levels[i]) ==> f in HeldAll(levels);
    }
  }

  lemma MemValues(mem: map<Str, Entry>, e: Entry)
    requires Memtable.KeyedByKey(mem)
    ensures forall f :: f in mem.Values && f.key != e.key ==> f in mem[e.key := e].Values
    ensures forall f :: f in mem[e.key := e].Values ==> f == e || f in mem.Values
    ensures e in mem[e.key := e].Values
  {
    Memtable.ValuesAfterUpdate(mem, e);
  }

  // ----- flushing -----

  lemma HeldAppend(ts: seq<Table>, us: seq<Table>)
    ensures Held(ts + us) == Held(ts) + Held(us)
  {
    forall e | e in Held(ts + us) ensures e in Held(ts) + Held(us) {
      var t :| t in ts + us && e in t.entries;
    }
    forall e | e in Held(ts) + Held(us) ensures e in Held(ts + us) {
      var t :| (t in ts || t in us) && e in t.entries;
      assert t in ts + us;
    }
  }

  lemma HeldOne(t: Table)
    ensures Held([t]) == Elems(t.entries)
  {
    assert t in [t];
  }

  lemma HeldNone()
    ensures Held([]) == {}
  {
  }

  /** Moving the memtable into a new level-0 table moves every version and drops none. */
  lemma FlushMoves(mem: map<Str, Entry>, levels: seq<seq<Table>>, t: Table, clock: int)
    requires Versioned(mem, levels, clock) && |levels| > 0 && Elems(t.entries) == mem.Values
    ensures Versioned(map[], levels[0 := levels[0] + [t]], clock)
    ensures VersionsOf(map[], levels[0 := levels[0] + [t]]) == VersionsOf(mem, levels)
  {
    hide Held, HeldAll, InOrder;
    var l0 := levels[0] + [t];
    var levels' := levels[0 := l0];
    HeldAppend(levels[0], [t]);
    HeldOne(t);
    assert Held(levels'[0]) == Held(levels[0]) + mem.Values;
    OneLevelChanged(levels, 0, l0);
    var none: map<Str, Entry> := map[];
    assert none.Values == {};
    AppendInOrder(levels[0], t);
  }

  lemma AppendInOrder(ts: seq<Table>, t: Table)
    requires InOrder(ts) && Newer(Elems(t.entries), Held(ts))
    ensures InOrder(ts + [t])
  {
    hide Held, Newer;
    var us := ts + [t];
    forall i, j | 0 <= i < j < |us| ensures Newer(Elems(us[j].entries), Elems(us[i].entries)) {
      if j == |ts| {
        EntriesHeld(ts, i);
        NewerParts(Elems(t.entries), Held(ts), Elems(t.entries), Elems(ts[i].entries));
      }
    }
  }

  lemma EntriesHeld(ts: seq<Table>, i: nat)
    requires i < |ts|
    ensures Elems(ts[i].entries) <= Held(ts)
  {
    assert ts[i] in ts;
  }

  /** The versions held outside one level. */
  ghost function HeldBut(levels: seq<seq<Table>>, i: nat): (s: set<Entry>)
    ensures forall k, e :: 0 <= k < |levels| && k != i && e in Held(levels[k]) ==> e in s
    ensures forall e :: e in s ==> exists k :: 0 <= k < |levels| && k != i && e in Held(levels[k])
  {
    set k, e | 0 <= k < |levels| && k != i && e in Held(levels[k]) :: e
  }

  lemma OneLevelChanged(levels: seq<seq<Table>>, i: nat, ts: seq<Table>)
    requires i < |levels|
    ensures HeldAll(levels) == HeldBut(levels, i) + Held(levels[i])
    ensures HeldAll(levels[i := ts]) == HeldBut(levels, i) + Held(ts)
  {
    hide Held;
    var levels' := levels[i := ts];
    forall e | e in HeldAll(levels') ensures e in HeldBut(levels, i) + Held(ts) {
      var k :| 0 <= k < |levels'| && e in Held(levels'[k]);
    }
    forall e | e in HeldBut(levels, i) ensures e in HeldAll(levels') {
      var k :| 0 <= k < |levels| && k != i && e in Held(levels[k]);
      assert levels'[k] == levels[k];
    }
    assert levels'[i] == ts;
  }

  // ----- compacting -----

  /** The plan takes and keeps all versions of its two levels. */
  ghost predicate Parted(levels: seq<seq<Table>>, p: Plan) {
    && p.from + 1 < |levels|
    && Held(levels[p.from]) == Held(p.take) + Held(p.keep)
    && Held(levels[p.from + 1]) == Held(p.takeNext) + Held(p.keepNext)
  }

  /** The plan splits the two levels, and what stays of the upper one is newer than what is taken. */
  ghost predicate Splits(levels: seq<seq<Table>>, p: Plan) {
    && Parted(levels, p)
    && Newer(Held(p.keep), Held(p.take))
    && (p.from == 0 ==> InOrder(p.keep))
  }

  /** A merge into the bottom level takes all of it and has nothing below. */
  predicate BottomIsLast(levels: seq<seq<Table>>, p: Plan) {
    p.from + 1 >= BOTTOM_LEVEL ==> p.keepNext == [] && p.from + 2 == |levels|
  }

  /** The versions outside the two levels of a plan. */
  ghost function Outside(mem: map<Str, Entry>, levels: seq<seq<Table>>, p: Plan): (s: set<Entry>)
    ensures mem.Values <= s
    ensures forall k, e :: 0 <= k < |levels| && k != p.from && k != p.from + 1 && e in Held(levels[k]) ==> e in s
    ensures forall e :: e in s ==> (
              e in mem.Values
              || exists k :: 0 <= k < |levels| && k != p.from && k != p.from + 1 && e in Held(levels[k]))
  {
    mem.Values + set k, e | 0 <= k < |levels| && k != p.from && k != p.from + 1 && e in Held(levels[k]) :: e
  }

  ghost function Taken(p: Plan): set<Entry> {
    Held(p.take) + Held(p.takeNext)
  }

  ghost function Kept(mem: map<Str, Entry>, levels: seq<seq<Table>>, p: Plan): set<Entry> {
    Outside(mem, levels, p) + Held(p.keep) + Held(p.keepNext)
  }

  ghost function LevelsAfter(levels: seq<seq<Table>>, p: Plan, outs: seq<Table>): seq<seq<Table>>
    requires p.from + 1 < |levels|
  {
    levels[p.from := p.keep][p.from + 1 := p.keepNext + outs]
  }

  /** All versions, before and after a compaction. */
  lemma VersionsSplit(mem: map<Str, Entry>, levels: seq<seq<Table>>, p: Plan, outs: seq<Table>)
    requires Parted(levels, p)
    ensures VersionsOf(mem, levels) == Kept(mem, levels, p) + Taken(p)
    ensures VersionsOf(mem, LevelsAfter(levels, p, outs)) == Kept(mem, levels, p) + Held(outs)
  {
    hide Held, Newer, InOrder, HeldAll;
    var levels' := LevelsAfter(levels, p, outs);
    var next := p.from + 1;
    HeldAppend(p.keepNext, outs);
    assert levels'[p.from] == p.keep && levels'[next] == p.keepNext + outs;
    assert forall k :: 0 <= k < |levels| && k != p.from && k != next ==> levels'[k] == levels[k];
    forall e | e in HeldAll(levels) ensures e in Kept(mem, levels, p) + Taken(p) {
      var k :| 0 <= k < |levels| && e in Held(levels[k]);
    }
    forall e | e in HeldAll(levels') ensures e in Kept(mem, levels, p) + Held(outs) {
      var k :| 0 <= k < |levels'| && e in Held(levels'[k]);
    }
    forall e | e in Outside(mem, levels, p) ensures e in VersionsOf(mem, levels) && e in VersionsOf(mem, levels') {
      if e !in mem.Values {
        var k :| 0 <= k < |levels| && k != p.from && k != next && e in Held(levels[k]);
        assert levels'[k] == levels[k];
      }
    }
  }

  lemma NewerParts(a: set<Entry>, b: set<Entry>, a': set<Entry>, b': set<Entry>)
    requires Newer(a, b) && a' <= a && b' <= b
    ensures Newer(a', b')
  {
  }

  lemma NewerThanUnion(a: set<Entry>, b: set<Entry>, c: set<Entry>, d: set<Entry>)
    requires Newer(a, b) && Newer(a, c) && d <= b + c
    ensures Newer(a, d)
  {
  }

  lemma UnionNewer(a: set<Entry>, b: set<Entry>, c: set<Entry>, d: set<Entry>)
    requires Newer(a, c) && Newer(b, c) && d <= a + b
    ensures Newer(d, c)
  {
  }

  /** The age order survives a compaction: the merged versions are older than what stays of the
      upper level and newer than everything below. */
  lemma CompactKeepsAge(mem: map<Str, Entry>, levels: seq<seq<Table>>, p: Plan, outs: seq<Table>)
    requires Aged(mem, levels) && Splits(levels, p) && Held(outs) <= Taken(p)
    ensures Aged(mem, LevelsAfter(levels, p, outs))
  {
    hide Held, Newer, InOrder;
    var levels' := LevelsAfter(levels, p, outs);
    var from, next := p.from, p.from + 1;
    HeldAppend(p.keepNext, outs);
    var upper, lower := Held(levels[from]), Held(levels[next]);
    assert Held(levels'[from]) <= upper && Held(levels'[next]) <= upper + lower;
    forall i | 0 <= i < |levels'| ensures Newer(mem.Values, Held(levels'[i])) {
      if i == from {
        NewerParts(mem.Values, upper, mem.Values, Held(levels'[i]));
      } else if i == next {
        NewerThanUnion(mem.Values, upper, lower, Held(levels'[i]));
      }
    }
    forall i, j | 0 <= i < j < |levels'| ensures Newer(Held(levels'[i]), Held(levels'[j])) {
      LevelsStayAged(levels, p, levels', i, j);
    }
  }

  lemma LevelsStayAged(levels: seq<seq<Table>>, p: Plan, levels': seq<seq<Table>>, i: nat, j: nat)
    requires Splits(levels, p) && |levels'| == |levels| && i < j < |levels|
    requires forall a, b :: 0 <= a < b < |levels| ==> Newer(Held(levels[a]), Held(levels[b]))
    requires Held(levels'[p.from]) == Held(p.keep)
    requires Held(levels'[p.from + 1]) <= Held(p.take) + Held(levels[p.from + 1])
    requires forall k :: 0 <= k < |levels| && k != p.from && k != p.from + 1 ==> levels'[k] == levels[k]
    ensures Newer(Held(levels'[i]), Held(levels'[j]))
  {
    hide Held, Newer, InOrder;
    var from, next := p.from, p.from + 1;
    if i == from && j == next {
      NewerParts(Held(levels[i]), Held(levels[j]), Held(p.keep), Held(levels[j]));
      NewerThanUnion(Held(p.keep), Held(p.take), Held(levels[j]), Held(levels'[j]));
    } else if i == from {
      NewerParts(Held(levels[i]), Held(levels[j]), Held(p.keep), Held(levels[j]));
    } else if j == from {
      NewerParts(Held(levels[i]), Held(levels[j]), Held(levels[i]), Held(p.keep));
    } else if i == next {
      UnionNewer(Held(levels[from]), Held(levels[next]), Held(levels[j]), Held(levels'[i]));
    } else if j == next {
      NewerThanUnion(Held(levels[i]), Held(levels[from]), Held(levels[next]), Held(levels'[j]));
    }
  }

  /** What stays is newer than what a bottom-level merge takes: above it everything is, beside and
      below it there is nothing. */
  lemma BottomIsOldest(mem: map<Str, Entry>, levels: seq<seq<Table>>, p: Plan)
    requires Aged(mem, levels) && Splits(levels, p) && BottomIsLast(levels, p) && p.from + 1 >= BOTTOM_LEVEL
    ensures Newer(Kept(mem, levels, p), Taken(p))
  {
    hide Held, Newer, InOrder;
    HeldNone();
    var from, next := p.from, p.from + 1;
    OlderThan(mem.Values, p, levels);
    assert Newer(Held(levels[from]), Held(levels[next]));
    NewerParts(Held(levels[from]), Held(levels[next]), Held(p.keep), Held(p.takeNext));
    NewerThanUnion(Held(p.keep), Held(p.take), Held(p.takeNext), Taken(p));
    forall k | 0 <= k < |levels| && k != from && k != next ensures Newer(Held(levels[k]), Taken(p)) {
      assert k < from;
      OlderThan(Held(levels[k]), p, levels);
    }
    KeptIsNewer(mem, levels, p);
  }

  lemma OlderThan(a: set<Entry>, p: Plan, levels: seq<seq<Table>>)
    requires Parted(levels, p) && Newer(a, Held(levels[p.from])) && Newer(a, Held(levels[p.from + 1]))
    ensures Newer(a, Taken(p))
  {
    hide Held, Newer;
    NewerThanUnion(a, Held(levels[p.from]), Held(levels[p.from + 1]), Taken(p));
  }

  lemma KeptIsNewer(mem: map<Str, Entry>, levels: seq<seq<Table>>, p: Plan)
    requires p.from + 1 < |levels| && p.keepNext == []
    requires Newer(mem.Values, Taken(p)) && Newer(Held(p.keep), Taken(p))
    requires forall k :: 0 <= k < |levels| && k != p.from && k != p.from + 1 ==> Newer(Held(levels[k]), Taken(p))
    ensures Newer(Kept(mem, levels, p), Taken(p))
  {
    hide Held, Taken;
    HeldNone();
    forall e, f | e in Kept(mem, levels, p) && f in Taken(p) && e.key == f.key ensures e.ts > f.ts {
      if e !in mem.Values && e !in Held(p.keep) {
        var k :| 0 <= k < |levels| && k != p.from && k != p.from + 1 && e in Held(levels[k]);
        assert Newer(Held(levels[k]), Taken(p));
      }
    }
  }

  /** Compaction keeps the version invariant, whatever the number of levels. */
  lemma CompactKeepsVersions(mem: map<Str, Entry>, levels: seq<seq<Table>>, p: Plan, outs: seq<Table>, clock: int)
    requires Versioned(mem, levels, clock) && Splits(levels, p)
    requires Held(outs) == Survivors(Taken(p), p.from + 1 >= BOTTOM_LEVEL)
    ensures Parted(levels, p) && Versioned(mem, LevelsAfter(levels, p, outs), clock)
  {
    hide Held, Survivors, Aged, Splits, Parted, Kept, Taken, VersionsOf, Newer;
    SplitsInRange(levels, p);
    VersionsSplit(mem, levels, p, outs);
    CompactKeepsAge(mem, levels, p, outs);
    assert VersionsOf(mem, LevelsAfter(levels, p, outs)) <= VersionsOf(mem, levels);
  }

  /** It shows a reader the same value of every non-empty key when the bottom level is the last, tombstones
      dropped at the bottom included. */
  lemma CompactKeepsView(mem: map<Str, Entry>, levels: seq<seq<Table>>, p: Plan, outs: seq<Table>, clock: int, k: Str)
    requires Versioned(mem, levels, clock) && Splits(levels, p)
    requires Held(outs) == Survivors(Taken(p), p.from + 1 >= BOTTOM_LEVEL)
    ensures Parted(levels, p)
    ensures k != [] && BottomIsLast(levels, p) ==>
              Visible(VersionsOf(mem, LevelsAfter(levels, p, outs)), k) == Visible(VersionsOf(mem, levels), k)
    ensures k == [] ==> Visible(VersionsOf(mem, LevelsAfter(levels, p, outs)), k) == Visible(Kept(mem, levels, p), k)
  {
    hide Held, Visible, Survivors, Aged, Splits, Parted, Kept, Taken, VersionsOf, Newer, Exposes, BottomIsLast;
    SplitsInRange(levels, p);
    VersionsSplit(mem, levels, p, outs);
    if k == [] {
      MergeDropsEmptyKey(Kept(mem, levels, p), Taken(p), p.from + 1 >= BOTTOM_LEVEL);
    } else if BottomIsLast(levels, p) {
      if p.from + 1 >= BOTTOM_LEVEL {
        BottomIsOldest(mem, levels, p);
      }
      OldestExposesNothing(Kept(mem, levels, p), Taken(p), p.from + 1 >= BOTTOM_LEVEL, k);
      MergeKeepsVisible(Kept(mem, levels, p), Taken(p), p.from + 1 >= BOTTOM_LEVEL, k);
    }
  }

  lemma SplitsInRange(levels: seq<seq<Table>>, p: Plan)
    requires Splits(levels, p)
    ensures Parted(levels, p) && p.from + 1 < |levels|
  {
    hide Held, Newer, InOrder;
  }

  /** The outputs hold exactly the survivors. */
  lemma OutputsHold(inputs: seq<Table>, level: nat, id: nat)
    requires NoTies(Held(inputs))
    ensures Held(Outputs(inputs, level, id)) == Survivors(Held(inputs), level >= BOTTOM_LEVEL)
  {
    hide Held, Survivors, ChunksOf;
    var s := Survivors(Held(inputs), level >= BOTTOM_LEVEL);
    var es := SortedEntries(s);
    NumberedHold(ChunksOf(es), level, id);
    ChunksJoin(es);
    JoinedMembers(ChunksOf(es));
  }

  lemma NumberedHold(chunks: seq<seq<Entry>>, level: nat, id: nat)
    ensures forall e :: e in Held(Numbered(chunks, level, id)) <==> exists c :: c in chunks && e in c
  {
    var ts := Numbered(chunks, level, id);
    forall e | e in Held(ts) ensures exists c :: c in chunks && e in c {
      var t :| t in ts && e in t.entries;
      assert t.entries in chunks;
    }
    forall e, c | c in chunks && e in c ensures e in Held(ts) {
      var i :| 0 <= i < |chunks| && chunks[i] == c;
      assert ts[i] in ts && e in ts[i].entries;
    }
  }

  lemma {:induction false} JoinedMembers(chunks: seq<seq<Entry>>)
    ensures forall e :: e in Joined(chunks) <==> exists c :: c in chunks && e in c
    decreases |chunks|
  {
    if chunks != [] {
      var n := |chunks| - 1;
      JoinedMembers(chunks[..n]);
      assert chunks == chunks[..n] + [chunks[n]];
      forall e | e in Joined(chunks) ensures exists c :: c in chunks && e in c {
        if e in chunks[n] {
          assert chunks[n] in chunks;
        } else {
          assert e in Joined(chunks[..n]);
          var c :| c in chunks[..n] && e in c;
          assert c in chunks;
        }
      }
    }
  }

  /** A memtable version is the newest. */
  lemma MemIsNewest(s: Store, clock: int, k: Str)
    requires Versioned(s.mem, s.levels, clock) && k in s.mem
    ensures Newest(AllVersions(s), k) == Some(s.mem[k])
  {
    var e := s.mem[k];
    forall f | f in AllVersions(s) && f.key == k ensures f.ts <= e.ts {
      if f in s.mem.Values {
        var x :| x in s.mem && s.mem[x] == f;
        assert f == e;
      } else {
        var i :| 0 <= i < |s.levels| && f in Held(s.levels[i]);
        assert Newer(s.mem.Values, Held(s.levels[i]));
      }
    }
    NewestIs(AllVersions(s), k, e);
  }

  lemma MemKeys(s: Store, clock: int, k: Str)
    requires Versioned(s.mem, s.levels, clock) && k !in s.mem
    ensures forall f :: f in s.mem.Values ==> f.key != k
  {
    hide Held, Aged, NoTies;
  }
}
