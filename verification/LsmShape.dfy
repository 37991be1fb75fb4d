/** The shape compaction gives the levels: which tables of a level can share keys, and when every
    level is within its size limit. */
module LsmShape {
  import opened Bytes
  import opened Entries
  import opened Versions
  import opened TableFormat
  import opened TableLookup
  import opened Compaction
  import opened Chunks
  import opened LsmModel
  import opened LsmVersions
  import opened LsmTables
  import opened LsmSteps

  // ----- key ranges -----

  ghost predicate Below(a: seq<Entry>, b: seq<Entry>) {
    forall e, f :: e in a && f in b ==> Less(e.key, f.key)
  }

  /** The key ranges of the tables are pairwise disjoint. */
  ghost predicate Disjoint(ts: seq<Table>) {
    forall i, j :: 0 <= i < j < |ts| ==> RangesApart(ts[i], ts[j])
  }

  ghost predicate RangesApart(a: Table, b: Table) {
    Below(a.entries, b.entries) || Below(b.entries, a.entries)
  }

  /** The outputs of one compaction have disjoint key ranges. */
  lemma OutputsDisjoint(inputs: seq<Table>, level: nat, id: nat)
    ensures Disjoint(Outputs(inputs, level, id))
  {
    hide Held, Survivors, ChunksOf, Sorted;
    var v := Held(inputs);
    if NoTies(v) {
      var es := SortedEntries(Survivors(v, level >= BOTTOM_LEVEL));
      ChunksJoin(es);
      JoinedSorted(ChunksOf(es));
    }
  }

  /** compactLevel leaves the next level with disjoint key ranges, whatever it was before. */
  lemma CompactLevelDisjoint(s: Store, level: nat)
    requires level + 1 < |s.levels| && |s.sizes| == |s.levels|
    ensures Disjoint(Compact(s, PlanLevel(s, level)).levels[level + 1])
  {
    hide Outputs, Disjoint;
    var p := PlanLevel(s, level);
    OutputsDisjoint(p.take + p.takeNext, level + 1, s.nextID);
    assert [] + PlanOutputs(s, p) == PlanOutputs(s, p);
  }

  /** The reported smallest and greatest key of the table are its first and last key. */
  ghost predicate ExactRange(t: Table) {
    && t.entries != []
    && MinKey(Handle(t)) == t.entries[0].key
    && MaxKey(Handle(t)) == t.entries[|t.entries| - 1].key
  }

  /** They are exactly when the last entry is one of those the index samples. */
  lemma RangeIsExact(t: Table)
    requires Sorted(t.entries) && t.entries != []
    ensures ExactRange(t) <==> (|t.entries| - 1) % STEP == 0
  {
    hide Written;
    ReportedKeys(t.entries, STEP, Expect(t));
  }

  ghost predicate AllExact(ts: seq<Table>) {
    forall t :: t in ts ==> Sorted(t.entries) && ExactRange(t)
  }

  /** The hull of the taken tables' reported ranges covers their keys. */
  lemma {:induction false} HullCovers(ts: seq<Table>)
    requires ts != [] && AllExact(ts)
    ensures forall t, e :: t in ts && e in t.entries ==> AtMost(Smallest(ts), e.key) && AtMost(e.key, Greatest(ts))
    decreases |ts|
  {
    hide Handle, MinKey, MaxKey, AtMost, Smallest, Greatest, Sorted, ExactRange;
    var n := |ts| - 1;
    var t := ts[n];
    assert t in ts && ts == ts[..n] + [t];
    KeysInRange(t);
    HullGrows(ts);
    if n > 0 {
      HullCovers(ts[..n]);
      var lo, hi := Smallest(ts[..n]), Greatest(ts[..n]);
      forall u, e | u in ts && e in u.entries ensures AtMost(Smallest(ts), e.key) && AtMost(e.key, Greatest(ts)) {
        if u in ts[..n] {
          AtMostTransitive(Smallest(ts), lo, e.key);
          AtMostTransitive(e.key, hi, Greatest(ts));
        } else {
          AtMostTransitive(Smallest(ts), MinKey(Handle(t)), e.key);
          AtMostTransitive(e.key, MaxKey(Handle(t)), Greatest(ts));
        }
      }
    }
  }

  lemma HullGrows(ts: seq<Table>)
    requires ts != []
    ensures var n := |ts| - 1;
      if n == 0 then Smallest(ts) == MinKey(Handle(ts[0])) && Greatest(ts) == MaxKey(Handle(ts[0]))
      else
        && AtMost(Smallest(ts), Smallest(ts[..n])) && AtMost(Smallest(ts), MinKey(Handle(ts[n])))
        && AtMost(Greatest(ts[..n]), Greatest(ts)) && AtMost(MaxKey(Handle(ts[n])), Greatest(ts))
  {
    hide Handle, MinKey, MaxKey;
    var n := |ts| - 1;
    if n > 0 {
      LessTotal(MinKey(Handle(ts[n])), Smallest(ts[..n]));
      LessTotal(Greatest(ts[..n]), MaxKey(Handle(ts[n])));
    }
  }

  lemma AtMostTransitive(a: Str, b: Str, c: Str)
    requires AtMost(a, b) && AtMost(b, c)
    ensures AtMost(a, c)
  {
    if a != b && b != c {
      LessTransitive(a, b, c);
    }
  }

  lemma KeysInRange(t: Table)
    requires Sorted(t.entries) && ExactRange(t)
    ensures forall e :: e in t.entries ==> AtMost(MinKey(Handle(t)), e.key) && AtMost(e.key, MaxKey(Handle(t)))
  {
    hide Handle, MinKey, MaxKey;
  }

  lemma {:induction false} KeptAreApart(ts: seq<Table>, minK: Str, maxK: Str)
    ensures forall t :: t in NotOverlapping(ts, minK, maxK) ==> t in ts && Apart(t, minK, maxK)
    ensures forall t :: t in Overlapping(ts, minK, maxK) ==> t in ts && !Apart(t, minK, maxK)
    decreases |ts|
  {
    hide Apart;
    if ts != [] {
      KeptAreApart(ts[..|ts| - 1], minK, maxK);
      assert ts == ts[..|ts| - 1] + [ts[|ts| - 1]];
    }
  }

  lemma {:induction false} KeptAreAll(ts: seq<Table>, minK: Str, maxK: Str)
    ensures forall t :: t in ts ==>
              t in if Apart(t, minK, maxK) then NotOverlapping(ts, minK, maxK) else Overlapping(ts, minK, maxK)
    decreases |ts|
  {
    hide Apart;
    if ts != [] {
      KeptAreAll(ts[..|ts| - 1], minK, maxK);
      assert ts == ts[..|ts| - 1] + [ts[|ts| - 1]];
    }
  }

  /** What stays and what is taken keep their order. */
  lemma {:induction false} OverlapKeepsOrder(a: seq<Table>, b: seq<Table>, minK: Str, maxK: Str)
    ensures NotOverlapping(a + b, minK, maxK) == NotOverlapping(a, minK, maxK) + NotOverlapping(b, minK, maxK)
    ensures Overlapping(a + b, minK, maxK) == Overlapping(a, minK, maxK) + Overlapping(b, minK, maxK)
    decreases |b|
  {
    hide Apart;
    if b == [] {
      assert a + b == a;
    } else {
      var n := |b| - 1;
      OverlapKeepsOrder(a, b[..n], minK, maxK);
      assert (a + b)[..|a| + n] == a + b[..n] && (a + b)[|a| + n] == b[n];
    }
  }

  /** All keys of the table are below every key of the tables `ts`, or all are above. */
  ghost predicate BesideAll(t: Table, ts: seq<Table>) {
    || (forall u :: u in ts ==> Below(t.entries, u.entries))
    || (forall u :: u in ts ==> Below(u.entries, t.entries))
  }

  /** The ends of the hull are keys of taken tables. */
  lemma {:induction false} HullIsTight(ts: seq<Table>)
    requires ts != []
    ensures exists t :: t in ts && MinKey(Handle(t)) == Smallest(ts)
    ensures exists t :: t in ts && MaxKey(Handle(t)) == Greatest(ts)
    decreases |ts|
  {
    hide Handle, MinKey, MaxKey;
    var n := |ts| - 1;
    assert ts[n] in ts;
    if n > 0 {
      HullIsTight(ts[..n]);
    }
  }

  lemma ApartIsBeside(t: Table, ts: seq<Table>)
    requires ts != [] && AllExact(ts) && Sorted(t.entries) && ExactRange(t)
    ensures Apart(t, Smallest(ts), Greatest(ts)) <==> BesideAll(t, ts)
  {
    hide Handle, MinKey, MaxKey, Smallest, Greatest, Sorted, AtMost, ExactRange, Below;
    var lo, hi := Smallest(ts), Greatest(ts);
    HullCovers(ts);
    HullIsTight(ts);
    NotEmpty(t);
    if Apart(t, lo, hi) {
      ApartSides(t, lo, hi);
      forall u | u in ts
        ensures Less(hi, t.entries[0].key) ==> Below(u.entries, t.entries)
        ensures Less(t.entries[|t.entries| - 1].key, lo) ==> Below(t.entries, u.entries)
      {
        forall e | e in u.entries
          ensures Less(hi, t.entries[0].key) ==> BelowAll(e, t.entries)
          ensures Less(t.entries[|t.entries| - 1].key, lo) ==> AboveAll(e, t.entries)
        {
          TakenBeside(t, lo, hi, e);
        }
        SidesOf(u.entries, t.entries, Less(hi, t.entries[0].key));
        SidesOf(u.entries, t.entries, !Less(t.entries[|t.entries| - 1].key, lo));
      }
    } else if BesideAll(t, ts) {
      var u :| u in ts && MinKey(Handle(u)) == lo;
      var v :| v in ts && MaxKey(Handle(v)) == hi;
      if Below(t.entries, u.entries) {
        BesideEnds(t, u);
      } else {
        BesideEnds(v, t);
      }
      assert false;
    }
  }

  lemma SidesOf(a: seq<Entry>, b: seq<Entry>, above: bool)
    ensures (forall e :: e in a ==> if above then BelowAll(e, b) else AboveAll(e, b)) ==>
              if above then Below(a, b) else Below(b, a)
  {
  }

  lemma BesideEnds(t: Table, u: Table)
    requires ExactRange(t) && ExactRange(u) && Below(t.entries, u.entries)
    ensures Less(MaxKey(Handle(t)), MinKey(Handle(u)))
  {
    hide Handle, MinKey, MaxKey;
  }

  /** Where the reported ranges are exact, a level-1 table stays out of the merge exactly when its keys lie all
      below or all above those of the tables taken from level 0. */
  lemma CompactL0Spares(s: Store, t: Table)
    requires 2 <= |s.levels| && s.levels[0] != [] && t in s.levels[1]
    requires AllExact(s.levels[1]) && AllExact(PlanL0(s).take)
    ensures t in PlanL0(s).keepNext <==> BesideAll(t, PlanL0(s).take)
    ensures t in PlanL0(s).takeNext <==> !BesideAll(t, PlanL0(s).take)
  {
    hide Apart, Smallest, Greatest, Overlapping, NotOverlapping, ByPath, BesideAll, Sorted, ExactRange;
    var p := PlanL0(s);
    TakesSome(s);
    var lo, hi := Smallest(p.take), Greatest(p.take);
    KeptAreApart(s.levels[1], lo, hi);
    KeptAreAll(s.levels[1], lo, hi);
    ApartIsBeside(t, p.take);
  }

  lemma TakesSome(s: Store)
    requires 2 <= |s.levels| && s.levels[0] != []
    ensures PlanL0(s).take != []
  {
    hide Smallest, Greatest, Overlapping, NotOverlapping;
    ByPathLength(s.levels[0]);
  }

  lemma {:induction false} KeptStayDisjoint(ts: seq<Table>, minK: Str, maxK: Str)
    requires Disjoint(ts)
    ensures Disjoint(NotOverlapping(ts, minK, maxK))
    decreases |ts|
  {
    hide Apart, RangesApart;
    if ts != [] {
      var n := |ts| - 1;
      KeptStayDisjoint(ts[..n], minK, maxK);
      KeptAreApart(ts[..n], minK, maxK);
      var kept := NotOverlapping(ts[..n], minK, maxK);
      forall i | 0 <= i < |kept| ensures RangesApart(kept[i], ts[n]) {
        assert kept[i] in kept;
        var j :| 0 <= j < n && ts[..n][j] == kept[i];
      }
    }
  }

  /** Two different tables of a disjoint list have ranges apart, in either order. */
  lemma DisjointPair(ts: seq<Table>, a: Table, b: Table)
    requires Disjoint(ts) && a in ts && b in ts && a != b
    ensures RangesApart(a, b)
  {
    hide Below;
    var i :| 0 <= i < |ts| && ts[i] == a;
    var j :| 0 <= j < |ts| && ts[j] == b;
  }

  /** The keys of all entries merged lie on one side of a table that stays: the hull of the taken
      tables does, and a table overlapping that hull cannot reach across it. */
  lemma InputBesideKept(ts: seq<Table>, u: Table, o: Table, minK: Str, maxK: Str)
    requires Disjoint(ts) && AllExact(ts) && u in ts && o in ts
    requires Apart(u, minK, maxK) && !Apart(o, minK, maxK)
    ensures Less(maxK, u.entries[0].key) ==> Below(o.entries, u.entries)
    ensures Less(u.entries[|u.entries| - 1].key, minK) ==> Below(u.entries, o.entries)
  {
    hide Handle, MinKey, MaxKey, Disjoint, Below, Apart, Sorted;
    DisjointPair(ts, u, o);
    Beside(u, o, minK, maxK);
  }

  lemma Beside(u: Table, o: Table, minK: Str, maxK: Str)
    requires RangesApart(u, o) && Apart(u, minK, maxK) && !Apart(o, minK, maxK)
    requires ExactRange(u) && ExactRange(o)
    ensures Less(maxK, u.entries[0].key) ==> Below(o.entries, u.entries)
    ensures Less(u.entries[|u.entries| - 1].key, minK) ==> Below(u.entries, o.entries)
  {
    hide Handle, MinKey, MaxKey;
    var ul, uh, ol, oh := u.entries[0], u.entries[|u.entries| - 1], o.entries[0], o.entries[|o.entries| - 1];
    if Less(maxK, ul.key) && Below(u.entries, o.entries) {
      assert Less(ul.key, ol.key);
      LessTransitive(maxK, ul.key, ol.key);
      assert false;
    }
    if Less(uh.key, minK) && Below(o.entries, u.entries) {
      assert Less(oh.key, uh.key);
      LessTransitive(oh.key, uh.key, minK);
      assert false;
    }
  }

  /** compactL0ToL1 keeps the key ranges of level 1 disjoint whenever the reported ranges of the
      tables it looks at are exact. */
  lemma CompactL0Disjoint(s: Store, clock: int)
    requires Core(s, clock) && s.levels[0] != []
    requires Disjoint(s.levels[1]) && AllExact(s.levels[1]) && AllExact(PlanL0(s).take)
    ensures Disjoint(CompactL0(s).levels[1])
  {
    hide Core, PlanOk, Outputs, Disjoint, AllExact, Apart, Smallest, Greatest, RangesApart, Overlapping;
    hide NotOverlapping, ByPath, Versioned, RisingIds;
    CoreLevels(s, clock);
    var n := PlanL0Ok(s, clock);
    var p := PlanL0(s);
    var lo, hi := Smallest(p.take), Greatest(p.take);
    KeptStayDisjoint(s.levels[1], lo, hi);
    var outs := PlanOutputs(s, p);
    OutputsDisjoint(p.take + p.takeNext, 1, s.nextID);
    forall u, o | u in p.keepNext && o in outs ensures RangesApart(u, o) {
      OutputBesideKept(s, clock, u, o);
    }
    DisjointJoin(p.keepNext, outs);
  }

  lemma DisjointJoin(a: seq<Table>, b: seq<Table>)
    requires Disjoint(a) && Disjoint(b) && forall t, u :: t in a && u in b ==> RangesApart(t, u)
    ensures Disjoint(a + b)
  {
    hide RangesApart;
    var ts := a + b;
    forall i, j | 0 <= i < j < |ts| ensures RangesApart(ts[i], ts[j]) {
      if i < |a| && j >= |a| {
        assert ts[i] in a && ts[j] in b;
      } else if i < |a| {
        assert ts[i] == a[i] && ts[j] == a[j];
      } else {
        assert ts[i] == b[i - |a|] && ts[j] == b[j - |a|];
      }
    }
  }

  /** Every version an output holds was held by an input. */
  lemma OutputFromInput(s: Store, clock: int, p: Plan, o: Table, e: Entry)
    requires Core(s, clock) && PlanOk(s.levels, p) && o in PlanOutputs(s, p) && e in o.entries
    ensures exists t :: (t in p.take || t in p.takeNext) && e in t.entries
  {
    hide Core, PlanOk, Survivors, Outputs;
    InputsHaveNoTies(s, clock, p);
    OutputsHold(p.take + p.takeNext, p.from + 1, s.nextID);
    assert e in Held(PlanOutputs(s, p)) && e in Held(p.take + p.takeNext);
    var t :| t in p.take + p.takeNext && e in t.entries;
  }

  lemma OutputBesideKept(s: Store, clock: int, u: Table, o: Table)
    requires Core(s, clock) && s.levels[0] != []
    requires Disjoint(s.levels[1]) && AllExact(s.levels[1]) && AllExact(PlanL0(s).take)
    requires u in PlanL0(s).keepNext && o in PlanOutputs(s, PlanL0(s))
    ensures RangesApart(u, o)
  {
    hide Core, PlanOk, PlanOutputs, Disjoint, Apart, Smallest, Greatest, Overlapping, NotOverlapping, ByPath;
    hide Sorted, ExactRange, Below;
    CoreLevels(s, clock);
    var n := PlanL0Ok(s, clock);
    var p := PlanL0(s);
    var lo, hi := Smallest(p.take), Greatest(p.take);
    KeptAreApart(s.levels[1], lo, hi);
    HullCovers(p.take);
    assert u in s.levels[1] && Sorted(u.entries) && ExactRange(u);
    NotEmpty(u);
    ApartSides(u, lo, hi);
    var above := Less(hi, u.entries[0].key);
    forall e | e in o.entries ensures if above then BelowAll(e, u.entries) else AboveAll(e, u.entries) {
      OutputFromInput(s, clock, p, o, e);
      var t :| (t in p.take || t in p.takeNext) && e in t.entries;
      if t in p.take {
        TakenBeside(u, lo, hi, e);
      } else {
        InputBesideKept(s.levels[1], u, t, lo, hi);
        OneOfBelow(t.entries, u.entries, e);
      }
    }
    SideDecides(o.entries, u.entries, above);
  }

  ghost predicate BelowAll(e: Entry, b: seq<Entry>) {
    forall f :: f in b ==> Less(e.key, f.key)
  }

  ghost predicate AboveAll(e: Entry, b: seq<Entry>) {
    forall f :: f in b ==> Less(f.key, e.key)
  }

  lemma SideDecides(a: seq<Entry>, b: seq<Entry>, above: bool)
    requires forall e :: e in a ==> if above then BelowAll(e, b) else AboveAll(e, b)
    ensures if above then Below(a, b) else Below(b, a)
  {
  }

  lemma OneOfBelow(a: seq<Entry>, b: seq<Entry>, e: Entry)
    requires e in a
    ensures Below(a, b) ==> BelowAll(e, b)
    ensures Below(b, a) ==> AboveAll(e, b)
  {
  }

  lemma NotEmpty(t: Table)
    requires ExactRange(t)
    ensures t.entries != []
  {
  }

  lemma ApartSides(u: Table, lo: Str, hi: Str)
    requires ExactRange(u) && Apart(u, lo, hi)
    ensures Less(u.entries[|u.entries| - 1].key, lo) || Less(hi, u.entries[0].key)
  {
    hide Handle, MinKey, MaxKey;
  }

  lemma TakenBeside(u: Table, lo: Str, hi: Str, e: Entry)
    requires Sorted(u.entries) && u.entries != [] && AtMost(lo, e.key) && AtMost(e.key, hi)
    ensures Less(hi, u.entries[0].key) ==> BelowAll(e, u.entries)
    ensures Less(u.entries[|u.entries| - 1].key, lo) ==> AboveAll(e, u.entries)
  {
    var m := |u.entries| - 1;
    if Less(hi, u.entries[0].key) {
      if e.key != hi { LessTransitive(e.key, hi, u.entries[0].key); }
      forall f | f in u.entries ensures Less(e.key, f.key) {
        var i :| 0 <= i < |u.entries| && u.entries[i] == f;
        if i > 0 { LessTransitive(e.key, u.entries[0].key, f.key); }
      }
    }
    if Less(u.entries[m].key, lo) {
      if e.key != lo { LessTransitive(u.entries[m].key, lo, e.key); }
      forall f | f in u.entries ensures Less(f.key, e.key) {
        var i :| 0 <= i < |u.entries| && u.entries[i] == f;
        if i < m { LessTransitive(f.key, u.entries[m].key, e.key); }
      }
    }
  }

  // ----- shared keys -----

  /** No key is held by two tables of the list. */
  ghost predicate KeysOnce(ts: seq<Table>) {
    forall i, j, e, f :: 0 <= i < j < |ts| && e in ts[i].entries && f in ts[j].entries ==> e.key != f.key
  }

  /** No table of the one list shares a key with a table of the other, the empty key aside. */
  ghost predicate NoneShared(a: seq<Table>, b: seq<Table>) {
    forall t, u, e, f :: t in a && u in b && e in t.entries && f in u.entries && e.key == f.key ==> e.key == []
  }

  lemma DisjointSharesNothing(ts: seq<Table>)
    requires Disjoint(ts)
    ensures KeysOnce(ts)
  {
    forall i, j, e, f | 0 <= i < j < |ts| && e in ts[i].entries && f in ts[j].entries ensures e.key != f.key {
      assert RangesApart(ts[i], ts[j]);
      LessIrreflexive(e.key);
    }
  }

  lemma {:induction false} KeptKeysOnce(ts: seq<Table>, minK: Str, maxK: Str)
    requires KeysOnce(ts)
    ensures KeysOnce(NotOverlapping(ts, minK, maxK))
    ensures NoneShared(NotOverlapping(ts, minK, maxK), Overlapping(ts, minK, maxK))
    decreases |ts|
  {
    hide Apart, KeysOnce, NoneShared, NoneLike;
    if ts == [] {
      NothingShared();
    } else {
      var n := |ts| - 1;
      InitKeysOnce(ts);
      KeptKeysOnce(ts[..n], minK, maxK);
      KeptAreApart(ts[..n], minK, maxK);
      LastKeysApart(ts);
      var kept, over := NotOverlapping(ts[..n], minK, maxK), Overlapping(ts[..n], minK, maxK);
      FewerLike(kept, ts[..n], ts[n]);
      FewerLike(over, ts[..n], ts[n]);
      KeysOnceSnoc(kept, ts[n]);
      NoneSharedSnoc(kept, over, ts[n]);
      assert kept + [] == kept && over + [] == over;
    }
  }

  lemma NothingShared()
    ensures KeysOnce([]) && NoneShared([], [])
  {
  }

  lemma InitKeysOnce(ts: seq<Table>)
    requires KeysOnce(ts) && ts != []
    ensures KeysOnce(ts[..|ts| - 1])
  {
  }

  /** No entry of the table shares its key with an entry of the list. */
  ghost predicate NoneLike(ts: seq<Table>, t: Table) {
    forall u, e, f :: u in ts && e in u.entries && f in t.entries ==> e.key != f.key
  }

  lemma FewerLike(part: seq<Table>, ts: seq<Table>, t: Table)
    requires NoneLike(ts, t) && forall u :: u in part ==> u in ts
    ensures NoneLike(part, t)
  {
  }

  lemma KeysOnceSnoc(ts: seq<Table>, t: Table)
    requires KeysOnce(ts) && NoneLike(ts, t)
    ensures KeysOnce(ts + [t])
  {
    var us := ts + [t];
    forall i, j, e, f | 0 <= i < j < |us| && e in us[i].entries && f in us[j].entries ensures e.key != f.key {
      assert us[i] == ts[i] && ts[i] in ts;
      if j < |ts| {
        assert us[j] == ts[j];
      }
    }
  }

  lemma NoneSharedSnoc(a: seq<Table>, b: seq<Table>, t: Table)
    requires NoneShared(a, b) && NoneLike(a, t) && NoneLike(b, t)
    ensures NoneShared(a + [t], b) && NoneShared(a, b + [t])
  {
    forall u, v, e, f | u in a + [t] && v in b && e in u.entries && f in v.entries && e.key == f.key
      ensures e.key == []
    {
      assert u in a || u == t;
    }
    forall u, v, e, f | u in a && v in b + [t] && e in u.entries && f in v.entries && e.key == f.key
      ensures e.key == []
    {
      assert v in b || v == t;
    }
  }

  lemma LastKeysApart(ts: seq<Table>)
    requires KeysOnce(ts) && ts != []
    ensures NoneLike(ts[..|ts| - 1], ts[|ts| - 1])
  {
    var n := |ts| - 1;
    forall t, e, f | t in ts[..n] && e in t.entries && f in ts[n].entries ensures e.key != f.key {
      var i :| 0 <= i < n && ts[i] == t;
    }
  }

  /** The outputs of a merge into level 1 hold exactly the non-empty keys of the inputs. */
  lemma OutputKeys(s: Store, clock: int, p: Plan, k: Str)
    requires Core(s, clock) && PlanOk(s.levels, p) && p.from == 0 && k != []
    ensures (exists e :: e in Held(PlanOutputs(s, p)) && e.key == k) <==> (exists e :: e in Taken(p) && e.key == k)
    ensures forall e :: e in Held(PlanOutputs(s, p)) ==> e.key != []
  {
    hide Core, PlanOk, Outputs, Held;
    InputsHaveNoTies(s, clock, p);
    OutputsHold(p.take + p.takeNext, 1, s.nextID);
    if e :| e in Taken(p) && e.key == k {
      var x := NewestExists(Taken(p), e);
      assert x in Survivors(Taken(p), false);
    }
  }

  /** After compactL0ToL1 every key is in one table of level 1 at most, exactly when no level-1 table
      that stayed shares a key with a level-0 table that was merged. */
  lemma CompactL0KeysOnce(s: Store, clock: int)
    requires Core(s, clock) && s.levels[0] != [] && KeysOnce(s.levels[1])
    ensures KeysOnce(CompactL0(s).levels[1]) <==> NoneShared(PlanL0(s).keepNext, PlanL0(s).take)
  {
    hide Core, PlanOk, Outputs, Smallest, Greatest, Overlapping, NotOverlapping, ByPath;
    hide KeysOnce, NoneShared, Disjoint;
    CoreLevels(s, clock);
    var n := PlanL0Ok(s, clock);
    var p := PlanL0(s);
    KeptKeysOnce(s.levels[1], Smallest(p.take), Greatest(p.take));
    var outs := PlanOutputs(s, p);
    OutputsDisjoint(p.take + p.takeNext, 1, s.nextID);
    DisjointSharesNothing(outs);
    KeysOnceJoin(p.keepNext, outs);
    SharedWithOutputs(s, clock, p);
  }

  /** No key of the one list is a key of the other. */
  ghost predicate KeysApart(a: seq<Table>, b: seq<Table>) {
    forall e, f :: e in Held(a) && f in Held(b) ==> e.key != f.key
  }

  lemma KeysOnceJoin(a: seq<Table>, b: seq<Table>)
    requires KeysOnce(a) && KeysOnce(b)
    ensures KeysOnce(a + b) <==> KeysApart(a, b)
  {
    var ts := a + b;
    if KeysOnce(ts) {
      forall e, f | e in Held(a) && f in Held(b) ensures e.key != f.key {
        var t :| t in a && e in t.entries;
        var u :| u in b && f in u.entries;
        var i :| 0 <= i < |a| && a[i] == t;
        var j :| 0 <= j < |b| && b[j] == u;
        assert ts[i] == t && ts[|a| + j] == u;
      }
    }
    if KeysApart(a, b) {
      forall i, j, e, f | 0 <= i < j < |ts| && e in ts[i].entries && f in ts[j].entries ensures e.key != f.key {
        if i < |a| && j >= |a| {
          assert ts[i] in a && ts[j] in b;
          assert e in Held(a) && f in Held(b);
        } else if i < |a| {
          assert ts[i] == a[i] && ts[j] == a[j];
        } else {
          assert ts[i] == b[i - |a|] && ts[j] == b[j - |a|];
        }
      }
    }
  }

  lemma SharedWithOutputs(s: Store, clock: int, p: Plan)
    requires Core(s, clock) && PlanOk(s.levels, p) && p.from == 0
    requires NoneShared(p.keepNext, p.takeNext)
    ensures KeysApart(p.keepNext, PlanOutputs(s, p)) <==> NoneShared(p.keepNext, p.take)
  {
    hide Core, PlanOk, PlanOutputs, NoneShared, KeysApart;
    if KeysApart(p.keepNext, PlanOutputs(s, p)) {
      ApartFromOutputs(s, clock, p);
    }
    if NoneShared(p.keepNext, p.take) {
      ApartFromInputs(s, clock, p);
    }
  }

  lemma ApartFromOutputs(s: Store, clock: int, p: Plan)
    requires Core(s, clock) && PlanOk(s.levels, p) && p.from == 0
    requires KeysApart(p.keepNext, PlanOutputs(s, p))
    ensures NoneShared(p.keepNext, p.take)
  {
    hide Core, PlanOk, PlanOutputs;
    forall t, u, e, f | t in p.keepNext && u in p.take && e in t.entries && f in u.entries && e.key == f.key
      ensures e.key == []
    {
      assert e in Held(p.keepNext) && f in Taken(p);
      if e.key != [] {
        OutputKeys(s, clock, p, e.key);
        assert false;
      }
    }
  }

  /** An entry shares its key, not the empty one, with no table of the list. */
  lemma SharesNone(ts: seq<Table>, us: seq<Table>, e: Entry, x: Entry)
    requires NoneShared(ts, us) && e in Held(ts) && x in Held(us) && e.key == x.key
    ensures e.key == []
  {
    var t :| t in ts && e in t.entries;
    var u :| u in us && x in u.entries;
  }

  lemma ApartFromInputs(s: Store, clock: int, p: Plan)
    requires Core(s, clock) && PlanOk(s.levels, p) && p.from == 0
    requires NoneShared(p.keepNext, p.takeNext) && NoneShared(p.keepNext, p.take)
    ensures KeysApart(p.keepNext, PlanOutputs(s, p))
  {
    hide Core, PlanOk, PlanOutputs, NoneShared, Held;
    var outs := PlanOutputs(s, p);
    forall e, f | e in Held(p.keepNext) && f in Held(outs) ensures e.key != f.key {
      if e.key == f.key {
        OutputKeys(s, clock, p, [0]);
        OutputKeys(s, clock, p, f.key);
        var x :| x in Taken(p) && x.key == f.key;
        if x in Held(p.take) {
          SharesNone(p.keepNext, p.take, e, x);
        } else {
          SharesNone(p.keepNext, p.takeNext, e, x);
        }
      }
    }
  }
}
