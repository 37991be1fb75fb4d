/** What a collection of versions means: the newest version of each key, and what merging keeps. */
module Versions {
  import opened Bytes
  import opened Entries

  datatype Option<+T> = None | Some(value: T)

  /** Two versions of a key with one timestamp are the same version. */
  ghost predicate NoTies(v: set<Entry>) {
    forall e, f :: e in v && f in v && e.key == f.key && e.ts == f.ts ==> e == f
  }

  /** Every version in `a` is newer than every version of the same key in `b`. */
  ghost predicate Newer(a: set<Entry>, b: set<Entry>) {
    forall e, f :: e in a && f in b && e.key == f.key ==> e.ts > f.ts
  }

  ghost predicate IsNewest(v: set<Entry>, k: Str, e: Entry) {
    e in v && e.key == k && forall f :: f in v && f.key == k ==> f.ts <= e.ts
  }

  lemma {:induction false} NewestExists(v: set<Entry>, x: Entry) returns (e: Entry)
    requires x in v
    ensures IsNewest(v, x.key, e)
    decreases |v|
  {
    if forall f :: f in v && f.key == x.key ==> f.ts <= x.ts {
      e := x;
    } else {
      var y :| y in v && y.key == x.key && y.ts > x.ts;
      var rest := v - {x};
      assert y in rest && |rest| < |v|;
      e := NewestExists(rest, y);
      assert v == rest + {x};
    }
  }

  /** The newest version of `k`, a deletion included. */
  ghost function Newest(v: set<Entry>, k: Str): (r: Option<Entry>)
    ensures r.Some? ==> IsNewest(v, k, r.value)
    ensures r.None? ==> forall e :: e in v ==> e.key != k
  {
    if exists e :: e in v && e.key == k then
      assert exists e :: IsNewest(v, k, e) by {
        var x :| x in v && x.key == k;
        var e := NewestExists(v, x);
      }
      var e :| IsNewest(v, k, e);
      Some(e)
    else None
  }

  lemma NewestIs(v: set<Entry>, k: Str, e: Entry)
    requires NoTies(v) && IsNewest(v, k, e)
    ensures Newest(v, k) == Some(e)
  {
    assert e in v && e.key == k;
    var r := Newest(v, k);
    assert r.Some?;
    assert r.value.ts == e.ts;
  }

  /** What a reader should see: the newest value, a deletion counting as absent. */
  ghost function Visible(v: set<Entry>, k: Str): Option<Str> {
    var r := Newest(v, k);
    if r.Some? && !r.value.tomb then Some(r.value.value) else None
  }

  /** What merging keeps of the versions `v`: the newest version of each non-empty key, and no
      tombstone when merging into the bottom level. */
  ghost function Survivors(v: set<Entry>, bottom: bool): (s: set<Entry>)
    ensures s <= v
    ensures NoTies(v) ==> DistinctKeys(s)
  {
    set e | e in v && e.key != [] && !(bottom && e.tomb) && IsNewest(v, e.key, e)
  }

  /** A merge into the bottom level drops the deletion that is the newest version of the key, while an
      older value stays that the deletion hid. */
  ghost predicate Exposes(rest: set<Entry>, inputs: set<Entry>, bottom: bool, k: Str) {
    var r := Newest(rest + inputs, k);
    bottom && r.Some? && r.value.tomb && r.value !in rest && Visible(rest, k).Some?
  }

  /** Replacing the versions `inputs` by their survivors shows a reader the same value of a non-empty
      key exactly when it exposes no older one. */
  lemma MergeKeepsVisible(rest: set<Entry>, inputs: set<Entry>, bottom: bool, k: Str)
    requires NoTies(rest + inputs)
    requires k != []
    ensures Visible(rest + Survivors(inputs, bottom), k) == Visible(rest + inputs, k)
       <==> !Exposes(rest, inputs, bottom, k)
    ensures Exposes(rest, inputs, bottom, k) ==> Visible(rest + Survivors(inputs, bottom), k) == Visible(rest, k)
  {
    hide Visible, Newest, Survivors;
    var v, v' := rest + inputs, rest + Survivors(inputs, bottom);
    SurvivorsAre(inputs, bottom);
    var r := Newest(v, k);
    if r.None? {
      NoneNewest(v', k);
      SameNewestVisible(v, v', k);
      NoneVisible(v, k);
    } else if r.value in v' {
      NewestIs(v', k, r.value);
      SameNewestVisible(v, v', k);
      if r.value.tomb && r.value !in rest {
        assert !bottom;
      }
    } else {
      DroppedNewest(rest, inputs, bottom, k, r.value);
    }
  }

  lemma SurvivorsAre(v: set<Entry>, bottom: bool)
    ensures Survivors(v, bottom) <= v
    ensures forall e :: e in v ==> (e in Survivors(v, bottom)
                                    <==> e.key != [] && !(bottom && e.tomb) && IsNewest(v, e.key, e))
  {
  }

  lemma NoneNewest(v: set<Entry>, k: Str)
    requires forall e :: e in v ==> e.key != k
    ensures Newest(v, k).None?
  {
  }

  lemma NoneVisible(v: set<Entry>, k: Str)
    requires Newest(v, k).None?
    ensures Visible(v, k).None?
  {
    hide Newest;
  }

  lemma SameNewestVisible(v: set<Entry>, v': set<Entry>, k: Str)
    requires Newest(v, k) == Newest(v', k)
    ensures Visible(v, k) == Visible(v', k)
  {
    hide Newest;
  }

  /** The newest version is dropped only if it is a deletion merged into the bottom level; then what
      stays of the key is what was not merged. */
  lemma DroppedNewest(rest: set<Entry>, inputs: set<Entry>, bottom: bool, k: Str, e: Entry)
    requires NoTies(rest + inputs) && k != []
    requires Newest(rest + inputs, k) == Some(e) && e !in rest + Survivors(inputs, bottom)
    ensures bottom && e.tomb && e !in rest && Visible(rest + inputs, k) == None
    ensures Visible(rest + Survivors(inputs, bottom), k) == Visible(rest, k)
  {
    hide Newest, Survivors;
    SurvivorsAre(inputs, bottom);
    var v, v' := rest + inputs, rest + Survivors(inputs, bottom);
    assert IsNewest(v, k, e) && IsNewest(inputs, k, e);
    assert forall f :: f in Survivors(inputs, bottom) && f.key == k ==> e.ts <= f.ts && f.ts <= e.ts;
    assert forall f :: f in Survivors(inputs, bottom) ==> f.key != k;
    var r := Newest(rest, k);
    if r.Some? {
      assert IsNewest(v', k, r.value);
      NewestIs(v', k, r.value);
    } else {
      NoneNewest(v', k);
    }
  }

  lemma NewestStays(rest: set<Entry>, inputs: set<Entry>, k: Str)
    requires Newer(rest, inputs) && Newest(rest, k).Some?
    ensures Newest(rest + inputs, k).Some? && Newest(rest + inputs, k).value in rest
  {
    hide Newest;
    var e := Newest(rest, k).value;
    assert e in rest + inputs && e.key == k;
    var r := Newest(rest + inputs, k);
    assert r.Some? && e.ts <= r.value.ts;
  }

  /** Nothing is exposed when what stays is newer than what a merge into the bottom level takes. */
  lemma OldestExposesNothing(rest: set<Entry>, inputs: set<Entry>, bottom: bool, k: Str)
    requires bottom ==> Newer(rest, inputs)
    ensures !Exposes(rest, inputs, bottom, k)
  {
    hide Newest;
    if Newest(rest, k).None? {
      NoneVisible(rest, k);
    } else if bottom {
      NewestStays(rest, inputs, k);
    }
  }

  /** The empty key is the exception: merging drops every version of it. */
  lemma MergeDropsEmptyKey(rest: set<Entry>, inputs: set<Entry>, bottom: bool)
    requires NoTies(rest + inputs)
    ensures Visible(rest + Survivors(inputs, bottom), []) == Visible(rest, [])
  {
    var v' := rest + Survivors(inputs, bottom);
    assert forall e :: e in v' && e.key == [] ==> e in rest;
    var r := Newest(rest, []);
    if r.Some? {
      assert IsNewest(v', [], r.value);
      NewestIs(v', [], r.value);
    } else {
      assert Newest(v', []).None?;
    }
  }
}
