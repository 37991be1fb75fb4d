/** Versions of keys, sorted runs of them, and the sorted run a set of them determines. */
module Entries {
  import opened Bytes

  datatype Entry = Entry(key: Str, value: Str, ts: int, tomb: bool)

  /** The size estimate of an entry used throughout. */
  function Cost(e: Entry): nat {
    |e.key| + |e.value| + 16
  }

  ghost predicate Sorted(es: seq<Entry>) {
    forall i, j :: 0 <= i < j < |es| ==> Less(es[i].key, es[j].key)
  }

  ghost function Elems(es: seq<Entry>): (s: set<Entry>)
    ensures forall e :: e in s <==> e in es
  {
    set e | e in es
  }

  /** No two members of the set share a key. */
  ghost predicate DistinctKeys(s: set<Entry>) {
    forall e, f :: e in s && f in s && e.key == f.key ==> e == f
  }

  ghost predicate IsLast(s: set<Entry>, e: Entry) {
    e in s && forall f :: f in s ==> f == e || Less(f.key, e.key)
  }

  lemma {:induction false} LastOf(s: set<Entry>) returns (e: Entry)
    requires s != {} && DistinctKeys(s)
    ensures IsLast(s, e)
    decreases |s|
  {
    var x :| x in s;
    e := x;
    if s != {x} {
      var rest := s - {x};
      assert |rest| < |s|;
      assert s == rest + {x};
      var y := LastOf(rest);
      LessTotal(x.key, y.key);
      if Less(x.key, y.key) {
        e := y;
      } else {
        forall f | f in s ensures f == x || Less(f.key, x.key) {
          if f != x && f != y {
            LessTransitive(f.key, y.key, x.key);
          }
        }
      }
    }
  }

  /** The one sorted run whose members are exactly `s`. */
  ghost function SortedEntries(s: set<Entry>): (es: seq<Entry>)
    requires DistinctKeys(s)
    ensures Sorted(es) && Elems(es) == s
    decreases |s|
  {
    if s == {} then []
    else
      assert exists e :: IsLast(s, e) by {
        var e := LastOf(s);
      }
      var e :| IsLast(s, e);
      assert |s - {e}| < |s|;
      var init := SortedEntries(s - {e});
      SortedSnoc(init, e);
      init + [e]
  }

  lemma SortedSnoc(init: seq<Entry>, e: Entry)
    requires Sorted(init) && forall f :: f in init ==> Less(f.key, e.key)
    ensures Sorted(init + [e]) && Elems(init + [e]) == Elems(init) + {e}
  {
    var es := init + [e];
    forall i, j | 0 <= i < j < |es| ensures Less(es[i].key, es[j].key) {
      assert es[i] == init[i] && init[i] in init;
    }
  }

  lemma SortedDistinct(es: seq<Entry>)
    requires Sorted(es)
    ensures forall i, j :: 0 <= i < j < |es| ==> es[i].key != es[j].key
    ensures DistinctKeys(Elems(es))
  {
    forall i, j | 0 <= i < j < |es| ensures es[i].key != es[j].key {
      LessAsymmetric(es[i].key, es[j].key);
    }
  }

  lemma InitElems(es: seq<Entry>)
    requires Sorted(es) && es != []
    ensures Elems(es[..|es| - 1]) == Elems(es) - {es[|es| - 1]}
  {
    var n := |es| - 1;
    SortedDistinct(es);
    forall e | e in Elems(es) - {es[n]} ensures e in es[..n] {
      var i :| 0 <= i < |es| && es[i] == e;
      assert es[..n][i] == e;
    }
  }

  lemma SameLast(a: seq<Entry>, b: seq<Entry>)
    requires Sorted(a) && Sorted(b) && Elems(a) == Elems(b) && a != [] && b != []
    ensures a[|a| - 1] == b[|b| - 1]
  {
    var x, y := a[|a| - 1], b[|b| - 1];
    assert x in Elems(b) && y in Elems(a);
    LastIsGreatest(a, y);
    LastIsGreatest(b, x);
    if x != y {
      LessAsymmetric(x.key, y.key);
      assert false;
    }
  }

  lemma LastIsGreatest(es: seq<Entry>, e: Entry)
    requires Sorted(es) && e in es
    ensures e == es[|es| - 1] || Less(e.key, es[|es| - 1].key)
  {
  }

  /** A sorted run is determined by its members. */
  lemma {:induction false} SortedUnique(a: seq<Entry>, b: seq<Entry>)
    requires Sorted(a) && Sorted(b) && Elems(a) == Elems(b)
    ensures a == b
    decreases |a|
  {
    assert a != [] ==> a[0] in Elems(a) && a[0] in Elems(b);
    assert b != [] ==> b[0] in Elems(b) && b[0] in Elems(a);
    if a != [] && b != [] {
      var m, n := |a| - 1, |b| - 1;
      SameLast(a, b);
      InitElems(a);
      InitElems(b);
      SortedUnique(a[..m], b[..n]);
      assert a == a[..m] + [a[m]] && b == b[..n] + [b[n]];
    }
  }
}
