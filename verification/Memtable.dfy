/** The in-memory table: a map of newest versions with a running size and a cache of sorted keys. */
module Memtable {
  import opened Bytes
  import opened Entries
  import opened Versions

  /** The size a set of versions accounts for. */
  ghost function TotalCost(s: set<Entry>): nat
    decreases |s|
  {
    if s == {} then 0 else
      var e :| e in s;
      assert |s - {e}| < |s|;
      Cost(e) + TotalCost(s - {e})
  }

  lemma {:induction false} TotalCostWithout(s: set<Entry>, e: Entry)
    requires e in s
    ensures TotalCost(s) == Cost(e) + TotalCost(s - {e})
    decreases |s|
  {
    var f :| f in s && TotalCost(s) == Cost(f) + TotalCost(s - {f});
    if f != e {
      assert |s - {f}| < |s| && |s - {e}| < |s|;
      TotalCostWithout(s - {f}, e);
      TotalCostWithout(s - {e}, f);
      assert s - {f} - {e} == s - {e} - {f};
    }
  }

  lemma TotalCostWith(s: set<Entry>, e: Entry)
    requires e !in s
    ensures TotalCost(s + {e}) == TotalCost(s) + Cost(e)
  {
    TotalCostWithout(s + {e}, e);
    assert s + {e} - {e} == s;
  }

  ghost predicate KeyedByKey(m: map<Str, Entry>) {
    forall k :: k in m ==> m[k].key == k
  }

  lemma ValuesAfterUpdate(m: map<Str, Entry>, e: Entry)
    requires KeyedByKey(m)
    ensures KeyedByKey(m[e.key := e])
    ensures m[e.key := e].Values == (if e.key in m then m.Values - {m[e.key]} else m.Values) + {e}
    ensures e.key !in m ==> e !in m.Values
  {
    var m' := m[e.key := e];
    forall f | f in m.Values && (e.key in m ==> f != m[e.key]) ensures f in m'.Values {
      var k :| k in m && m[k] == f;
      assert m'[k] == f;
    }
    assert m'[e.key] == e;
  }

  lemma SizeAfterUpdate(m: map<Str, Entry>, e: Entry)
    requires KeyedByKey(m)
    ensures TotalCost(m[e.key := e].Values)
         == TotalCost(m.Values) - (if e.key in m then Cost(m[e.key]) else 0) + Cost(e)
  {
    ValuesAfterUpdate(m, e);
    if e.key in m {
      var old_ := m[e.key];
      TotalCostWithout(m.Values, old_);
      assert e !in m.Values - {old_} by {
        if e in m.Values {
          var k :| k in m && m[k] == e;
        }
      }
      TotalCostWith(m.Values - {old_}, e);
    } else {
      TotalCostWith(m.Values, e);
    }
  }

  lemma ValuesDistinct(m: map<Str, Entry>)
    requires KeyedByKey(m)
    ensures DistinctKeys(m.Values)
  {
  }

  ghost predicate SortedKeys(ks: seq<Str>) {
    forall i, j :: 0 <= i < j < |ks| ==> Less(ks[i], ks[j])
  }

  /** A key's place in a sorted list of other keys: what is before is less, what is behind greater. */
  method Place(ks: seq<Str>, k: Str) returns (p: nat)
    requires SortedKeys(ks) && k !in ks
    ensures p <= |ks|
    ensures forall i :: 0 <= i < p ==> Less(ks[i], k)
    ensures forall i :: p <= i < |ks| ==> Less(k, ks[i])
  {
    p := |ks|;
    while p > 0 && Less(k, ks[p - 1])
      invariant p <= |ks|
      invariant forall i :: p <= i < |ks| ==> Less(k, ks[i])
    {
      p := p - 1;
    }
    if p > 0 {
      LessTotal(ks[p - 1], k);
      assert ks[p - 1] in ks;
      forall i | 0 <= i < p ensures Less(ks[i], k) {
        if i < p - 1 {
          LessTransitive(ks[i], ks[p - 1], k);
        }
      }
    }
  }

  /** sort.Strings on distinct keys. */
  method SortStrings(ks: seq<Str>) returns (r: seq<Str>)
    requires forall i, j :: 0 <= i < j < |ks| ==> ks[i] != ks[j]
    ensures SortedKeys(r)
    ensures forall k :: k in r <==> k in ks
  {
    r := [];
    for n := 0 to |ks|
      invariant SortedKeys(r)
      invariant forall k :: k in r <==> k in ks[..n]
    {
      var k := ks[n];
      assert k !in ks[..n];
      var p := Place(r, k);
      var r' := r[..p] + [k] + r[p..];
      assert SortedKeys(r');
      assert forall x :: x in r' <==> x == k || x in r by {
        assert r == r[..p] + r[p..];
      }
      assert ks[..n + 1] == ks[..n] + [k];
      r := r';
    }
    assert ks[..|ks|] == ks;
  }

  class MemTable {
    var m: map<Str, Entry>
    var keys: Option<seq<Str>>
    var size: int
    var dirty: bool

    ghost predicate Valid()
      reads this
    {
      && KeyedByKey(m)
      && size == TotalCost(m.Values)
      && (keys.Some? && !dirty ==> SortedKeys(keys.value) && forall k :: k in keys.value <==> k in m)
    }

    constructor New()
      ensures Valid() && m == map[]
    {
      m, keys, size, dirty := map[], None, 0, false;
    }

    method Put(key: Str, value: Str, timestamp: int)
      requires Valid()
      modifies this
      ensures Valid() && m == old(m)[key := Entry(key, value, timestamp, false)]
    {
      var newSize := |key| + |value| + 16;
      SizeAfterUpdate(m, Entry(key, value, timestamp, false));
      if key in m {
        size := size - (|key| + |m[key].value| + 16);
      } else {
        dirty := true;
      }
      m := m[key := Entry(key, value, timestamp, false)];
      size := size + newSize;
    }

    method Delete(key: Str, timestamp: int)
      requires Valid()
      modifies this
      ensures Valid() && m == old(m)[key := Entry(key, [], timestamp, true)]
    {
      SizeAfterUpdate(m, Entry(key, [], timestamp, true));
      if key in m {
        size := size - (|key| + |m[key].value| + 16);
      } else {
        dirty := true;
      }
      m := m[key := Entry(key, [], timestamp, true)];
      size := size + |key| + 16;
    }

    method Get(key: Str) returns (r: Option<Entry>)
      requires Valid()
      ensures r == if key in m then Some(m[key]) else None
    {
      r := if key in m then Some(m[key]) else None;
    }

    /** Entries: every entry once, in key order; the cached keys are rebuilt only when a key was
        added since. */
    method Entries() returns (es: seq<Entry>)
      requires Valid()
      modifies this
      ensures Valid() && m == old(m) && size == old(size)
      ensures DistinctKeys(m.Values) && es == SortedEntries(m.Values)
    {
      if dirty || keys.None? {
        var ks := CollectKeys();
        var sorted := SortStrings(ks);
        keys := Some(sorted);
        dirty := false;
      }
      es := [];
      for i := 0 to |keys.value|
        invariant Valid() && unchanged(this`m) && unchanged(this`size)
        invariant keys.Some? && !dirty && |es| == i <= |keys.value|
        invariant forall j :: 0 <= j < i ==> keys.value[j] in m && es[j] == m[keys.value[j]]
      {
        es := es + [m[keys.value[i]]];
      }
      ListsAll(es, keys.value);
      ValuesDistinct(m);
      SortedUnique(es, SortedEntries(m.Values));
    }

    lemma ListsAll(es: seq<Entry>, ks: seq<Str>)
      requires KeyedByKey(m) && SortedKeys(ks) && |es| == |ks|
      requires forall k :: k in ks <==> k in m
      requires forall j :: 0 <= j < |ks| ==> ks[j] in m && es[j] == m[ks[j]]
      ensures Sorted(es) && Elems(es) == m.Values
    {
      forall f | f in m.Values ensures f in es {
        var k :| k in m && m[k] == f;
        assert k in ks;
        var j :| 0 <= j < |ks| && ks[j] == k;
        assert es[j] == f;
      }
    }

    /** The range loop over the map, in whatever order it comes. */
    method CollectKeys() returns (ks: seq<Str>)
      ensures forall i, j :: 0 <= i < j < |ks| ==> ks[i] != ks[j]
      ensures forall k :: k in ks <==> k in m
    {
      ks := [];
      var rest := m.Keys;
      while rest != {}
        invariant rest <= m.Keys
        invariant forall k :: k in ks <==> k in m && k !in rest
        invariant forall i, j :: 0 <= i < j < |ks| ==> ks[i] != ks[j]
        decreases |rest|
      {
        var k :| k in rest;
        assert k !in ks;
        assert |rest - {k}| < |rest|;
        ks := ks + [k];
        rest := rest - {k};
      }
    }

    method Size() returns (n: int)
      requires Valid()
      ensures n == TotalCost(m.Values)
    {
      n := size;
    }

    method Count() returns (n: nat)
      ensures n == |m|
    {
      n := |m|;
    }
  }
}
