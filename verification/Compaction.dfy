/** Compaction: the k-way merge of sorted tables into chunks, keeping the newest version of each key
    and, into the bottom level, no tombstone. */
module Compaction {
  import opened Bytes
  import opened Entries
  import opened Versions
  import opened TableLookup
  import opened MergeHeap

  const BOTTOM_LEVEL: nat := 6
  const LEVEL_MULTIPLIER: nat := 10

  function Power(b: nat, n: nat): nat {
    if n == 0 then 1 else b * Power(b, n - 1)
  }

  /** LevelSize. */
  function LevelSize(baseSize: nat, level: nat): nat {
    baseSize * Power(LEVEL_MULTIPLIER, level)
  }

  // ----- what merging means -----

  /** `es` is a merge of the versions `v`: in key order, for each non-empty key its newest version,
      unless that is a tombstone that the bottom level drops. Among versions of one key with one
      timestamp any may be taken. */
  ghost predicate Merged(v: set<Entry>, bottom: bool, es: seq<Entry>) {
    && Sorted(es)
    && (forall e :: e in es ==> IsNewest(v, e.key, e) && e.key != [] && !(bottom && e.tomb))
    && (forall f :: f in v && f.key != [] ==> Represented(es, f.key) || (bottom && Buried(v, f.key)))
  }

  ghost predicate Represented(es: seq<Entry>, k: Str) {
    exists e :: e in es && e.key == k
  }

  ghost predicate Buried(v: set<Entry>, k: Str) {
    exists t :: IsNewest(v, k, t) && t.tomb
  }

  lemma NewestIsMerged(v: set<Entry>, bottom: bool, es: seq<Entry>, f: Entry)
    requires NoTies(v) && Merged(v, bottom, es) && f in Survivors(v, bottom)
    ensures f in es
  {
    hide Sorted;
    assert forall t :: IsNewest(v, f.key, t) ==> t.ts == f.ts && t == f;
    assert !(bottom && Buried(v, f.key));
  }

  /** Without ties a merge is one run: the survivors in key order. */
  lemma MergedIsSurvivors(v: set<Entry>, bottom: bool, es: seq<Entry>)
    requires NoTies(v) && Merged(v, bottom, es)
    ensures es == SortedEntries(Survivors(v, bottom))
  {
    var s := Survivors(v, bottom);
    forall f | f in s ensures f in es {
      NewestIsMerged(v, bottom, es, f);
    }
    assert Elems(es) == s;
    SortedUnique(es, SortedEntries(s));
  }

  // ----- one step of the merge -----

  /** The key of the last version taken: the greatest so far, the empty string before the first. */
  ghost predicate LastKey(done: set<Entry>, lastKey: Str) {
    && (forall d :: d in done ==> AtMost(d.key, lastKey))
    && (lastKey == [] || exists d :: d in done && d.key == lastKey)
  }

  ghost predicate NoneAheadOf(pending: set<Entry>, d: Entry) {
    forall p :: p in pending ==> !Ahead(p, d)
  }

  lemma NextKeyIsGreater(done: set<Entry>, lastKey: Str, e: Entry)
    requires LastKey(done, lastKey) && e.key != lastKey
    requires forall d :: d in done ==> !Ahead(e, d)
    ensures Less(lastKey, e.key) && e.key != []
    ensures forall d :: d in done ==> Less(d.key, e.key) && d.key != e.key
  {
    LessTotal(lastKey, e.key);
    if lastKey != [] {
      var d :| d in done && d.key == lastKey;
      assert !Ahead(e, d);
    }
    forall d | d in done ensures Less(d.key, e.key) && d.key != e.key {
      if d.key != lastKey {
        LessTransitive(d.key, lastKey, e.key);
      }
      LessAsymmetric(d.key, e.key);
    }
  }

  lemma NewestOfOthers(v: set<Entry>, e: Entry, k: Str, x: Entry)
    requires k != e.key || exists d :: d in v && d.key == k && e.ts <= d.ts
    ensures IsNewest(v, k, x) ==> IsNewest(v + {e}, k, x)
  {
  }

  /** A version of the key just taken, or of the empty key, changes nothing. */
  lemma SkipSameKey(done: set<Entry>, e: Entry, lastKey: Str, bottom: bool, es: seq<Entry>)
    requires Merged(done, bottom, es) && LastKey(done, lastKey) && e.key == lastKey
    requires forall d :: d in done ==> !Ahead(e, d)
    ensures Merged(done + {e}, bottom, es) && LastKey(done + {e}, lastKey)
  {
    var v := done + {e};
    forall x | x in es ensures IsNewest(v, x.key, x) {
      NewestOfOthers(done, e, x.key, x);
    }
    forall f | f in v && f.key != [] ensures Represented(es, f.key) || (bottom && Buried(v, f.key)) {
      var d :| d in done && d.key == f.key;
      if !Represented(es, f.key) {
        var t :| IsNewest(done, f.key, t) && t.tomb;
        NewestOfOthers(done, e, f.key, t);
        assert IsNewest(v, f.key, t);
      }
    }
  }

  lemma TakeNewKey(done: set<Entry>, e: Entry, lastKey: Str, bottom: bool, es: seq<Entry>)
    requires Merged(done, bottom, es) && LastKey(done, lastKey) && e.key != lastKey
    requires forall d :: d in done ==> !Ahead(e, d)
    ensures LastKey(done + {e}, e.key)
    ensures Merged(done + {e}, bottom, if bottom && e.tomb then es else es + [e])
  {
    NextKeyIsGreater(done, lastKey, e);
    var v := done + {e};
    var es' := if bottom && e.tomb then es else es + [e];
    assert IsNewest(v, e.key, e);
    forall x | x in es ensures IsNewest(v, x.key, x) && Less(x.key, e.key) {
      NewestOfOthers(done, e, x.key, x);
    }
    SortedSnoc(es, e);
    forall f | f in v && f.key != [] ensures Represented(es', f.key) || (bottom && Buried(v, f.key)) {
      if f.key == e.key {
        if !(bottom && e.tomb) {
          assert e in es';
        }
      } else {
        assert f in done;
        if Represented(es, f.key) {
          var x :| x in es && x.key == f.key;
          assert x in es';
        } else {
          var t :| IsNewest(done, f.key, t) && t.tomb;
          NewestOfOthers(done, e, f.key, t);
          assert IsNewest(v, f.key, t);
        }
      }
    }
  }

  // ----- the inputs -----

  /** What an input still has to give: its head in the heap, then what its iterator has left. */
  function Run(x: Item, rests: seq<seq<Entry>>): seq<Entry> {
    [x.entry] + (if x.src < |rests| then rests[x.src] else [])
  }

  ghost function Pending(ms: multiset<Item>, rests: seq<seq<Entry>>): (s: set<Entry>)
    ensures forall x, e :: x in ms && e in Run(x, rests) ==> e in s
    ensures forall e :: e in s ==> exists x :: x in ms && e in Run(x, rests)
  {
    set x, e | x in ms && e in Run(x, rests) :: e
  }

  /** One head per input, in front of a sorted run. */
  ghost predicate Heads(ms: multiset<Item>, rests: seq<seq<Entry>>) {
    && (forall x :: x in ms ==> x.src < |rests| && Sorted(Run(x, rests)) && ms[x] == 1)
    && (forall x, y :: x in ms && y in ms && x.src == y.src ==> x == y)
  }

  lemma FirstIsFirst(ms: multiset<Item>, rests: seq<seq<Entry>>, x: Item)
    requires Heads(ms, rests) && x in ms
    requires forall y :: y in ms ==> !Ahead(y.entry, x.entry)
    ensures NoneAheadOf(Pending(ms, rests), x.entry)
  {
    forall p | p in Pending(ms, rests) ensures !Ahead(p, x.entry) {
      var y :| y in ms && p in Run(y, rests);
      var r := Run(y, rests);
      var i :| 0 <= i < |r| && r[i] == p;
      if i > 0 {
        assert Less(r[0].key, r[i].key);
        LessAsymmetric(r[0].key, r[i].key);
        assert !Ahead(p, r[0]);
        NotAheadTransitive(x.entry, y.entry, p);
      }
    }
  }

  /** Taking the head of an exhausted input. */
  lemma TakeLast(ms: multiset<Item>, rests: seq<seq<Entry>>, x: Item)
    requires Heads(ms, rests) && x in ms && rests[x.src] == []
    ensures Heads(ms - multiset{x}, rests)
    ensures Pending(ms, rests) == Pending(ms - multiset{x}, rests) + {x.entry}
  {
    var ms' := ms - multiset{x};
    assert forall y :: y in ms <==> y in ms' || y == x;
    forall e | e in Pending(ms, rests) ensures e in Pending(ms', rests) + {x.entry} {
      var y :| y in ms && e in Run(y, rests);
    }
    assert x.entry in Run(x, rests);
  }

  /** Replacing a head by the next entry of its input. */
  ghost predicate Replaces(ms: multiset<Item>, ms': multiset<Item>, x: Item, y: Item) {
    && x in ms && y in ms' && x.src == y.src
    && (forall z :: z in ms && z.src != x.src ==> z in ms')
    && (forall z :: z in ms' ==> z == y || (z in ms && z.src != x.src))
  }

  lemma NextReplaces(ms: multiset<Item>, rests: seq<seq<Entry>>, x: Item, y: Item)
    requires Heads(ms, rests) && x in ms && x.src == y.src
    ensures var ms' := ms - multiset{x} + multiset{y};
      Replaces(ms, ms', x, y) && forall z :: z in ms' ==> ms'[z] == 1
  {
    hide Run;
    var ms0 := ms - multiset{x};
    assert forall z :: z in ms0 ==> z in ms && z.src != x.src && ms0[z] == 1;
  }

  /** Taking a head and putting the next entry of its input in its place. */
  lemma TakeNext(ms: multiset<Item>, rests: seq<seq<Entry>>, x: Item)
    requires Heads(ms, rests) && x in ms && rests[x.src] != []
    ensures var y := Item(rests[x.src][0], x.src);
      var rests' := rests[x.src := rests[x.src][1..]];
      Heads(ms - multiset{x} + multiset{y}, rests')
      && Pending(ms, rests) == Pending(ms - multiset{x} + multiset{y}, rests') + {x.entry}
  {
    var y := Item(rests[x.src][0], x.src);
    var rests' := rests[x.src := rests[x.src][1..]];
    NextReplaces(ms, rests, x, y);
    var ms' := ms - multiset{x} + multiset{y};
    RunShrinks(rests, x);
    ReplacedHeads(ms, ms', rests, rests', x, y);
    ReplacedPending(ms, ms', rests, rests', x, y);
  }

  lemma RunShrinks(rests: seq<seq<Entry>>, x: Item)
    requires x.src < |rests| && rests[x.src] != []
    ensures Run(x, rests) == [x.entry] + Run(Item(rests[x.src][0], x.src), rests[x.src := rests[x.src][1..]])
  {
  }

  lemma ReplacedHeads(ms: multiset<Item>, ms': multiset<Item>, rests: seq<seq<Entry>>, rests': seq<seq<Entry>>,
                      x: Item, y: Item)
    requires Heads(ms, rests) && Replaces(ms, ms', x, y) && forall z :: z in ms' ==> ms'[z] == 1
    requires |rests'| == |rests| && forall i :: 0 <= i < |rests| && i != x.src ==> rests'[i] == rests[i]
    requires Run(x, rests) == [x.entry] + Run(y, rests')
    ensures Heads(ms', rests')
  {
    forall z | z in ms' ensures Sorted(Run(z, rests')) {
      if z == y {
        assert Run(y, rests') == Run(x, rests)[1..];
      } else {
        assert Run(z, rests') == Run(z, rests);
      }
    }
  }

  lemma ReplacedPending(ms: multiset<Item>, ms': multiset<Item>, rests: seq<seq<Entry>>, rests': seq<seq<Entry>>,
                        x: Item, y: Item)
    requires Heads(ms, rests) && Replaces(ms, ms', x, y)
    requires |rests'| == |rests| && forall i :: 0 <= i < |rests| && i != x.src ==> rests'[i] == rests[i]
    requires Run(x, rests) == [x.entry] + Run(y, rests')
    ensures Pending(ms, rests) == Pending(ms', rests') + {x.entry}
  {
    forall e | e in Pending(ms, rests) ensures e in Pending(ms', rests') + {x.entry} {
      var z :| z in ms && e in Run(z, rests);
      if z.src != x.src {
        assert Run(z, rests') == Run(z, rests);
        assert z in ms' && e in Run(z, rests');
      } else {
        assert e == x.entry || e in Run(y, rests');
      }
    }
    forall e | e in Pending(ms', rests') ensures e in Pending(ms, rests) {
      var z :| z in ms' && e in Run(z, rests');
      if z == y {
        assert e in Run(x, rests);
      } else {
        assert Run(z, rests') == Run(z, rests);
      }
    }
    assert x.entry in Run(x, rests);
  }

  /** The entries not yet taken from the iterators. */
  ghost function Unread(rests: seq<seq<Entry>>): nat {
    if rests == [] then 0 else |rests[|rests| - 1]| + Unread(rests[..|rests| - 1])
  }

  lemma {:induction false} UnreadAfter(rests: seq<seq<Entry>>, i: nat)
    requires i < |rests| && rests[i] != []
    ensures Unread(rests[i := rests[i][1..]]) == Unread(rests) - 1
    decreases |rests|
  {
    var n := |rests| - 1;
    var rests' := rests[i := rests[i][1..]];
    if i < n {
      UnreadAfter(rests[..n], i);
      assert rests'[..n] == rests[..n][i := rests[i][1..]];
    } else {
      assert rests'[..n] == rests[..n];
    }
  }
}
