/** The heap of the k-way merge: container/heap over the heads of the input iterators, smallest key
    first and, for one key, newest first. */
module MergeHeap {
  import opened Bytes
  import opened Entries

  /** The head of an input and the number of that input. */
  datatype Item = Item(entry: Entry, src: nat)

  /** Less on entries. */
  predicate Ahead(a: Entry, b: Entry) {
    if a.key != b.key then Less(a.key, b.key) else a.ts > b.ts
  }

  lemma AheadNot(a: Entry, b: Entry)
    requires Ahead(a, b)
    ensures !Ahead(b, a)
  {
    if a.key != b.key {
      LessAsymmetric(a.key, b.key);
    }
  }

  lemma NotAheadTransitive(a: Entry, b: Entry, c: Entry)
    requires !Ahead(b, a) && !Ahead(c, b)
    ensures !Ahead(c, a)
  {
    LessTotal(a.key, b.key);
    LessTotal(b.key, c.key);
    if a.key != b.key && b.key != c.key {
      LessTransitive(a.key, b.key, c.key);
      LessAsymmetric(a.key, c.key);
    } else if a.key != c.key {
      LessAsymmetric(a.key, c.key);
    }
  }

  function Parent(j: nat): nat
    requires j > 0
  {
    (j - 1) / 2
  }

  ghost predicate Ordered(h: seq<Item>, p: nat, j: nat)
    requires p < |h| && j < |h|
  {
    !Ahead(h[j].entry, h[p].entry)
  }

  /** The heap property of the first `n` items, for parents from `lo` on. */
  ghost predicate HeapFrom(h: seq<Item>, n: nat, lo: nat)
    requires n <= |h|
  {
    forall j: nat :: 0 < j < n && Parent(j) >= lo ==> Ordered(h, Parent(j), j)
  }

  ghost predicate IsHeap(h: seq<Item>) {
    HeapFrom(h, |h|, 0)
  }

  lemma {:induction false} RootIsFirst(h: seq<Item>, j: nat)
    requires IsHeap(h) && j < |h|
    ensures !Ahead(h[j].entry, h[0].entry)
    decreases j
  {
    if j == 0 {
      if Ahead(h[0].entry, h[0].entry) {
        AheadNot(h[0].entry, h[0].entry);
      }
    } else {
      assert Ordered(h, Parent(j), j);
      RootIsFirst(h, Parent(j));
      NotAheadTransitive(h[0].entry, h[Parent(j)].entry, h[j].entry);
    }
  }

  function Swapped(h: seq<Item>, i: nat, j: nat): (r: seq<Item>)
    requires i < |h| && j < |h|
    ensures |r| == |h|
    ensures multiset(r) == multiset(h)
  {
    h[i := h[j]][j := h[i]]
  }

  /** A heap but for the item at `i`, whose children may be ahead of it; they are behind its parent. */
  ghost predicate Sinking(h: seq<Item>, n: nat, lo: nat, i: nat)
    requires n <= |h|
  {
    && (forall j: nat :: 0 < j < n && Parent(j) >= lo && Parent(j) != i ==> Ordered(h, Parent(j), j))
    && (forall j: nat :: 0 < i < n && 0 < j < n && Parent(j) == i && Parent(i) >= lo ==> Ordered(h, Parent(i), j))
  }

  lemma SinkStep(h: seq<Item>, n: nat, lo: nat, i: nat, c: nat)
    requires n <= |h| && lo <= i < n && 0 < c < n && Parent(c) == i
    requires Sinking(h, n, lo, i)
    requires Ahead(h[c].entry, h[i].entry) && SmallestChild(h, n, i, c)
    ensures Sinking(Swapped(h, i, c), n, lo, c) && Swapped(h, i, c)[n..] == h[n..]
  {
    var g := Swapped(h, i, c);
    assert forall j: nat :: 0 < j < n && Parent(j) == i ==> j == 2 * i + 1 || j == 2 * i + 2;
    AheadNot(h[c].entry, h[i].entry);
    forall j: nat | 0 < j < n && Parent(j) >= lo && Parent(j) != c ensures Ordered(g, Parent(j), j) {
      if Parent(j) == i {
      } else if j == i {
        assert Ordered(h, Parent(i), c);
      } else {
        assert Ordered(h, Parent(j), j);
      }
    }
    forall j: nat | 0 < j < n && Parent(j) == c ensures Ordered(g, i, j) {
      assert Ordered(h, c, j);
    }
  }

  lemma SinkStart(h: seq<Item>, n: nat, lo: nat)
    requires n <= |h| && HeapFrom(h, n, lo + 1)
    ensures Sinking(h, n, lo, lo)
  {
  }

  /** No child of the item is ahead of it. */
  ghost predicate Rests(h: seq<Item>, n: nat, i: nat)
    requires i < n <= |h|
  {
    forall k: nat :: 0 < k < n && Parent(k) == i ==> Ordered(h, i, k)
  }

  lemma SinkDone(h: seq<Item>, n: nat, lo: nat, i: nat)
    requires i < n <= |h| && Sinking(h, n, lo, i) && Rests(h, n, i)
    ensures HeapFrom(h, n, lo)
  {
  }

  lemma LeafRests(h: seq<Item>, n: nat, i: nat)
    requires i < n <= |h| && 2 * i + 1 >= n
    ensures Rests(h, n, i)
  {
  }

  /** The child down compares with. */
  ghost predicate SmallestChild(h: seq<Item>, n: nat, i: nat, j: nat) {
    && n <= |h| && 2 * i + 1 < n
    && (j == 2 * i + 1 || j == 2 * i + 2) && j < n
    && !(2 * i + 2 < n && Ahead(h[2 * i + 2].entry, h[j].entry))
    && !Ahead(h[2 * i + 1].entry, h[j].entry)
  }

  lemma ChildChosen(h: seq<Item>, n: nat, i: nat, j: nat)
    requires 2 * i + 1 < n <= |h|
    requires j == if 2 * i + 2 < n && Ahead(h[2 * i + 2].entry, h[2 * i + 1].entry) then 2 * i + 2 else 2 * i + 1
    ensures SmallestChild(h, n, i, j) && Parent(j) == i
  {
    if j == 2 * i + 2 {
      AheadNot(h[2 * i + 2].entry, h[2 * i + 1].entry);
    }
    if Ahead(h[j].entry, h[j].entry) {
      AheadNot(h[j].entry, h[j].entry);
    }
  }

  lemma NoChildAhead(h: seq<Item>, n: nat, i: nat, j: nat)
    requires SmallestChild(h, n, i, j) && !Ahead(h[j].entry, h[i].entry)
    ensures Rests(h, n, i)
  {
    forall k: nat | 0 < k < n && Parent(k) == i ensures Ordered(h, i, k) {
      assert k == 2 * i + 1 || k == 2 * i + 2;
      NotAheadTransitive(h[i].entry, h[j].entry, h[k].entry);
    }
  }

  /** A heap but for the item at `j`, which may be ahead of its parent but whose children are
      behind that parent. */
  ghost predicate Rising(h: seq<Item>, j: nat) {
    && (forall k: nat :: 0 < k < |h| && k != j ==> Ordered(h, Parent(k), k))
    && (forall k: nat :: 0 < k < |h| && 0 < j < |h| && Parent(k) == j ==> Ordered(h, Parent(j), k))
  }

  lemma RiseStep(h: seq<Item>, j: nat)
    requires 0 < j < |h| && Rising(h, j) && Ahead(h[j].entry, h[Parent(j)].entry)
    ensures Rising(Swapped(h, Parent(j), j), Parent(j))
  {
    var p := Parent(j);
    var g := Swapped(h, p, j);
    AheadNot(h[j].entry, h[p].entry);
    forall k: nat | 0 < k < |h| && k != p ensures Ordered(g, Parent(k), k) {
      if k == j {
      } else if Parent(k) == j {
        assert Ordered(h, p, k);
      } else if Parent(k) == p {
        assert Ordered(h, p, k);
        NotAheadTransitive(h[j].entry, h[p].entry, h[k].entry);
      } else {
        assert Ordered(h, Parent(k), k);
      }
    }
    forall k: nat | 0 < k < |h| && 0 < p && Parent(k) == p ensures Ordered(g, Parent(p), k) {
      assert Ordered(h, Parent(p), p);
      if k != j {
        assert Ordered(h, p, k);
        NotAheadTransitive(h[Parent(p)].entry, h[p].entry, h[k].entry);
      }
    }
  }

  class Heap {
    var items: seq<Item>

    constructor ()
      ensures items == []
    {
      items := [];
    }

    predicate Before(i: nat, j: nat)
      requires i < |items| && j < |items|
      reads this
    {
      Ahead(items[i].entry, items[j].entry)
    }

    method Swap(i: nat, j: nat)
      requires i < |items| && j < |items|
      modifies this
      ensures items == Swapped(old(items), i, j)
    {
      items := items[i := items[j]][j := items[i]];
    }

    /** heap.down. */
    method Down(i0: nat, n: nat)
      requires i0 < n <= |items| || n == 0
      requires n > 0 ==> HeapFrom(items, n, i0 + 1)
      modifies this
      ensures |items| == |old(items)| && multiset(items) == multiset(old(items))
      ensures items[n..] == old(items)[n..]
      ensures n > 0 ==> HeapFrom(items, n, i0)
    {
      hide Ahead, HeapFrom, Sinking, SmallestChild, Rests, Swapped, Parent;
      if n > 0 {
        SinkStart(items, n, i0);
      }
      var i := i0;
      while 2 * i + 1 < n
        invariant |items| == |old(items)| && multiset(items) == multiset(old(items))
        invariant items[n..] == old(items)[n..]
        invariant n > 0 ==> i0 <= i < n
        invariant n > 0 ==> Sinking(items, n, i0, i)
        decreases n - i
      {
        var j := 2 * i + 1;
        if j + 1 < n && Before(j + 1, j) {
          j := j + 1;
        }
        ChildChosen(items, n, i, j);
        if !Before(j, i) {
          NoChildAhead(items, n, i, j);
          SinkDone(items, n, i0, i);
          return;
        }
        SinkStep(items, n, i0, i, j);
        Swap(i, j);
        i := j;
      }
      if n > 0 {
        LeafRests(items, n, i);
        SinkDone(items, n, i0, i);
      }
    }

    method Init()
      modifies this
      ensures multiset(items) == multiset(old(items)) && IsHeap(items)
    {
      var i: nat := |items| / 2;
      while i > 0
        invariant i <= |items| / 2
        invariant |items| == |old(items)| && multiset(items) == multiset(old(items))
        invariant HeapFrom(items, |items|, i)
      {
        Down(i - 1, |items|);
        i := i - 1;
      }
    }

    method Push(x: Item)
      requires IsHeap(items)
      modifies this
      ensures multiset(items) == multiset(old(items)) + multiset{x} && IsHeap(items)
    {
      items := items + [x];
      var j: nat := |items| - 1;
      while j > 0 && Before(j, Parent(j))
        invariant j < |items|
        invariant multiset(items) == multiset(old(items)) + multiset{x}
        invariant Rising(items, j)
        decreases j
      {
        RiseStep(items, j);
        Swap(Parent(j), j);
        j := Parent(j);
      }
    }

    /** heap.Pop: an item no other is ahead of. */
    method Pop() returns (x: Item)
      requires IsHeap(items) && items != []
      modifies this
      ensures multiset(old(items)) == multiset(items) + multiset{x} && IsHeap(items)
      ensures forall y :: y in multiset(items) ==> !Ahead(y.entry, x.entry)
    {
      hide Ahead, HeapFrom, IsHeap, Swapped;
      ghost var was := items;
      var n := |items| - 1;
      SwappedHeap(items);
      Swap(0, n);
      ghost var swapped := items;
      Down(0, n);
      x := items[n];
      assert x == swapped[n..][0] == was[0];
      assert items == items[..n] + [x];
      HeapPrefix(items, n);
      items := items[..n];
      assert multiset(was) == multiset(items) + multiset{x};
      RootIsFirstOfAll(was, items);
    }
  }

  /** The last item put at the root leaves a heap below it. */
  lemma SwappedHeap(h: seq<Item>)
    requires IsHeap(h) && h != []
    ensures var n := |h| - 1; HeapFrom(Swapped(h, 0, n), n, 1) && Swapped(h, 0, n)[n] == h[0]
  {
    var n := |h| - 1;
    var g := Swapped(h, 0, n);
    forall j: nat | 0 < j < n && Parent(j) >= 1 ensures Ordered(g, Parent(j), j) {
      assert Ordered(h, Parent(j), j);
    }
  }

  lemma HeapPrefix(h: seq<Item>, n: nat)
    requires n <= |h| && (n > 0 ==> HeapFrom(h, n, 0))
    ensures IsHeap(h[..n])
  {
    forall j: nat | 0 < j < n ensures Ordered(h[..n], Parent(j), j) {
      assert Ordered(h, Parent(j), j);
    }
  }

  lemma RootIsFirstOfAll(h: seq<Item>, part: seq<Item>)
    requires IsHeap(h) && h != [] && multiset(h) == multiset(part) + multiset{h[0]}
    ensures forall y :: y in multiset(part) ==> !Ahead(y.entry, h[0].entry)
  {
    hide IsHeap, Ahead;
    forall y | y in multiset(part) ensures !Ahead(y.entry, h[0].entry) {
      assert y in multiset(h);
      var k :| 0 <= k < |h| && h[k] == y;
      RootIsFirst(h, k);
    }
  }
}
