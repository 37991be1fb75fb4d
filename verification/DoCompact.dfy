/** DoCompact: the merge loop over the iterators, the heap and the output writer. */
module DoCompact {
  import opened Bytes
  import opened Entries
  import opened Versions
  import opened TableFormat
  import opened TableLimits
  import opened Sstable
  import opened MergeHeap
  import opened Compaction
  import opened Chunks

  /** All versions the inputs hold. */
  ghost function AllOf(runs: seq<seq<Entry>>): set<Entry> {
    if runs == [] then {} else AllOf(runs[..|runs| - 1]) + Elems(runs[|runs| - 1])
  }

  lemma {:induction false} AllOfMembers(runs: seq<seq<Entry>>)
    ensures forall e :: e in AllOf(runs) <==> exists r :: r in runs && e in r
    decreases |runs|
  {
    if runs != [] {
      var n := |runs| - 1;
      AllOfMembers(runs[..n]);
      assert runs == runs[..n] + [runs[n]];
      forall e | e in AllOf(runs) ensures exists r :: r in runs && e in r {
        if e in runs[n] {
          assert runs[n] in runs;
        } else {
          assert e in AllOf(runs[..n]);
          var r :| r in runs[..n] && e in r;
          assert r in runs;
        }
      }
    }
  }

  // ----- the state of the merge -----

  /** `done` was taken from the inputs, the rest is still in heap and iterators, and nothing left is
      ahead of anything taken. */
  ghost predicate Progress(all: set<Entry>, done: set<Entry>, ms: multiset<Item>, rests: seq<seq<Entry>>) {
    && Heads(ms, rests)
    && all == done + Pending(ms, rests)
    && forall d :: d in done ==> NoneAheadOf(Pending(ms, rests), d)
  }

  ghost function RestsAfter(rests: seq<seq<Entry>>, x: Item): seq<seq<Entry>> {
    if x.src < |rests| && rests[x.src] != [] then rests[x.src := rests[x.src][1..]] else rests
  }

  ghost function HeadsAfter(ms: multiset<Item>, rests: seq<seq<Entry>>, x: Item): multiset<Item> {
    if x.src < |rests| && rests[x.src] != []
    then ms - multiset{x} + multiset{Item(rests[x.src][0], x.src)}
    else ms - multiset{x}
  }

  lemma ProgressStep(all: set<Entry>, done: set<Entry>, ms: multiset<Item>, rests: seq<seq<Entry>>, x: Item)
    requires Progress(all, done, ms, rests) && x in ms
    requires forall y :: y in ms ==> !Ahead(y.entry, x.entry)
    ensures Progress(all, done + {x.entry}, HeadsAfter(ms, rests, x), RestsAfter(rests, x))
    ensures forall d :: d in done ==> !Ahead(x.entry, d)
    ensures |HeadsAfter(ms, rests, x)| + Unread(RestsAfter(rests, x)) < |ms| + Unread(rests)
    ensures x.entry in all
  {
    hide Heads, Ahead, Pending, Unread, NoneAheadOf;
    HeadsInRange(ms, rests);
    FirstIsFirst(ms, rests, x);
    AfterTaking(all, done, ms, rests, x);
  }

  lemma AfterTaking(all: set<Entry>, done: set<Entry>, ms: multiset<Item>, rests: seq<seq<Entry>>, x: Item)
    requires Progress(all, done, ms, rests) && x in ms && x.src < |rests|
    requires NoneAheadOf(Pending(ms, rests), x.entry)
    ensures Progress(all, done + {x.entry}, HeadsAfter(ms, rests, x), RestsAfter(rests, x))
    ensures forall d :: d in done ==> !Ahead(x.entry, d)
    ensures |HeadsAfter(ms, rests, x)| + Unread(RestsAfter(rests, x)) < |ms| + Unread(rests)
    ensures x.entry in all
  {
    hide Heads, Ahead, Pending, Unread, NoneAheadOf;
    HeadIsPending(ms, rests, x);
    if rests[x.src] == [] {
      TakeLast(ms, rests, x);
    } else {
      TakeNext(ms, rests, x);
      UnreadAfter(rests, x.src);
    }
    OneTaken(all, done, Pending(ms, rests), Pending(HeadsAfter(ms, rests, x), RestsAfter(rests, x)), x.entry);
  }

  lemma OneTaken(all: set<Entry>, done: set<Entry>, before: set<Entry>, after: set<Entry>, e: Entry)
    requires all == done + before && before == after + {e}
    requires NoneAheadOf(before, e) && forall d :: d in done ==> NoneAheadOf(before, d)
    ensures all == done + {e} + after
    ensures forall d :: d in done + {e} ==> NoneAheadOf(after, d)
    ensures forall d :: d in done ==> !Ahead(e, d)
  {
    hide Ahead;
  }

  lemma HeadsInRange(ms: multiset<Item>, rests: seq<seq<Entry>>)
    requires Heads(ms, rests)
    ensures forall x :: x in ms ==> x.src < |rests|
  {
  }

  lemma HeadIsPending(ms: multiset<Item>, rests: seq<seq<Entry>>, x: Item)
    requires x in ms
    ensures x.entry in Pending(ms, rests)
  {
    assert x.entry in Run(x, rests);
  }

  /** One more input put behind the others. */
  lemma AddHead(ms: multiset<Item>, rests: seq<seq<Entry>>, run: seq<Entry>)
    requires Heads(ms, rests) && Sorted(run) && run != []
    ensures var x := Item(run[0], |rests|);
      Heads(ms + multiset{x}, rests + [run[1..]])
      && Pending(ms + multiset{x}, rests + [run[1..]]) == Pending(ms, rests) + Elems(run)
  {
    hide Run;
    var x := Item(run[0], |rests|);
    var ms', rests' := ms + multiset{x}, rests + [run[1..]];
    RunsBefore(ms, rests, run);
    assert forall y :: y in ms ==> y.src < |rests| && y != x;
    assert forall y :: y in ms' <==> y in ms || y == x;
    OneMoreRun(ms, ms', rests, rests', x, run);
  }

  lemma RunsBefore(ms: multiset<Item>, rests: seq<seq<Entry>>, run: seq<Entry>)
    requires Heads(ms, rests) && run != []
    ensures Run(Item(run[0], |rests|), rests + [run[1..]]) == run
    ensures forall y :: y in ms ==> Run(y, rests + [run[1..]]) == Run(y, rests)
  {
  }

  lemma OneMoreRun(ms: multiset<Item>, ms': multiset<Item>, rests: seq<seq<Entry>>, rests': seq<seq<Entry>>,
                   x: Item, run: seq<Entry>)
    requires forall y :: y in ms' <==> y in ms || y == x
    requires Run(x, rests') == run && forall y :: y in ms ==> Run(y, rests') == Run(y, rests)
    ensures Pending(ms', rests') == Pending(ms, rests) + Elems(run)
  {
    hide Run;
    assert x in ms';
  }

  /** The iterators hold what is left of the inputs. */
  ghost predicate Inputs(iters: seq<EntryIter>, rests: seq<seq<Entry>>)
    reads iters
  {
    && |iters| == |rests|
    && (forall i :: 0 <= i < |iters| ==> iters[i].Valid() && iters[i].rest == rests[i])
    && (forall i, j :: 0 <= i < j < |iters| ==> iters[i] != iters[j])
  }

  /** An input table together with the entries its data block holds. */
  ghost predicate InputOf(t: SSTable, run: seq<Entry>) {
    Holds(t, run) && Sorted(run)
  }

  /** The first loop of DoCompact and heap.Init. */
  method Start(tables: seq<SSTable>, ghost runs: seq<seq<Entry>>)
    returns (h: Heap, iters: seq<EntryIter>, ghost rests: seq<seq<Entry>>)
    requires |runs| == |tables| && forall i :: 0 <= i < |tables| ==> InputOf(tables[i], runs[i])
    ensures fresh(h) && (forall it :: it in iters ==> fresh(it))
    ensures Inputs(iters, rests) && IsHeap(h.items)
    ensures Progress(AllOf(runs), {}, multiset(h.items), rests)
  {
    hide Heads, Pending, Holds, HeapFrom, EntryIter.Valid;
    h := new Heap();
    iters, rests := [], [];
    NoHeads();
    for n := 0 to |tables|
      invariant fresh(h) && (forall it :: it in iters ==> fresh(it))
      invariant Inputs(iters, rests)
      invariant Heads(multiset(h.items), rests)
      invariant Pending(multiset(h.items), rests) == AllOf(runs[..n])
    {
      ghost var run := runs[n];
      assert runs[..n + 1][..n] == runs[..n];
      var it := new EntryIter.Start(tables[n], run);
      var entry := it.Next();
      if entry.Some? {
        AddHead(multiset(h.items), rests, run);
        h.items := h.items + [Item(entry.value, |iters|)];
        iters, rests := iters + [it], rests + [run[1..]];
      }
    }
    assert runs[..|tables|] == runs;
    h.Init();
  }

  lemma NoHeads()
    ensures Heads(multiset{}, []) && Pending(multiset{}, []) == {}
  {
  }

  /** Next on the input the item came from, and its next entry pushed. */
  method Refill(h: Heap, iters: seq<EntryIter>, x: Item, ghost rests: seq<seq<Entry>>)
    requires Inputs(iters, rests) && IsHeap(h.items) && x.src < |iters|
    modifies h, iters[x.src]
    ensures IsHeap(h.items) && Inputs(iters, RestsAfter(rests, x))
    ensures multiset(h.items) == HeadsAfter(multiset(old(h.items)) + multiset{x}, rests, x)
  {
    hide HeapFrom, EntryIter.Valid;
    var next := iters[x.src].Next();
    if next.Some? {
      h.Push(Item(next.value, x.src));
    }
  }

  /** What one iteration makes of the run merged so far. */
  ghost function EsAfter(es: seq<Entry>, e: Entry, lastKey: Str, bottom: bool): seq<Entry> {
    if e.key == lastKey || (e.tomb && bottom) then es else es + [e]
  }

  /** The loop invariant of the merge. */
  ghost predicate Merging(all: set<Entry>, done: set<Entry>, lastKey: Str, bottom: bool, es: seq<Entry>,
                          ms: multiset<Item>, rests: seq<seq<Entry>>)
  {
    Progress(all, done, ms, rests) && LastKey(done, lastKey) && Merged(done, bottom, es)
  }

  lemma MergingStep(all: set<Entry>, done: set<Entry>, lastKey: Str, bottom: bool, es: seq<Entry>,
                    ms: multiset<Item>, rests: seq<seq<Entry>>, x: Item)
    requires Merging(all, done, lastKey, bottom, es, ms, rests) && x in ms
    requires forall y :: y in ms - multiset{x} ==> !Ahead(y.entry, x.entry)
    ensures Merging(all, done + {x.entry}, x.entry.key, bottom, EsAfter(es, x.entry, lastKey, bottom),
                    HeadsAfter(ms, rests, x), RestsAfter(rests, x))
    ensures |HeadsAfter(ms, rests, x)| + Unread(RestsAfter(rests, x)) < |ms| + Unread(rests)
    ensures x.entry in all && x.src < |rests|
  {
    hide Heads, Pending, Ahead, Merged, LastKey, HeadsAfter, RestsAfter;
    NotAheadOfItself(x.entry);
    assert forall y :: y in ms ==> y == x || y in ms - multiset{x};
    ProgressStep(all, done, ms, rests, x);
    HeadsInRange(ms, rests);
    if x.entry.key == lastKey {
      SkipSameKey(done, x.entry, lastKey, bottom, es);
    } else {
      TakeNewKey(done, x.entry, lastKey, bottom, es);
    }
  }

  lemma MergingStarts(all: set<Entry>, bottom: bool, ms: multiset<Item>, rests: seq<seq<Entry>>)
    requires Progress(all, {}, ms, rests)
    ensures Merging(all, {}, [], bottom, [], ms, rests)
  {
    hide Progress;
    NothingMerged(bottom);
  }

  lemma MergingEnds(all: set<Entry>, done: set<Entry>, lastKey: Str, bottom: bool, es: seq<Entry>,
                    rests: seq<seq<Entry>>)
    requires Merging(all, done, lastKey, bottom, es, multiset{}, rests)
    ensures Merged(all, bottom, es)
  {
    hide Heads, Pending, Merged, LastKey, NoneAheadOf;
    NothingPending(rests);
    assert all == done;
  }

  lemma SplitRunStep(es: seq<Entry>, e: Entry)
    ensures SplitRun(es + [e]) == Emitted(SplitRun(es), e)
  {
    hide Emitted;
    assert (es + [e])[..|es|] == es;
  }

  ghost predicate Owns(owned: set<object>, iters: seq<EntryIter>) {
    forall i :: 0 <= i < |iters| ==> iters[i] in owned
  }

  lemma OwnsAll(iters: seq<EntryIter>)
    ensures Owns((set it | it in iters), iters)
  {
  }

  /** Takes the first entry of the heap and refills the heap from its input. */
  method Take(h: Heap, iters: seq<EntryIter>, ghost rests: seq<seq<Entry>>, ghost all: set<Entry>,
              ghost done: set<Entry>, lastKey: Str, bottom: bool, ghost es: seq<Entry>, ghost owned: set<object>)
    returns (e: Entry, ghost rests': seq<seq<Entry>>)
    requires IsHeap(h.items) && h.items != [] && Inputs(iters, rests) && Owns(owned, iters)
    requires Merging(all, done, lastKey, bottom, es, multiset(h.items), rests)
    modifies h, owned
    ensures IsHeap(h.items) && Inputs(iters, rests')
    ensures Merging(all, done + {e}, e.key, bottom, EsAfter(es, e, lastKey, bottom), multiset(h.items), rests')
    ensures |multiset(h.items)| + Unread(rests') < old(|multiset(h.items)|) + Unread(rests)
    ensures e in all
  {
    hide Merging, Ahead, HeapFrom, Inputs, HeadsAfter, RestsAfter, EsAfter, Unread;
    ghost var ms := multiset(h.items);
    var he := h.Pop();
    assert multiset(h.items) == ms - multiset{he};
    assert multiset(h.items) + multiset{he} == ms;
    MergingStep(all, done, lastKey, bottom, es, ms, rests, he);
    SameCount(iters, rests);
    Refill(h, iters, he, rests);
    e, rests' := he.entry, RestsAfter(rests, he);
  }

  lemma {:induction false} FirstItem(ms: multiset<Item>) returns (x: Item)
    requires ms != multiset{}
    ensures x in ms && forall y :: y in ms ==> !Ahead(y.entry, x.entry)
    decreases |ms|
  {
    var z :| z in ms;
    NotAheadOfItself(z.entry);
    x := z;
    var rest := ms - multiset{z};
    if rest != multiset{} {
      var y := FirstItem(rest);
      if Ahead(y.entry, z.entry) {
        x := y;
        AheadNot(y.entry, z.entry);
      } else {
        forall w | w in rest ensures !Ahead(w.entry, z.entry) {
          NotAheadTransitive(z.entry, y.entry, w.entry);
        }
      }
    }
    assert forall w :: w in ms ==> w == z || w in rest;
  }

  /** A merge begun can be completed: some full merge starts with what was merged so far. */
  lemma {:induction false} Completes(all: set<Entry>, done: set<Entry>, lastKey: Str, bottom: bool, es: seq<Entry>,
                                     ms: multiset<Item>, rests: seq<seq<Entry>>) returns (more: seq<Entry>)
    requires Merging(all, done, lastKey, bottom, es, ms, rests)
    ensures Merged(all, bottom, es + more)
    decreases |ms| + Unread(rests)
  {
    hide Merging, Ahead, Merged, HeadsAfter, RestsAfter, Unread;
    if ms == multiset{} {
      MergingEnds(all, done, lastKey, bottom, es, rests);
      assert es + [] == es;
      more := [];
    } else {
      var x := FirstItem(ms);
      assert forall y :: y in ms - multiset{x} ==> y in ms;
      MergingStep(all, done, lastKey, bottom, es, ms, rests, x);
      var es' := EsAfter(es, x.entry, lastKey, bottom);
      var m := Completes(all, done + {x.entry}, x.entry.key, bottom, es', HeadsAfter(ms, rests, x),
                         RestsAfter(rests, x));
      more := if es' == es then m else [x.entry] + m;
      assert es + more == es' + m;
    }
  }

  /** The files are those of one merge of the versions, split where the target size asks for it and nowhere else;
      there are none if one cannot be closed. */
  ghost predicate MergeOf(files: Option<seq<File>>, all: set<Entry>, level: nat, id: nat) {
    exists es, chunks ::
      Merged(all, level >= BOTTOM_LEVEL, es) && Packed(chunks, es) && files == FilesOf(chunks, level, id)
  }

  lemma EmittedIs(closed: seq<seq<Entry>>, open: seq<Entry>, e: Entry)
    ensures var full := open != [] && ChunkSize(open) + Cost(e) > TARGET_SIZE;
      Emitted(Split(closed, open), e)
      == if full then Split(closed + [open], [e]) else Split(closed, open + [e])
  {
    hide ChunkSize, Cost;
  }

  /** What an iteration does with the entry taken: an entry of the last key and a deletion at the bottom are
      dropped, any other is written. */
  method Keep(out: Output, e: Entry, lastKey: Str, isBottomLevel: bool, ghost es: seq<Entry>)
    returns (panicked: bool, ghost es': seq<Entry>)
    requires out.Valid() && Split(out.closed, out.open) == SplitRun(es)
    modifies out.Repr()
    ensures es' == EsAfter(es, e, lastKey, isBottomLevel)
    ensures panicked ==> FilesOf(SplitRun(es').closed, out.level, out.id).None?
    ensures !panicked ==> out.Valid() && fresh(out.Repr() - old(out.Repr()))
    ensures !panicked ==> Split(out.closed, out.open) == SplitRun(es')
  {
    hide Output.Valid, FilesOf, Emitted, SplitRun, ChunkSize, Cost;
    panicked, es' := false, es;
    if e.key == lastKey {
      return;
    }
    if e.tomb && isBottomLevel {
      return;
    }
    SplitRunStep(es, e);
    es' := es + [e];
    EmittedIs(out.closed, out.open, e);
    panicked := out.Emit(e);
  }

  /** The last chunk closed, and all files. */
  method Finish(out: Output, ghost es: seq<Entry>) returns (files: Option<seq<File>>)
    requires out.Valid() && Split(out.closed, out.open) == SplitRun(es)
    modifies out.Repr()
    ensures files == FilesOf(ChunksOf(es), out.level, out.id)
  {
    hide Output.Valid, FilesOf, SplitRun, ChunksOf, Finished;
    SplitIsChunks(es);
    var panicked := out.FlushChunk();
    if panicked {
      return None;
    }
    var fs := out.Files();
    files := Some(fs);
  }

  /** One iteration of DoCompact's loop. */
  method Iterate(h: Heap, iters: seq<EntryIter>, out: Output, lastKey: Str, isBottomLevel: bool,
                 ghost rests: seq<seq<Entry>>, ghost all: set<Entry>, ghost done: set<Entry>, ghost es: seq<Entry>,
                 ghost owned: set<object>)
    returns (e: Entry, panicked: bool, ghost rests': seq<seq<Entry>>, ghost es': seq<Entry>)
    requires IsHeap(h.items) && h.items != [] && Inputs(iters, rests) && Owns(owned, iters)
    requires Merging(all, done, lastKey, isBottomLevel, es, multiset(h.items), rests)
    requires out.Valid() && Split(out.closed, out.open) == SplitRun(es) && h !in out.Repr() && owned !! out.Repr()
    modifies h, owned, out.Repr()
    ensures Merging(all, done + {e}, e.key, isBottomLevel, es', multiset(h.items), rests')
    ensures |multiset(h.items)| + Unread(rests') < old(|multiset(h.items)|) + Unread(rests)
    ensures panicked ==> FilesOf(SplitRun(es').closed, out.level, out.id).None?
    ensures !panicked ==> IsHeap(h.items) && Inputs(iters, rests')
    ensures !panicked ==> out.Valid() && Split(out.closed, out.open) == SplitRun(es')
    ensures !panicked ==> fresh(out.Repr() - old(out.Repr())) && h !in out.Repr() && owned !! out.Repr()
  {
    hide Merging, FilesOf, Inputs, SplitRun, EsAfter, Output.Valid, Unread, Owns, IsHeap;
    e, rests' := Take(h, iters, rests, all, done, lastKey, isBottomLevel, es, owned);
    panicked, es' := Keep(out, e, lastKey, isBottomLevel, es);
  }

  /** DoCompact's loop: it takes everything the inputs hold, or stops where a chunk cannot be closed. */
  method MergeAll(h: Heap, iters: seq<EntryIter>, out: Output, ghost rests: seq<seq<Entry>>, ghost all: set<Entry>,
                  isBottomLevel: bool, ghost owned: set<object>)
    returns (panicked: bool, ghost es: seq<Entry>)
    requires IsHeap(h.items) && Inputs(iters, rests) && Owns(owned, iters)
    requires Merging(all, {}, [], isBottomLevel, [], multiset(h.items), rests)
    requires out.Valid() && Split(out.closed, out.open) == SplitRun([])
    requires h !in out.Repr() && owned !! out.Repr()
    modifies h, owned, out.Repr()
    ensures panicked ==> exists more :: Merged(all, isBottomLevel, es + more)
    ensures panicked ==> FilesOf(SplitRun(es).closed, out.level, out.id).None?
    ensures !panicked ==> Merged(all, isBottomLevel, es)
    ensures !panicked ==> out.Valid() && Split(out.closed, out.open) == SplitRun(es)
    ensures !panicked ==> fresh(out.Repr() - old(out.Repr()))
  {
    hide Merging, Merged, FilesOf, Inputs, SplitRun, Output.Valid, Unread, Owns, IsHeap;
    var lastKey: Str := [];
    ghost var done: set<Entry> := {};
    ghost var rs := rests;
    es, panicked := [], false;
    while |h.items| > 0
      invariant fresh(out.Repr() - old(out.Repr())) && h !in out.Repr() && owned !! out.Repr()
      invariant IsHeap(h.items) && Inputs(iters, rs)
      invariant Merging(all, done, lastKey, isBottomLevel, es, multiset(h.items), rs)
      invariant out.Valid() && Split(out.closed, out.open) == SplitRun(es) && !panicked
      decreases |multiset(h.items)| + Unread(rs)
    {
      var e;
      e, panicked, rs, es := Iterate(h, iters, out, lastKey, isBottomLevel, rs, all, done, es, owned);
      done := done + {e};
      lastKey := e.key;
      if panicked {
        ghost var more := Completes(all, done, lastKey, isBottomLevel, es, multiset(h.items), rs);
        return;
      }
    }
    assert multiset(h.items) == multiset{};
    MergingEnds(all, done, lastKey, isBottomLevel, es, rs);
  }

  /** DoCompact: the files are the chunks of one merge of everything the inputs hold. */
  method DoCompact(tables: seq<SSTable>, ghost runs: seq<seq<Entry>>, level: nat, id: nat)
    returns (files: Option<seq<File>>)
    requires |runs| == |tables| && forall i :: 0 <= i < |tables| ==> InputOf(tables[i], runs[i])
    ensures MergeOf(files, AllOf(runs), level, id)
  {
    hide Merging, Merged, InputOf, FilesOf, Inputs, SplitRun, Output.Valid, Progress, AllOf, ChunksOf, Owns, MergeOf;
    hide IsHeap;
    ghost var all := AllOf(runs);
    var h, iters;
    ghost var rests;
    h, iters, rests := Start(tables, runs);
    ghost var owned: set<object> := set it | it in iters;
    OwnsAll(iters);
    MergingStarts(all, level >= BOTTOM_LEVEL, multiset(h.items), rests);
    SplitRunOfNothing();
    var out := new Output(level, id);
    var panicked;
    ghost var es;
    panicked, es := MergeAll(h, iters, out, rests, all, level >= BOTTOM_LEVEL, owned);
    if panicked {
      NeverMerged(all, es, level, id);
      return None;
    }
    files := Finish(out, es);
    MergeIs(files, all, level, id, es);
  }

  /** A chunk that cannot be closed means that the whole merge cannot be written. */
  lemma NeverMerged(all: set<Entry>, es: seq<Entry>, level: nat, id: nat)
    requires exists more :: Merged(all, level >= BOTTOM_LEVEL, es + more)
    requires FilesOf(SplitRun(es).closed, level, id).None?
    ensures MergeOf(None, all, level, id)
  {
    hide FilesOf, ChunksOf, SplitRun, Merged, Packed;
    var more :| Merged(all, level >= BOTTOM_LEVEL, es + more);
    NoFilesLater(es, more, level, id);
    ChunksPacked(es + more);
  }

  lemma MergeIs(files: Option<seq<File>>, all: set<Entry>, level: nat, id: nat, es: seq<Entry>)
    requires Merged(all, level >= BOTTOM_LEVEL, es) && files == FilesOf(ChunksOf(es), level, id)
    ensures MergeOf(files, all, level, id)
  {
    hide Merged, FilesOf, ChunksOf, Packed;
    ChunksPacked(es);
  }

  lemma SplitIsChunks(es: seq<Entry>)
    ensures Finished(SplitRun(es)) == ChunksOf(es)
  {
  }

  lemma SplitRunOfNothing()
    ensures SplitRun([]) == Split([], [])
  {
  }

  lemma SameCount(iters: seq<EntryIter>, rests: seq<seq<Entry>>)
    requires Inputs(iters, rests)
    ensures |iters| == |rests|
  {
  }

  lemma NotAheadOfItself(e: Entry)
    ensures !Ahead(e, e)
  {
  }

  lemma NothingMerged(bottom: bool)
    ensures Merged({}, bottom, []) && LastKey({}, [])
  {
  }

  lemma NothingPending(rests: seq<seq<Entry>>)
    ensures Pending(multiset{}, rests) == {}
  {
  }
}
