/** Splitting a merged run into output files of at most the target size. */
module Chunks {
  import opened Bytes
  import opened Entries
  import opened Versions
  import opened TableFormat
  import opened TableLookup
  import opened Sstable
  import opened TableLimits

  /** The chunks already closed and the one being filled. */
  datatype Split = Split(closed: seq<seq<Entry>>, open: seq<Entry>)

  function Emitted(s: Split, e: Entry): Split {
    if s.open != [] && ChunkSize(s.open) + Cost(e) > TARGET_SIZE
    then Split(s.closed + [s.open], [e])
    else Split(s.closed, s.open + [e])
  }

  function SplitRun(es: seq<Entry>): Split {
    if es == [] then Split([], []) else Emitted(SplitRun(es[..|es| - 1]), es[|es| - 1])
  }

  function Finished(s: Split): seq<seq<Entry>> {
    if s.open == [] then s.closed else s.closed + [s.open]
  }

  /** The chunks a run is split into. */
  function ChunksOf(es: seq<Entry>): seq<seq<Entry>> {
    Finished(SplitRun(es))
  }

  function Joined(chunks: seq<seq<Entry>>): seq<Entry> {
    if chunks == [] then [] else Joined(chunks[..|chunks| - 1]) + chunks[|chunks| - 1]
  }

  ghost predicate AllBounded(es: seq<Entry>) {
    forall e :: e in es ==> Bounded(e)
  }

  lemma ChunkSizeOne(es: seq<Entry>, e: Entry)
    ensures ChunkSize(es + [e]) == ChunkSize(es) + Cost(e)
    ensures ChunkSize([]) == 0
  {
    assert (es + [e])[..|es|] == es;
  }

  lemma EmittedJoins(s: Split, e: Entry)
    ensures Joined(Emitted(s, e).closed) + Emitted(s, e).open == Joined(s.closed) + s.open + [e]
    ensures forall c :: c in Emitted(s, e).closed ==> c in s.closed || (c == s.open && c != [])
    ensures Emitted(s, e).open != []
  {
    hide ChunkSize, Cost;
    assert (s.closed + [s.open])[..|s.closed|] == s.closed;
    assert Joined(s.closed + [s.open]) == Joined(s.closed) + s.open;
  }

  lemma {:induction false} SplitRunJoins(es: seq<Entry>)
    ensures Joined(SplitRun(es).closed) + SplitRun(es).open == es
    ensures forall c :: c in SplitRun(es).closed ==> c != []
    ensures es != [] ==> SplitRun(es).open != []
    decreases |es|
  {
    hide Emitted;
    if es != [] {
      var n := |es| - 1;
      SplitRunJoins(es[..n]);
      EmittedJoins(SplitRun(es[..n]), es[n]);
      assert es == es[..n] + [es[n]];
    }
  }

  /** The chunks, one behind the other, are the run; none is empty. */
  lemma ChunksJoin(es: seq<Entry>)
    ensures Joined(ChunksOf(es)) == es
    ensures forall c :: c in ChunksOf(es) ==> c != []
  {
    hide ChunkSize, Cost;
    SplitRunJoins(es);
    var s := SplitRun(es);
    if s.open != [] {
      assert (s.closed + [s.open])[..|s.closed|] == s.closed;
    } else {
      assert Joined(s.closed) + [] == Joined(s.closed);
    }
  }

  lemma {:induction false} SplitRunFits(es: seq<Entry>)
    requires AllBounded(es)
    ensures forall c :: c in Finished(SplitRun(es)) ==> ChunkSize(c) <= TARGET_SIZE && AllBounded(c)
    ensures ChunkSize(SplitRun(es).open) <= TARGET_SIZE && AllBounded(SplitRun(es).open)
    decreases |es|
  {
    hide ChunkSize;
    ChunkSizeOne([], Entry([], [], 0, false));
    if es != [] {
      var n := |es| - 1;
      SplitRunFits(es[..n]);
      ChunkSizeOne(SplitRun(es[..n]).open, es[n]);
      ChunkSizeOne([], es[n]);
      assert [] + [es[n]] == [es[n]];
      assert es[n] in es;
    }
  }

  /** No chunk of bounded entries outgrows the target size, so each fits its file's first mapping. */
  lemma ChunksFit(es: seq<Entry>)
    requires AllBounded(es)
    ensures forall c :: c in ChunksOf(es) ==>
              ChunkSize(c) <= TARGET_SIZE && AllBounded(c) && HasRoom(c, STEP, ENTRIES_PER_CHUNK)
  {
    hide ChunkSize, FileBytes, SizeAfter;
    SplitRunFits(es);
    forall c | c in ChunksOf(es) ensures HasRoom(c, STEP, ENTRIES_PER_CHUNK) {
      OutputFits(c);
    }
  }

  /** A split of the run that closes a chunk exactly when the next entry would take it past 4 MiB: the chunks
      joined are the run, none is empty, only a chunk of one entry exceeds that, and each but the last would
      with the first entry behind it. */
  ghost predicate Packed(chunks: seq<seq<Entry>>, es: seq<Entry>) {
    && Joined(chunks) == es
    && (forall c :: c in chunks ==> c != [] && (|c| == 1 || ChunkSize(c) <= 0x40_0000))
    && forall i :: 0 <= i < |chunks| - 1 ==> Full(chunks[i], chunks[i + 1])
  }

  /** The first entry of the next chunk does not fit into this one. */
  ghost predicate Full(c: seq<Entry>, next: seq<Entry>) {
    next != [] && ChunkSize(c) + Cost(next[0]) > 0x40_0000
  }

  lemma FirstPacks(e: Entry)
    ensures Packed([[e]], [e])
  {
    hide ChunkSize, Cost;
    JoinedLast([], [e]);
    assert [] + [[e]] == [[e]] && [] + [e] == [e];
    assert [[e]][0] == [e];
  }

  lemma LongerIsFull(c: seq<Entry>, next: seq<Entry>, e: Entry)
    requires Full(c, next)
    ensures Full(c, next + [e])
  {
    hide ChunkSize, Cost;
  }

  /** An entry that fits goes behind the last chunk. */
  lemma LongerPacks(chunks: seq<seq<Entry>>, c: seq<Entry>, es: seq<Entry>, e: Entry)
    requires c != [] && Packed(chunks + [c], es) && ChunkSize(c) + Cost(e) <= TARGET_SIZE
    ensures Packed(chunks + [c + [e]], es + [e])
  {
    hide ChunkSize, Cost, Joined, Full;
    var before, after := chunks + [c], chunks + [c + [e]];
    ChunkSizeOne(c, e);
    JoinedLast(chunks, c);
    JoinedLast(chunks, c + [e]);
    assert Joined(chunks) + (c + [e]) == Joined(chunks) + c + [e];
    forall i | 0 <= i < |after| - 1 ensures Full(after[i], after[i + 1]) {
      assert Full(before[i], before[i + 1]);
      assert before[i] == after[i];
      if i + 1 == |chunks| {
        LongerIsFull(after[i], c, e);
      } else {
        assert before[i + 1] == after[i + 1];
      }
    }
    forall d | d in after ensures d != [] && (|d| == 1 || ChunkSize(d) <= TARGET_SIZE) {
      if d != c + [e] {
        assert d in chunks && d in before;
      }
    }
  }

  /** An entry that does not begins a new one. */
  lemma OneMorePacks(chunks: seq<seq<Entry>>, c: seq<Entry>, es: seq<Entry>, e: Entry)
    requires Packed(chunks + [c], es) && ChunkSize(c) + Cost(e) > TARGET_SIZE
    ensures Packed(chunks + [c] + [[e]], es + [e])
  {
    hide ChunkSize, Cost, Joined;
    var before, after := chunks + [c], chunks + [c] + [[e]];
    JoinedLast(before, [e]);
    forall i | 0 <= i < |after| - 1 ensures Full(after[i], after[i + 1]) {
      if i + 1 < |before| {
        assert Full(before[i], before[i + 1]);
      }
    }
    assert forall d :: d in after ==> d == [e] || d in before;
  }

  lemma EmittedPacks(s: Split, es: seq<Entry>, e: Entry)
    requires Packed(Finished(s), es) && (s.open == [] ==> s.closed == [])
    ensures Packed(Finished(Emitted(s, e)), es + [e]) && Emitted(s, e).open != []
  {
    hide ChunkSize, Cost, Packed;
    if s.open != [] && ChunkSize(s.open) + Cost(e) > TARGET_SIZE {
      OneMorePacks(s.closed, s.open, es, e);
    } else if s.open != [] {
      LongerPacks(s.closed, s.open, es, e);
    } else {
      NonePacked([], es);
      FirstPacks(e);
      assert [] + [e] == [e] && es + [e] == [e] && [] + [[e]] == [[e]];
    }
  }

  lemma JoinedLast(closed: seq<seq<Entry>>, open: seq<Entry>)
    ensures Joined(Finished(Split(closed, open))) == Joined(closed) + open
  {
    if open == [] {
      assert Joined(closed) + [] == Joined(closed);
    } else {
      assert (closed + [open])[..|closed|] == closed;
    }
  }

  /** The chunks of a run are such a split. */
  lemma {:induction false} ChunksPacked(es: seq<Entry>)
    ensures Packed(ChunksOf(es), es) && (SplitRun(es).open == [] ==> SplitRun(es).closed == [])
    decreases |es|
  {
    hide Emitted, Finished, Packed;
    if es == [] {
      NothingPacked();
    } else {
      var n := |es| - 1;
      ChunksPacked(es[..n]);
      EmittedPacks(SplitRun(es[..n]), es[..n], es[n]);
      assert es == es[..n] + [es[n]];
    }
  }

  lemma NothingPacked()
    ensures Packed(Finished(Split([], [])), [])
  {
  }

  lemma {:induction false} JoinedFirst(chunks: seq<seq<Entry>>)
    requires chunks != []
    ensures Joined(chunks) == chunks[0] + Joined(chunks[1..])
    decreases |chunks|
  {
    var n := |chunks| - 1;
    if n == 0 {
      assert chunks[..0] == [] && chunks[1..] == [];
    } else {
      JoinedFirst(chunks[..n]);
      assert chunks[..n][1..] == chunks[1..][..n - 1];
    }
  }

  lemma {:induction false} PrefixSize(es: seq<Entry>, n: nat)
    requires n <= |es|
    ensures ChunkSize(es[..n]) <= ChunkSize(es)
    decreases |es|
  {
    hide Cost;
    if n == |es| {
      assert es[..n] == es;
    } else {
      PrefixSize(es[..|es| - 1], n);
      assert es[..|es| - 1][..n] == es[..n];
    }
  }

  /** What the first chunk leaves begins the second. */
  lemma SecondIsNext(a: seq<seq<Entry>>, es: seq<Entry>)
    requires Packed(a, es) && a != [] && |a[0]| < |es|
    ensures ChunkSize(a[0]) + Cost(es[|a[0]|]) > TARGET_SIZE
  {
    hide ChunkSize, Cost;
    JoinedFirst(a);
    if a[1..] != [] {
      JoinedFirst(a[1..]);
      assert a[1] in a && Full(a[0], a[1]);
    }
  }

  /** Of two such splits of a run neither has the shorter first chunk. */
  lemma FirstIsLongest(a: seq<seq<Entry>>, b: seq<seq<Entry>>, es: seq<Entry>)
    requires Packed(a, es) && Packed(b, es) && a != [] && b != []
    ensures |a[0]| >= |b[0]|
  {
    hide ChunkSize, Cost;
    JoinedFirst(a);
    JoinedFirst(b);
    if |a[0]| < |b[0]| {
      var m := |a[0]|;
      assert es[..m] == a[0] && es[..|b[0]|] == b[0];
      assert a[0] in a && b[0] in b;
      SecondIsNext(a, es);
      assert b[0][m] == es[m];
      assert b[0][..m + 1] == a[0] + [es[m]];
      ChunkSizeOne(a[0], es[m]);
      PrefixSize(b[0], m + 1);
    }
  }

  lemma RestIsPacked(a: seq<seq<Entry>>, es: seq<Entry>)
    requires Packed(a, es) && a != []
    ensures |a[0]| <= |es| && es[..|a[0]|] == a[0] && Packed(a[1..], es[|a[0]|..])
  {
    hide ChunkSize, Cost, Joined;
    JoinedFirst(a);
    forall i | 0 <= i < |a[1..]| - 1 ensures Full(a[1..][i], a[1..][i + 1]) {
      assert Full(a[i + 1], a[i + 2]);
    }
  }

  /** A run has only one such split. */
  lemma {:induction false} PackedOnce(a: seq<seq<Entry>>, b: seq<seq<Entry>>, es: seq<Entry>)
    requires Packed(a, es) && Packed(b, es)
    ensures a == b
    decreases |a|
  {
    hide ChunkSize, Cost;
    if a == [] || b == [] {
      NonePacked(a, es);
      NonePacked(b, es);
    } else {
      FirstIsLongest(a, b, es);
      FirstIsLongest(b, a, es);
      RestIsPacked(a, es);
      RestIsPacked(b, es);
      PackedOnce(a[1..], b[1..], es[|a[0]|..]);
      assert a == [a[0]] + a[1..] && b == [b[0]] + b[1..];
    }
  }

  lemma NonePacked(a: seq<seq<Entry>>, es: seq<Entry>)
    requires Packed(a, es)
    ensures a == [] <==> es == []
  {
    hide ChunkSize, Cost;
    if a != [] {
      JoinedFirst(a);
      assert a[0] in a;
    }
  }

  // ----- the output of a compaction -----

  datatype File = File(level: nat, id: nat, bytes: Str)

  /** The files of the chunks, unless closing one of them panics. */
  function FilesOf(chunks: seq<seq<Entry>>, level: nat, id: nat): (r: Option<seq<File>>)
    ensures r.Some? ==> |r.value| == |chunks|
  {
    if chunks == [] then Some([])
    else
      var n := |chunks| - 1;
      var before, last := FilesOf(chunks[..n], level, id), CloseOf(chunks[n], STEP, ENTRIES_PER_CHUNK);
      if before.None? || last.Panics? then None else Some(before.value + [File(level, id + n, last.bytes)])
  }

  lemma FilesAppend(chunks: seq<seq<Entry>>, c: seq<Entry>, level: nat, id: nat)
    ensures var before, last := FilesOf(chunks, level, id), CloseOf(c, STEP, ENTRIES_PER_CHUNK);
      FilesOf(chunks + [c], level, id)
      == if before.None? || last.Panics? then None else Some(before.value + [File(level, id + |chunks|, last.bytes)])
  {
    hide CloseOf;
    assert (chunks + [c])[..|chunks|] == chunks;
  }

  /** A chunk that cannot be closed leaves no files, whatever follows it. */
  lemma {:induction false} NoFilesBehind(chunks: seq<seq<Entry>>, more: seq<seq<Entry>>, level: nat, id: nat)
    requires FilesOf(chunks, level, id).None?
    ensures FilesOf(chunks + more, level, id).None?
    decreases |more|
  {
    hide CloseOf;
    if more == [] {
      assert chunks + more == chunks;
    } else {
      var n := |more| - 1;
      NoFilesBehind(chunks, more[..n], level, id);
      assert (chunks + more)[..|chunks + more| - 1] == chunks + more[..n];
    }
  }

  /** A longer run keeps the chunks already closed. */
  lemma {:induction false} ClosedStay(es: seq<Entry>, more: seq<Entry>) returns (further: seq<seq<Entry>>)
    ensures SplitRun(es + more).closed == SplitRun(es).closed + further
    decreases |more|
  {
    hide ChunkSize, Cost;
    if more == [] {
      assert es + more == es;
      further := [];
    } else {
      var n := |more| - 1;
      var f := ClosedStay(es, more[..n]);
      assert (es + more)[..|es + more| - 1] == es + more[..n];
      var s, s' := SplitRun(es + more[..n]), SplitRun(es + more);
      further := f + s'.closed[|s.closed|..];
    }
  }

  /** If a chunk closed so far cannot be closed, no longer run can be written. */
  lemma NoFilesLater(es: seq<Entry>, more: seq<Entry>, level: nat, id: nat)
    requires FilesOf(SplitRun(es).closed, level, id).None?
    ensures FilesOf(ChunksOf(es + more), level, id).None?
  {
    hide FilesOf, SplitRun;
    var further := ClosedStay(es, more);
    var s := SplitRun(es + more);
    NoFilesBehind(SplitRun(es).closed, further, level, id);
    if s.open != [] {
      NoFilesBehind(s.closed, [s.open], level, id);
    }
  }

  /** The writer DoCompact holds, with what its closure flushChunk changes. */
  class Output {
    const level: nat
    var fileID: nat
    var w: Writer?
    var chunkSize: nat
    var files: seq<File>
    ghost const id: nat
    ghost var closed: seq<seq<Entry>>
    ghost var open: seq<Entry>

    ghost function Repr(): set<object>
      reads this, w, if w == null then {} else {w.bloomFilter}
    {
      if w == null then {this} else {this} + w.Repr()
    }

    ghost predicate Valid()
      reads Repr()
    {
      && FilesOf(closed, level, id) == Some(files)
      && fileID == id + |closed| + (if w == null then 0 else 1)
      && chunkSize == ChunkSize(open)
      && (w == null <==> open == [])
      && (w != null ==> this !in w.Repr() && Holding(w))
    }

    /** The writer holds the open chunk. */
    ghost predicate Holding(v: Writer)
      reads this, v.Repr()
    {
      && v.Valid()
      && v.entries == open
      && v.expected == ENTRIES_PER_CHUNK
      && v.sparseIndex.step == STEP
    }

    constructor (level: nat, id: nat)
      ensures Valid() && fresh(Repr())
      ensures closed == [] && open == [] && this.level == level && this.id == id
    {
      hide ChunkSize;
      this.level, this.id := level, id;
      fileID, w, chunkSize, files := id, null, 0, [];
      closed, open := [], [];
      new;
      ChunkSizeOne([], Entry([], [], 0, false));
    }

    /** Closes the writer of the open chunk. */
    method CloseWriter(v: Writer) returns (r: Closed)
      requires Holding(v) && this !in v.Repr()
      modifies v.Repr()
      ensures r == CloseOf(old(open), STEP, ENTRIES_PER_CHUNK)
    {
      hide CloseOf, Writer.Valid;
      r := v.Close();
    }

    /** flushChunk. */
    method FlushChunk() returns (panicked: bool)
      requires Valid()
      modifies Repr()
      ensures panicked <==> FilesOf(Finished(Split(old(closed), old(open))), level, id).None?
      ensures !panicked ==> Valid() && fresh(Repr() - old(Repr()))
      ensures !panicked ==> open == [] && closed == Finished(Split(old(closed), old(open)))
    {
      hide ChunkSize, CloseOf, FilesOf, Writer.Valid, Holding;
      if w != null {
        FilesAppend(closed, open, level, id);
        var r := CloseWriter(w);
        if r.Panics? {
          return true;
        }
        files := files + [File(level, fileID - 1, r.bytes)];
        w := null;
        chunkSize := 0;
        closed, open := closed + [open], [];
        ChunkSizeOne([], Entry([], [], 0, false));
      }
      panicked := false;
    }

    /** The outputs, once the last chunk is closed. */
    method Files() returns (r: seq<File>)
      requires Valid()
      ensures FilesOf(closed, level, id) == Some(r)
    {
      r := files;
    }

    /** Appends to the open chunk, opening one first when there is none. */
    method AppendEntry(e: Entry)
      requires Valid()
      modifies Repr()
      ensures Valid() && fresh(Repr() - old(Repr()))
      ensures closed == old(closed) && open == old(open) + [e]
    {
      hide ChunkSize, CloseOf, FilesOf, SizeAfter, Writer.Valid, Cost;
      ChunkSizeOne(open, e);
      if w == null {
        fileID := fileID + 1;
        w := new Writer.Create(ENTRIES_PER_CHUNK, STEP);
      }
      w.Append(e);
      open := open + [e];
      chunkSize := chunkSize + Cost(e);
    }

    /** One surviving version: behind the open chunk when both are within the target or there is none, and
        otherwise into a new one, once the open one is closed. */
    method Emit(e: Entry) returns (panicked: bool)
      requires Valid()
      modifies Repr()
      ensures var full := old(open) != [] && ChunkSize(old(open)) + Cost(e) > TARGET_SIZE;
        && (panicked <==> full && FilesOf(old(closed) + [old(open)], level, id).None?)
        && (!panicked && full ==> closed == old(closed) + [old(open)] && open == [e])
        && (!panicked && !full ==> closed == old(closed) && open == old(open) + [e])
      ensures !panicked ==> Valid() && fresh(Repr() - old(Repr()))
    {
      hide ChunkSize, CloseOf, FilesOf, Cost, Holding;
      panicked := false;
      if w != null && chunkSize + Cost(e) > TARGET_SIZE {
        panicked := FlushChunk();
        if panicked {
          return;
        }
        assert [] + [e] == [e];
      }
      AppendEntry(e);
    }
  }
}
