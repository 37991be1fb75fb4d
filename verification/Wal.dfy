/** The write-ahead log object: a memory-mapped file that grows by doubling and is zero behind the
    last byte written. */
module Wal {
  import opened Bytes
  import opened Entries
  import opened Versions
  import opened Varint
  import opened Records
  import opened Crc32
  import opened WalFormat
  import opened Words

  const INITIAL_SIZE: nat := 0x400_0000

  /** What the log holds: the bytes up to the write position and the size of the mapping. */
  datatype LogState = LogState(bytes: Str, size: nat)

  function Fresh(): LogState {
    LogState([VERSION], INITIAL_SIZE)
  }

  /** The state New reaches from the file it finds; an absent file is an empty one. */
  function OpenFile(file: Str): LogState {
    if |file| == 0 then Fresh()
    else if |file| == 1 then LogState(file, INITIAL_SIZE)
    else LogState(file, |file|)
  }

  function Doubled(size: nat, need: nat): (r: nat)
    requires size > 0
    ensures size <= r && need <= r
    ensures r == size || r < 2 * need
    decreases need - size
  {
    if size < need then Doubled(2 * size, need) else size
  }

  /** A log that was closed before anything was written opens as it was, and so does a missing one. */
  lemma FreshReopens()
    ensures OpenFile(Fresh().bytes) == OpenFile([]) == Fresh()
  {
  }

  /** It ends at the first doubling that is large enough. */
  lemma {:induction false} DoublesFor(size: nat, need: nat, k: nat)
    requires size > 0
    ensures Doubled(size, need) == size * Pow2(k)
       <==> need <= size * Pow2(k) && (k == 0 || size * Pow2(k - 1) < need)
    decreases k
  {
    if k > 0 {
      TwiceAsMuch(size, k);
      if size < need {
        DoublesFor(2 * size, need, k - 1);
        if k > 1 {
          TwiceAsMuch(size, k - 1);
        }
      }
    }
  }

  function Appended(l: LogState, buf: Str): LogState
    requires l.size > 0
  {
    var need := |l.bytes| + |buf|;
    LogState(l.bytes + buf, if need > l.size then Doubled(2 * l.size, need) else l.size)
  }

  /** An append leaves the mapping alone when its bytes fit, and else doubles it as often as they need, and no more. */
  lemma AppendedFits(l: LogState, buf: Str, k: nat)
    requires l.size > 0
    ensures Appended(l, buf).bytes == l.bytes + buf
    ensures Appended(l, buf).size == l.size * Pow2(k)
       <==> |l.bytes + buf| <= l.size * Pow2(k) && (k == 0 || l.size * Pow2(k - 1) < |l.bytes + buf|)
  {
    hide Doubled;
    var need := |l.bytes| + |buf|;
    DoublesFor(l.size, need, k);
    DoubledOnce(l.size, need);
  }

  lemma DoubledOnce(size: nat, need: nat)
    requires size > 0
    ensures Doubled(size, need) == if size < need then Doubled(2 * size, need) else size
  {
  }

  /** The file a killed process leaves: the mapping is shared, so the preallocated zeros stay. */
  function CrashFile(l: LogState): Str
    requires |l.bytes| <= l.size
  {
    l.bytes + Zeros(l.size - |l.bytes|)
  }

  /** uvarintSize. */
  method UvarintSize(v: nat) returns (n: nat)
    ensures n == |PutUvarint(v)|
  {
    if v == 0 {
      return 1;
    }
    n := 0;
    var x := v;
    while x > 0
      invariant n + (if x > 0 then |PutUvarint(x)| else 0) == |PutUvarint(v)|
    {
      x := x / 128;
      n := n + 1;
    }
  }

  /** varintSize: the shift and the complement act on 64-bit words. */
  method VarintSize(v: int) returns (n: nat)
    requires IsInt64(v)
    ensures n == |PutVarint(v)|
  {
    var word := if v < 0 then v + TWO_64 else v;
    var uv := (2 * word) % TWO_64;
    if v < 0 {
      uv := TWO_64 - 1 - uv;
    }
    assert uv == Zigzag(v);
    n := UvarintSize(uv);
  }

  /** The capacity serializeEntries asks for, without the 8 spare bytes. */
  ghost function Estimate(es: seq<Entry>): nat {
    if es == [] then 0 else
      var e := es[|es| - 1];
      Estimate(es[..|es| - 1]) + |e.key| + |e.value| + 16
        + |PutUvarint(|e.key|)| + |PutUvarint(|e.value|)| + |PutVarint(e.ts)| + 1
  }

  lemma {:induction false} BodyFits(es: seq<Entry>)
    ensures |Body(es)| + 16 * |es| == Estimate(es)
    ensures es == [] ==> Body(es) == []
    decreases |es|
  {
    if es != [] {
      var n := |es| - 1;
      BodyFits(es[..n]);
      BodyAppend(es[..n], es[n]);
      assert es == es[..n] + [es[n]];
    }
  }

  lemma CapacitySuffices(es: seq<Entry>)
    requires |es| < TWO_64
    ensures |PutUvarint(|es|)| + 4 + |Body(es)| <= Estimate(es) + 8
  {
    hide Body, Estimate;
    BodyFits(es);
    UvarintRoundTrip(|es|, []);
  }

  method EstimateSize(entries: seq<Entry>) returns (total: nat)
    requires forall e :: e in entries ==> IsInt64(e.ts)
    ensures total == Estimate(entries)
  {
    hide PutUvarint, Zigzag;
    total := 0;
    for i := 0 to |entries|
      invariant total == Estimate(entries[..i])
    {
      var e := entries[i];
      assert e in entries;
      var k := UvarintSize(|e.key|);
      var v := UvarintSize(|e.value|);
      var t := VarintSize(e.ts);
      total := total + (|e.key| + |e.value| + 16) + k + v + t + 1;
      assert entries[..i + 1][..i] == entries[..i];
    }
    assert entries[..|entries|] == entries;
  }

  /** serializeEntries: the buffer is the frame of the entries and never outgrows the capacity it
      was made with. */
  method SerializeEntries(entries: seq<Entry>) returns (buf: Str)
    requires |entries| < TWO_64 && forall e :: e in entries ==> IsInt64(e.ts)
    ensures buf == Frame(entries)
  {
    hide PutUvarint, ChecksumNumber, PutFixed, Zigzag, Estimate, Body;
    var capacity := EstimateSize(entries);
    capacity := capacity + 8;
    buf := PutUvarint(|entries|);
    var crcOff := |buf|;
    buf := buf + [0, 0, 0, 0];
    ghost var head := buf;
    BodyFits([]);
    assert Body([]) == [] && entries[..0] == [];
    for i := 0 to |entries|
      invariant buf == head + Body(entries[..i])
    {
      var e := entries[i];
      BodyAppend(entries[..i], e);
      assert entries[..i + 1] == entries[..i] + [e];
      buf := PutEntry(buf, e);
    }
    assert entries[..|entries|] == entries;
    CapacitySuffices(entries);
    assert |buf| <= capacity;
    assert buf[crcOff + 4..] == Body(entries);
    buf := buf[..crcOff] + PutFixed(ChecksumNumber(buf[crcOff + 4..]), 4) + buf[crcOff + 4..];
    assert buf[..crcOff] == PutUvarint(|entries|);
  }

  /** The fields of one entry, appended one after the other. */
  method PutEntry(buf: Str, e: Entry) returns (out: Str)
    ensures out == buf + PutFields(e)
  {
    hide PutUvarint, Zigzag;
    var tomb := if e.tomb then 1 else 0;
    out := buf + PutUvarint(|e.key|);
    out := out + e.key;
    out := out + PutUvarint(|e.value|);
    out := out + e.value;
    out := out + PutVarint(e.ts);
    out := out + [tomb];
  }

  class WAL {
    var mmap: array<byte>
    var writeAt: nat

    ghost predicate Valid()
      reads this, mmap
    {
      && 0 < mmap.Length
      && 0 < writeAt <= mmap.Length
      && forall i :: writeAt <= i < mmap.Length ==> mmap[i] == 0
    }

    ghost function State(): LogState
      requires Valid()
      reads this, mmap
    {
      LogState(mmap[..writeAt], mmap.Length)
    }

    /** wal.New on the file found at the path. */
    constructor New(file: Str)
      ensures Valid() && fresh(mmap)
      ensures State() == OpenFile(file)
    {
      var content := if |file| == 0 then [VERSION] else file;
      var fileSize := |content|;
      var mmapLen := if fileSize <= 1 then INITIAL_SIZE else fileSize;
      mmap := new byte[mmapLen](i requires 0 <= i => if i < fileSize then content[i] else 0);
      writeAt := fileSize;
      new;
      assert mmap[..writeAt] == content;
    }

    /** AppendRaw with writeToMmap, in a mode whose append is durable when it returns. */
    method AppendRaw(buf: Str)
      requires Valid()
      modifies this, mmap
      ensures Valid() && (mmap == old(mmap) || fresh(mmap))
      ensures State() == Appended(old(State()), buf)
    {
      hide Doubled;
      var need := writeAt + |buf|;
      if need > mmap.Length {
        Grow(need);
      }
      CopyIn(buf);
    }

    /** Copies the bytes behind those written so far. */
    method CopyIn(buf: Str)
      requires Valid() && writeAt + |buf| <= mmap.Length
      modifies this`writeAt, mmap
      ensures Valid() && State() == LogState(old(State()).bytes + buf, old(State()).size)
    {
      ghost var before := mmap[..writeAt];
      forall i | 0 <= i < |buf| {
        mmap[writeAt + i] := buf[i];
      }
      assert mmap[..writeAt] == before;
      assert mmap[writeAt..writeAt + |buf|] == buf;
      assert mmap[..writeAt + |buf|] == mmap[..writeAt] + mmap[writeAt..writeAt + |buf|];
      writeAt := writeAt + |buf|;
    }

    /** The mapping is doubled until `need` bytes fit; the new bytes of the file are zero. */
    method Grow(need: nat)
      requires Valid() && need > mmap.Length
      modifies this
      ensures Valid() && fresh(mmap) && writeAt == old(writeAt)
      ensures State() == LogState(old(State()).bytes, Doubled(2 * old(mmap.Length), need))
    {
      var newSize := mmap.Length * 2;
      while newSize < need
        invariant newSize > 0 && mmap.Length <= newSize
        invariant Doubled(newSize, need) == Doubled(2 * mmap.Length, need)
        decreases need - newSize
      {
        newSize := newSize * 2;
      }
      var was := mmap[..];
      mmap := new byte[newSize](i requires 0 <= i => if i < |was| then was[i] else 0);
      assert mmap[..writeAt] == was[..writeAt];
    }

    /** AppendBatch. */
    method AppendBatch(entries: seq<Entry>)
      requires Valid()
      requires |entries| < TWO_64 && forall e :: e in entries ==> IsInt64(e.ts)
      modifies this, mmap
      ensures Valid() && (mmap == old(mmap) || fresh(mmap))
      ensures State() == Appended(old(State()), Frame(entries))
    {
      var buf := SerializeEntries(entries);
      AppendRaw(buf);
    }

    method Reset()
      requires Valid()
      modifies this
      ensures Valid() && fresh(mmap)
      ensures State() == Fresh()
    {
      mmap := new byte[INITIAL_SIZE](i => if i == 0 then VERSION else 0);
      writeAt := 1;
      assert mmap[..1] == [VERSION];
    }

    /** Close truncates the file to what was written. */
    method Close() returns (file: Str)
      requires Valid()
      ensures file == State().bytes
    {
      file := mmap[..writeAt];
    }

    /** Replay: the loop over batches, and in each the loop over its entries. */
    method Replay() returns (r: Replayed)
      requires Valid()
      ensures r == WalFormat.Replay(State().bytes)
    {
      hide GetUvarint, GetFields, GetFixed, ChecksumNumber;
      var buf := mmap[..writeAt];
      if |buf| > 0 && buf[0] == VERSION {
        buf := buf[1..];
      }
      ghost var start := buf;
      var entries: seq<Entry> := [];
      while |buf| > 0
        invariant Prefixed(entries, ReplayFrom(buf)) == ReplayFrom(start)
        decreases |buf|
      {
        var n := GetUvarint(buf);
        if n.None? {
          break;
        }
        var rest := buf[n.value.size..];
        if |rest| < 4 {
          break;
        }
        var storedCRC := GetFixed(rest[..4]);
        var data := rest[4..];
        var batch := ReadBatch(data, n.value.value);
        if batch.Panic? {
          return Panicked;
        }
        if batch.Stop? {
          break;
        }
        if ChecksumNumber(data[..batch.size]) != storedCRC {
          break;
        }
        ghost var further := ReplayFrom(data[batch.size..]);
        if further.Entries? {
          assert (entries + batch.item) + further.es == entries + (batch.item + further.es);
        }
        entries := entries + batch.item;
        buf := data[batch.size..];
      }
      assert entries + [] == entries;
      r := WalFormat.Entries(entries);
    }
  }

  /** Replay's inner loop. */
  method ReadBatch(data: Str, numEntries: nat) returns (r: Parse<seq<Entry>>)
    ensures r == GetEntries(data, numEntries)
  {
    hide GetFields;
    var buf := data;
    var batch: seq<Entry> := [];
    var i := 0;
    if GetEntries(data, numEntries).Parsed? {
      assert [] + GetEntries(data, numEntries).item == GetEntries(data, numEntries).item;
    }
    while i < numEntries
      invariant i <= numEntries
      invariant |buf| <= |data| && data[|data| - |buf|..] == buf
      invariant Following(batch, |data| - |buf|, GetEntries(buf, numEntries - i))
             == GetEntries(data, numEntries)
    {
      var e := GetFields(buf);
      if e.Stop? {
        return Stop;
      }
      if e.Panic? {
        return Panic;
      }
      ghost var further := GetEntries(buf[e.size..], numEntries - i - 1);
      if further.Parsed? {
        assert (batch + [e.item]) + further.item == batch + ([e.item] + further.item);
      }
      batch := batch + [e.item];
      buf := buf[e.size..];
      i := i + 1;
    }
    assert batch + [] == batch;
    r := Parsed(batch, |data| - |buf|);
  }
}
