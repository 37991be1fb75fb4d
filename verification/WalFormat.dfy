/** The write-ahead log as bytes: batch frames, what Replay reads from them, and why a log that
    was cut short or padded with zeros still reads as the batches that were wholly written. */
module WalFormat {
  import opened Bytes
  import opened Entries
  import opened Versions
  import opened Varint
  import opened Records
  import opened Crc32

  const VERSION: byte := 1

  function Body(es: seq<Entry>): Str {
    if es == [] then [] else PutFields(es[0]) + Body(es[1..])
  }

  /** One batch: entry count, checksum of the body, body. */
  function Frame(es: seq<Entry>): Str {
    PutUvarint(|es|) + (PutFixed(ChecksumNumber(Body(es)), 4) + Body(es))
  }

  function Frames(batches: seq<seq<Entry>>): Str {
    if batches == [] then [] else Frame(batches[0]) + Frames(batches[1..])
  }

  function Flatten(batches: seq<seq<Entry>>): seq<Entry> {
    if batches == [] then [] else batches[0] + Flatten(batches[1..])
  }

  predicate Loggable(es: seq<Entry>) {
    |es| < TWO_64 && forall e :: e in es ==> Storable(e)
  }

  /** The `count` entries of a batch body. */
  function GetEntries(buf: Str, count: nat): (r: Parse<seq<Entry>>)
    ensures r.Parsed? ==> r.size <= |buf|
    decreases count
  {
    if count == 0 then Parsed([], 0)
    else
      var e := GetFields(buf);
      if e.Stop? then Stop
      else if e.Panic? then Panic
      else Following([e.item], e.size, GetEntries(buf[e.size..], count - 1))
  }

  /** The entries `es` read from `n` bytes, then those of `r`. */
  function Following(es: seq<Entry>, n: nat, r: Parse<seq<Entry>>): Parse<seq<Entry>> {
    if r.Parsed? then Parsed(es + r.item, n + r.size) else r
  }

  datatype Replayed = Entries(es: seq<Entry>) | Panicked

  /** The entries `es` in front of those of `r`. */
  function Prefixed(es: seq<Entry>, r: Replayed): Replayed {
    if r.Entries? then Entries(es + r.es) else r
  }

  /** Replay behind the version byte: batches up to the first that is cut short, malformed or
      does not match its checksum. */
  function ReplayFrom(buf: Str): Replayed
    decreases |buf|
  {
    var n := GetUvarint(buf);
    if n.None? then Entries([])
    else
      var rest := buf[n.value.size..];
      if |rest| < 4 then Entries([])
      else
        var data := rest[4..];
        var b := GetEntries(data, n.value.value);
        if b.Stop? then Entries([])
        else if b.Panic? then Panicked
        else if ChecksumNumber(data[..b.size]) != GetFixed(rest[..4]) then Entries([])
        else Prefixed(b.item, ReplayFrom(data[b.size..]))
  }

  function SkipVersion(log: Str): Str {
    if |log| > 0 && log[0] == VERSION then log[1..] else log
  }

  function Replay(log: Str): Replayed {
    ReplayFrom(SkipVersion(log))
  }

  // ----- one batch -----

  lemma {:induction false} BodyAppend(es: seq<Entry>, e: Entry)
    ensures Body(es + [e]) == Body(es) + PutFields(e)
    decreases |es|
  {
    if es == [] {
      assert es + [e] == [e];
      assert Body([e]) == PutFields(e) + Body([]);
    } else {
      BodyAppend(es[1..], e);
      assert (es + [e])[1..] == es[1..] + [e];
    }
  }

  lemma {:induction false} EntriesRoundTrip(es: seq<Entry>, rest: Str)
    requires forall e :: e in es ==> Storable(e)
    ensures GetEntries(Body(es) + rest, |es|) == Parsed(es, |Body(es)|)
    decreases |es|
  {
    hide PutFields, GetFields, Storable;
    if es != [] {
      var h, t := PutFields(es[0]), Body(es[1..]);
      FieldsRoundTrip(es[0], t + rest);
      EntriesRoundTrip(es[1..], rest);
      assert Body(es) + rest == h + (t + rest);
      assert (h + (t + rest))[|h|..] == t + rest;
      assert es == [es[0]] + es[1..];
    }
  }

  lemma {:induction false} EntriesCutShort(es: seq<Entry>, n: nat)
    requires forall e :: e in es ==> Storable(e)
    requires n < |Body(es)|
    ensures GetEntries(Body(es)[..n], |es|) == Stop
    decreases |es|
  {
    hide PutFields, GetFields, Storable;
    var h, t := PutFields(es[0]), Body(es[1..]);
    if n < |h| {
      FieldsCutShort(es[0], n);
      assert Body(es)[..n] == h[..n];
    } else {
      FieldsRoundTrip(es[0], t[..n - |h|]);
      EntriesCutShort(es[1..], n - |h|);
      assert Body(es)[..n] == h + t[..n - |h|];
      assert (h + t[..n - |h|])[|h|..] == t[..n - |h|];
    }
  }

  lemma FrameReplays(es: seq<Entry>, rest: Str)
    requires Loggable(es)
    ensures ReplayFrom(Frame(es) + rest) == Prefixed(es, ReplayFrom(rest))
  {
    hide Body, GetEntries, PutUvarint, GetUvarint, PutFixed, GetFixed, ChecksumNumber, Storable;
    var c, b := PutFixed(ChecksumNumber(Body(es)), 4), Body(es);
    UvarintRoundTrip(|es|, c + (b + rest));
    Fixed32RoundTrip(ChecksumNumber(b));
    EntriesRoundTrip(es, rest);
    var buf, u := Frame(es) + rest, PutUvarint(|es|);
    assert buf == u + (c + (b + rest));
    assert buf[|u|..] == c + (b + rest);
    assert (c + (b + rest))[..4] == c && (c + (b + rest))[4..] == b + rest;
    assert (b + rest)[..|b|] == b && (b + rest)[|b|..] == rest;
  }

  lemma FrameCutShort(es: seq<Entry>, n: nat)
    requires Loggable(es) && n < |Frame(es)|
    ensures ReplayFrom(Frame(es)[..n]) == Entries([])
  {
    hide Body, GetEntries, PutUvarint, GetUvarint, PutFixed, GetFixed, ChecksumNumber, Storable;
    var u, c, b := PutUvarint(|es|), PutFixed(ChecksumNumber(Body(es)), 4), Body(es);
    var buf := Frame(es)[..n];
    if n < |u| {
      UvarintCutShort(|es|, n);
      assert buf == u[..n];
    } else {
      var rest := (c + b)[..n - |u|];
      UvarintRoundTrip(|es|, rest);
      assert buf == u + rest && buf[|u|..] == rest;
      if |rest| >= 4 {
        EntriesCutShort(es, |rest| - 4);
        assert rest[4..] == b[..|rest| - 4];
      }
    }
  }

  // ----- a whole log -----

  /** Reading a well-formed log gives its batches, then whatever the bytes behind it give. */
  lemma {:induction false} FramesReplay(batches: seq<seq<Entry>>, rest: Str)
    requires forall b :: b in batches ==> Loggable(b)
    ensures ReplayFrom(Frames(batches) + rest) == Prefixed(Flatten(batches), ReplayFrom(rest))
    decreases |batches|
  {
    hide Frame, ReplayFrom, Loggable;
    if batches == [] {
      assert Frames(batches) + rest == rest;
    } else {
      var f, t := Frame(batches[0]), Frames(batches[1..]);
      FrameReplays(batches[0], t + rest);
      FramesReplay(batches[1..], rest);
      assert Frames(batches) + rest == f + (t + rest);
      var r := ReplayFrom(rest);
      if r.Entries? {
        assert batches[0] + (Flatten(batches[1..]) + r.es) == Flatten(batches) + r.es;
      }
    }
  }

  /** The entries of the batches that lie wholly inside the first `n` bytes. */
  function Whole(batches: seq<seq<Entry>>, n: nat): seq<Entry> {
    if batches == [] || n < |Frame(batches[0])| then []
    else batches[0] + Whole(batches[1..], n - |Frame(batches[0])|)
  }

  lemma {:induction false} FramesCutShort(batches: seq<seq<Entry>>, n: nat)
    requires forall b :: b in batches ==> Loggable(b)
    requires n <= |Frames(batches)|
    ensures ReplayFrom(Frames(batches)[..n]) == Entries(Whole(batches, n))
    decreases |batches|
  {
    hide Frame, ReplayFrom, Loggable;
    if batches == [] {
      ZerosReplayNothing(0);
      assert Frames(batches)[..n] == Zeros(0);
    } else {
      var f, t := Frame(batches[0]), Frames(batches[1..]);
      if n < |f| {
        FrameCutShort(batches[0], n);
        assert Frames(batches)[..n] == f[..n];
      } else {
        FrameReplays(batches[0], t[..n - |f|]);
        FramesCutShort(batches[1..], n - |f|);
        assert Frames(batches)[..n] == f + t[..n - |f|];
      }
    }
  }

  /** Crash safety of the log: whatever prefix of it survives, Replay returns exactly the entries
      of the batches that were wholly written, and nothing of the batch that was cut. */
  lemma CrashPrefix(batches: seq<seq<Entry>>, n: nat)
    requires forall b :: b in batches ==> Loggable(b)
    requires n <= 1 + |Frames(batches)|
    ensures Replay(([VERSION] + Frames(batches))[..n])
         == Entries(if n == 0 then [] else Whole(batches, n - 1))
  {
    hide Frames, Whole, ReplayFrom, Loggable;
    if n == 0 {
      ZerosReplayNothing(0);
      assert Zeros(0) == ([VERSION] + Frames(batches))[..n];
    } else {
      FramesCutShort(batches, n - 1);
      assert ([VERSION] + Frames(batches))[..n][1..] == Frames(batches)[..n - 1];
    }
  }

  // ----- zero padding -----

  lemma EmptyFrame()
    ensures Frame([]) == Zeros(5)
  {
    hide ChecksumNumber;
    EmptyChecksum();
    assert PutFixed(0, 2) == [0, 0];
    assert PutFixed(0, 4) == [0, 0, 0, 0];
  }

  /** Five zero bytes read as an empty batch. */
  lemma ZerosSkip(z: nat, rest: Str)
    requires z >= 5
    ensures ReplayFrom(Zeros(z) + rest) == ReplayFrom(Zeros(z - 5) + rest)
  {
    hide Frame, ReplayFrom;
    EmptyFrame();
    FrameReplays([], Zeros(z - 5) + rest);
    assert Zeros(z) + rest == Zeros(5) + (Zeros(z - 5) + rest);
    var r := ReplayFrom(Zeros(z - 5) + rest);
    if r.Entries? {
      assert [] + r.es == r.es;
    }
  }

  lemma FewZeros(z: nat)
    requires z < 5
    ensures ReplayFrom(Zeros(z)) == Entries([])
  {
    hide GetEntries, ChecksumNumber, GetFixed;
    if z > 0 {
      assert GetUvarint(Zeros(z)) == Some(Read(0, 1));
    }
  }

  lemma {:induction false} ZerosReplayNothing(z: nat)
    ensures ReplayFrom(Zeros(z)) == Entries([])
  {
    hide ReplayFrom;
    if z < 5 {
      FewZeros(z);
    } else {
      ZerosSkip(z, []);
      assert Zeros(z) + [] == Zeros(z) && Zeros(z - 5) + [] == Zeros(z - 5);
      ZerosReplayNothing(z - 5);
    }
  }

  /** The preallocated zero bytes behind a well-formed log change nothing. */
  lemma PaddingIsInert(batches: seq<seq<Entry>>, z: nat)
    requires forall b :: b in batches ==> Loggable(b)
    ensures Replay([VERSION] + Frames(batches) + Zeros(z)) == Entries(Flatten(batches))
  {
    hide Frame, ReplayFrom, Loggable;
    FramesReplay(batches, Zeros(z));
    ZerosReplayNothing(z);
    var log := [VERSION] + Frames(batches) + Zeros(z);
    assert log[1..] == Frames(batches) + Zeros(z);
  }

  lemma FrameStartsNonZero(es: seq<Entry>)
    requires es != []
    ensures Frame(es) != [] && Frame(es)[0] != 0
  {
    hide Body, ChecksumNumber;
  }

  /** Behind a number of zero bytes that is not a multiple of five, the next frame is read as part
      of the checksum of an empty batch and ends the replay. */
  lemma MisalignedIsLost(z: nat, f: Str)
    requires 0 < z < 5
    requires f != [] && f[0] != 0
    ensures ReplayFrom(Zeros(z) + f) == Entries([])
  {
    hide GetFixed, ChecksumNumber;
    var buf := Zeros(z) + f;
    assert GetUvarint(buf) == Some(Read(0, 1));
    assert ChecksumNumber([]) == 0 by { EmptyChecksum(); }
    var rest := buf[1..];
    if |rest| >= 4 {
      assert rest[..4][z - 1] == f[0];
      FixedNonZero(rest[..4], z - 1);
      assert rest[4..][..0] == [];
    }
  }

  lemma {:induction false} BehindMisaligned(z: nat, f: Str)
    requires z % 5 != 0
    requires f != [] && f[0] != 0
    ensures ReplayFrom(Zeros(z) + f) == Entries([])
  {
    hide ReplayFrom;
    if z >= 5 {
      ZerosSkip(z, f);
      BehindMisaligned(z - 5, f);
    } else {
      MisalignedIsLost(z, f);
    }
  }

  /** What batches appended behind `z` zero bytes are worth, `pad` more zero bytes behind them: they
      are read exactly when they start on a multiple of five, the size of an empty batch; otherwise
      all of them are lost. */
  lemma {:induction false} AppendBehindZeros(z: nat, batches: seq<seq<Entry>>, pad: nat)
    requires forall b :: b in batches ==> Loggable(b)
    requires batches != [] && batches[0] != []
    ensures ReplayFrom(Zeros(z) + (Frames(batches) + Zeros(pad)))
         == Entries(if z % 5 == 0 then Flatten(batches) else [])
    decreases z
  {
    hide Frame, ReplayFrom, Loggable;
    var f := Frames(batches) + Zeros(pad);
    if z % 5 != 0 {
      FrameStartsNonZero(batches[0]);
      BehindMisaligned(z, f);
    } else if z == 0 {
      assert Zeros(0) + f == f;
      FramesReplay(batches, Zeros(pad));
      ZerosReplayNothing(pad);
    } else {
      ZerosSkip(z, f);
      AppendBehindZeros(z - 5, batches, pad);
    }
  }

  // ----- damage -----

  /** A whole batch is replayed exactly when the checksum in front of it is that of its entries; with any other
      the replay ends before it. */
  lemma ChecksumDecides(es: seq<Entry>, n: nat, rest: Str)
    requires Loggable(es) && n < TWO_32
    ensures ReplayFrom(PutUvarint(|es|) + (PutFixed(n, 4) + Body(es)) + rest)
         == if n == ChecksumNumber(Body(es)) then Prefixed(es, ReplayFrom(rest)) else Entries([])
  {
    hide Body, GetEntries, PutUvarint, GetUvarint, PutFixed, GetFixed, ChecksumNumber, Storable;
    if n == ChecksumNumber(Body(es)) {
      FrameReplays(es, rest);
    } else {
      var u, c, b := PutUvarint(|es|), PutFixed(n, 4), Body(es);
      UvarintRoundTrip(|es|, c + (b + rest));
      Fixed32RoundTrip(n);
      EntriesRoundTrip(es, rest);
      var buf := u + (c + b) + rest;
      assert buf == u + (c + (b + rest));
      assert buf[|u|..] == c + (b + rest);
      assert (c + (b + rest))[..4] == c && (c + (b + rest))[4..] == b + rest;
      assert (b + rest)[..|b|] == b;
    }
  }

  lemma {:induction false} ScratchedBody(es: seq<Entry>, i: nat, f: Entry)
    requires i < |es| && Scratched(es[i], f)
    ensures OneOff(Body(es), Body(es[i := f]))
    decreases i
  {
    hide OneOff, PutFields, Scratched;
    var fs := es[i := f];
    if i == 0 {
      ScratchedFields(es[0], f);
      OneOffInside([], PutFields(es[0]), PutFields(f), Body(es[1..]));
      assert fs[1..] == es[1..];
      assert [] + PutFields(es[0]) + Body(es[1..]) == Body(es);
      assert [] + PutFields(f) + Body(es[1..]) == Body(fs);
    } else {
      ScratchedBody(es[1..], i - 1, f);
      assert fs[1..] == es[1..][i - 1 := f];
      OneOffInside(PutFields(es[0]), Body(es[1..]), Body(fs[1..]), []);
      assert PutFields(es[0]) + Body(es[1..]) + [] == Body(es);
      assert PutFields(es[0]) + Body(fs[1..]) + [] == Body(fs);
    }
  }

  /** A log in which one byte of a key or a value has changed is replayed up to the batch with that entry. */
  lemma DamageEndsReplay(before: seq<seq<Entry>>, es: seq<Entry>, i: nat, f: Entry, rest: Str)
    requires (forall b :: b in before ==> Loggable(b)) && Loggable(es)
    requires i < |es| && Scratched(es[i], f)
    ensures Replay([VERSION] + Frames(before)
                   + (PutUvarint(|es|) + (PutFixed(ChecksumNumber(Body(es)), 4) + Body(es[i := f])) + rest))
         == Entries(Flatten(before))
  {
    hide Body, PutUvarint, PutFixed, ChecksumNumber, Storable, OneOff, Scratched, ReplayFrom, Frames, Flatten;
    var fs := es[i := f];
    ScratchedBody(es, i, f);
    OneOffTells(Body(es), Body(fs));
    SameLength(es[i], f);
    assert es[i] in es && forall e :: e in fs ==> e in es || e == f;
    ChecksumDecides(fs, ChecksumNumber(Body(es)), rest);
    var bad := PutUvarint(|es|) + (PutFixed(ChecksumNumber(Body(es)), 4) + Body(fs)) + rest;
    FramesReplay(before, bad);
    assert ([VERSION] + Frames(before) + bad)[1..] == Frames(before) + bad;
    assert Flatten(before) + [] == Flatten(before);
  }

  // ----- a known log -----

  lemma KnownBody()
    ensures Body([Entry([97], [98], 1, false)]) == [1, 97, 1, 98, 2, 0]
  {
    var e := Entry([97], [98], 1, false);
    assert PutString([97]) == [1, 97] && PutString([98]) == [1, 98] && PutVarint(1) == [2];
    assert Body([e]) == PutFields(e) + Body([]);
  }

  /** The log of one put of "b" under "a" at timestamp 1, byte by byte: version, count, checksum with the lowest
      byte first, key, value, zigzag timestamp and flag. */
  lemma KnownLog()
    ensures var es := [Entry([97], [98], 1, false)];
      && [VERSION] + Frame(es) == [1, 1, 82, 54, 21, 31, 1, 97, 1, 98, 2, 0]
      && Replay([1, 1, 82, 54, 21, 31, 1, 97, 1, 98, 2, 0]) == Entries(es)
  {
    hide Body, ReplayFrom, Checksum, Number, Flatten, PutFixed;
    var es := [Entry([97], [98], 1, false)];
    KnownBody();
    KnownChecksum();
    KnownNumber();
    FourFixed(0x1F15_3652, 0x1F_1536, 0x1F15, 0x1F);
    assert PutUvarint(1) == [1];
    FrameReplays(es, []);
    ZerosReplayNothing(0);
    assert Zeros(0) == [];
    assert Frame(es) + [] == Frame(es);
    assert es + [] == es;
    assert [1, 1, 82, 54, 21, 31, 1, 97, 1, 98, 2, 0][1..] == Frame(es);
  }

  // ----- logs Replay takes for others -----

  /** A log without a version byte replays all the same, unless its first batch has one entry: that count is taken
      for the version. */
  lemma UnversionedReplays(batches: seq<seq<Entry>>)
    requires forall b :: b in batches ==> Loggable(b)
    requires batches != [] && |batches[0]| != 1
    ensures Replay(Frames(batches)) == Entries(Flatten(batches))
  {
    hide Body, ChecksumNumber, ReplayFrom, Loggable, Flatten;
    FramesReplay(batches, []);
    ZerosReplayNothing(0);
    assert Zeros(0) == [];
    assert Frames(batches) + [] == Frames(batches);
    assert Flatten(batches) + [] == Flatten(batches);
    assert Frames(batches)[0] == PutUvarint(|batches[0]|)[0] != VERSION;
  }

  /** That of the put of KnownLog is lost. */
  lemma UnversionedIsLost()
    ensures Replay(Frame([Entry([97], [98], 1, false)])) == Entries([])
  {
    hide Frame, ReplayFrom, GetEntries, GetFields;
    KnownLog();
    var log: Str := [1, 1, 82, 54, 21, 31, 1, 97, 1, 98, 2, 0];
    assert Frame([Entry([97], [98], 1, false)]) == ([VERSION] + Frame([Entry([97], [98], 1, false)]))[1..] == log[1..];
    var buf: Str := [82, 54, 21, 31, 1, 97, 1, 98, 2, 0];
    assert log[1..][1..] == buf;
    LongKeyStops(buf[5..]);
    ManyOfNone(buf[5..], 82);
    StopsAtOnce(buf, 82);
  }

  lemma StopsAtOnce(buf: Str, n: nat)
    requires |buf| >= 5 && buf[0] == n < 128 && GetEntries(buf[5..], n) == Stop
    ensures ReplayFrom(buf) == Entries([])
  {
    hide GetEntries, ChecksumNumber, GetFixed;
    assert GetUvarint(buf) == Some(Read(n, 1));
    assert buf[1..][4..] == buf[5..];
  }

  lemma LongKeyStops(data: Str)
    requires data != [] && |data| <= data[0] < 128
    ensures GetFields(data) == Stop
  {
  }

  lemma ManyOfNone(data: Str, n: nat)
    requires n > 0 && GetFields(data) == Stop
    ensures GetEntries(data, n) == Stop
  {
    hide GetFields;
  }

  /** A key length from 2^63 on is negative as an int and takes Replay down, whatever the checksum. */
  lemma HugeLengthPanics(n: nat, crc: Str, rest: Str)
    requires TWO_63 <= n < TWO_64 && |crc| == 4
    ensures Replay([VERSION, 1] + crc + PutUvarint(n) + rest) == Panicked
  {
    hide PutUvarint, ChecksumNumber;
    var data := PutUvarint(n) + rest;
    var buf := [1] + crc + data;
    UvarintRoundTrip(n, rest);
    assert ([VERSION, 1] + crc + PutUvarint(n) + rest)[1..] == buf;
    assert GetUvarint(buf) == Some(Read(1, 1));
    assert buf[1..] == crc + data && (crc + data)[4..] == data;
  }
}
