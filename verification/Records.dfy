/** The entry fields shared by the write-ahead log and the sorted table, and how both read them. */
module Records {
  import opened Bytes
  import opened Entries
  import opened Versions
  import opened Varint
  import opened Crc32

  /** What reading bytes gives: an item and the bytes it took, a stop at bytes that are too short
      or malformed, or the panic of a Go slice expression whose length does not fit an int. */
  datatype Parse<+T> = Parsed(item: T, size: nat) | Stop | Panic

  function PutString(s: Str): Str {
    PutUvarint(|s|) + s
  }

  function GetString(buf: Str): (r: Parse<Str>)
    ensures r.Parsed? ==> 1 <= r.size <= |buf|
  {
    var n := GetUvarint(buf);
    if n.None? then Stop
    else if n.value.value >= TWO_63 then Panic
    else if n.value.value > |buf| - n.value.size then Stop
    else Parsed(buf[n.value.size..][..n.value.value], n.value.size + n.value.value)
  }

  lemma StringRoundTrip(s: Str, rest: Str)
    requires |s| < TWO_63
    ensures GetString(PutString(s) + rest) == Parsed(s, |PutString(s)|)
  {
    UvarintRoundTrip(|s|, s + rest);
    var buf := PutString(s) + rest;
    assert buf == PutUvarint(|s|) + (s + rest);
    assert buf[|PutUvarint(|s|)|..] == s + rest;
    assert (s + rest)[..|s|] == s;
  }

  lemma StringCutShort(s: Str, n: nat)
    requires |s| < TWO_63 && n < |PutString(s)|
    ensures GetString(PutString(s)[..n]) == Stop
  {
    var h := PutUvarint(|s|);
    var buf := PutString(s)[..n];
    if n < |h| {
      UvarintCutShort(|s|, n);
      assert buf == h[..n];
    } else {
      UvarintRoundTrip(|s|, s[..n - |h|]);
      assert buf == h + s[..n - |h|];
    }
  }

  /** The fields after the key. */
  datatype Tail = Tail(value: Str, ts: int, tomb: bool)

  function PutTail(t: Tail): Str {
    PutString(t.value) + (PutVarint(t.ts) + [if t.tomb then 1 else 0])
  }

  function GetTail(buf: Str): (r: Parse<Tail>)
    ensures r.Parsed? ==> 1 <= r.size <= |buf|
  {
    var v := GetString(buf);
    if v.Stop? then Stop
    else if v.Panic? then Panic
    else
      var t := GetVarint(buf[v.size..]);
      if t.None? then Stop
      else
        var end := v.size + t.value.size;
        if end >= |buf| then Stop
        else Parsed(Tail(v.item, t.value.value, buf[end] == 1), end + 1)
  }

  lemma TailRoundTrip(t: Tail, rest: Str)
    requires |t.value| < TWO_63 && IsInt64(t.ts)
    ensures GetTail(PutTail(t) + rest) == Parsed(t, |PutTail(t)|)
  {
    var flag := [if t.tomb then 1 else 0];
    var buf := PutTail(t) + rest;
    StringRoundTrip(t.value, PutVarint(t.ts) + (flag + rest));
    VarintRoundTrip(t.ts, flag + rest);
    assert buf == PutString(t.value) + (PutVarint(t.ts) + (flag + rest));
    assert buf[|PutString(t.value)|..] == PutVarint(t.ts) + (flag + rest);
  }

  lemma TailCutShort(t: Tail, n: nat)
    requires |t.value| < TWO_63 && IsInt64(t.ts) && n < |PutTail(t)|
    ensures GetTail(PutTail(t)[..n]) == Stop
  {
    var s, v := PutString(t.value), PutVarint(t.ts);
    var buf := PutTail(t)[..n];
    if n < |s| {
      StringCutShort(t.value, n);
      assert buf == s[..n];
    } else {
      var m := n - |s|;
      StringRoundTrip(t.value, (v + [if t.tomb then 1 else 0])[..m]);
      assert buf == s + (v + [if t.tomb then 1 else 0])[..m];
      assert buf[|s|..] == v[..m];
      if m < |v| {
        VarintCutShort(t.ts, m);
      } else {
        VarintRoundTrip(t.ts, []);
        assert v[..m] == v + [];
      }
    }
  }

  function TailOf(e: Entry): Tail {
    Tail(e.value, e.ts, e.tomb)
  }

  function PutFields(e: Entry): Str {
    PutString(e.key) + PutTail(TailOf(e))
  }

  function GetFields(buf: Str): (r: Parse<Entry>)
    ensures r.Parsed? ==> 1 <= r.size <= |buf|
  {
    var k := GetString(buf);
    if k.Stop? then Stop
    else if k.Panic? then Panic
    else
      var t := GetTail(buf[k.size..]);
      if t.Stop? then Stop
      else if t.Panic? then Panic
      else Parsed(Entry(k.item, t.item.value, t.item.ts, t.item.tomb), k.size + t.size)
  }

  /** An entry a Go process can hold: string lengths fit an int, the timestamp 64 bits. */
  predicate Storable(e: Entry) {
    |e.key| < TWO_63 && |e.value| < TWO_63 && IsInt64(e.ts)
  }

  /** An entry is read back from its fields, whatever follows them. */
  lemma FieldsRoundTrip(e: Entry, rest: Str)
    requires Storable(e)
    ensures GetFields(PutFields(e) + rest) == Parsed(e, |PutFields(e)|)
  {
    var buf := PutFields(e) + rest;
    StringRoundTrip(e.key, PutTail(TailOf(e)) + rest);
    TailRoundTrip(TailOf(e), rest);
    assert buf == PutString(e.key) + (PutTail(TailOf(e)) + rest);
    assert buf[|PutString(e.key)|..] == PutTail(TailOf(e)) + rest;
  }

  /** No proper prefix of an entry's fields reads as an entry. */
  lemma FieldsCutShort(e: Entry, n: nat)
    requires Storable(e) && n < |PutFields(e)|
    ensures GetFields(PutFields(e)[..n]) == Stop
  {
    var s := PutString(e.key);
    var buf := PutFields(e)[..n];
    if n < |s| {
      StringCutShort(e.key, n);
      assert buf == s[..n];
    } else {
      var rest := PutTail(TailOf(e))[..n - |s|];
      StringRoundTrip(e.key, rest);
      TailCutShort(TailOf(e), n - |s|);
      assert buf == s + rest && buf[|s|..] == rest;
    }
  }

  // ----- one byte changed -----

  /** The entries differ in one byte of the key or of the value. */
  ghost predicate Scratched(e: Entry, f: Entry) {
    (f == e.(key := f.key) && OneOff(e.key, f.key)) || (f == e.(value := f.value) && OneOff(e.value, f.value))
  }

  /** Then so do their fields. */
  lemma ScratchedFields(e: Entry, f: Entry)
    requires Scratched(e, f)
    ensures OneOff(PutFields(e), PutFields(f))
  {
    hide PutUvarint, OneOff, Zigzag;
    var k, v := PutUvarint(|e.key|), PutUvarint(|e.value|);
    var ends := PutVarint(e.ts) + [if e.tomb then 1 else 0];
    SameLength(e, f);
    if f == e.(key := f.key) && OneOff(e.key, f.key) {
      OneOffInside(k, e.key, f.key, PutTail(TailOf(e)));
    } else {
      OneOffInside(k + e.key + v, e.value, f.value, ends);
      assert PutFields(e) == k + e.key + v + e.value + ends;
      assert PutFields(f) == k + e.key + v + f.value + ends;
    }
  }

  lemma SameLength(e: Entry, f: Entry)
    requires Scratched(e, f)
    ensures |f.key| == |e.key| && |f.value| == |e.value| && f.ts == e.ts && f.tomb == e.tomb
    ensures Storable(e) ==> Storable(f)
  {
  }
}
