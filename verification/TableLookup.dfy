/** Point lookup in a sorted table: filter, sparse index and forward scan against a linear search
    of the entries the table was written from. */
module TableLookup {
  import opened Bytes
  import opened Entries
  import opened Versions
  import opened Records
  import opened SparseIndex
  import opened TableFormat
  import Bloom

  datatype Probe = Found(entry: Entry) | Missing | Panicked

  /** SSTable.Get's scan. It stops at the first greater key, but not at the end of the data
      block. */
  function Scan(buf: Str, key: Str): Probe
    decreases |buf|
  {
    if buf == [] then Missing
    else
      var k := GetString(buf);
      if k.Stop? then Missing
      else if k.Panic? then Panicked
      else if Less(key, k.item) then Missing
      else
        var t := GetTail(buf[k.size..]);
        if t.Stop? then Missing
        else if t.Panic? then Panicked
        else
          var rest := buf[k.size + t.size..];
          if |rest| < 4 then Missing
          else if k.item == key then Found(Entry(k.item, t.item.value, t.item.ts, t.item.tomb))
          else Scan(rest[4..], key)
  }

  predicate Admits(t: SSTable, key: Str) {
    t.filter.Some? && Bloom.WellFormed(t.filter.value) ==> Bloom.MayContain(t.filter.value, key)
  }

  /** SSTable.Get. */
  function Get(t: SSTable, key: Str): Probe {
    if !Admits(t, key) then Missing
    else
      var offset := Lookup(t.index.entries, key);
      if 0 <= offset <= |t.data| then Scan(t.data[offset..], key) else Panicked
  }

  /** Linear search. */
  function FindKey(es: seq<Entry>, key: Str): (r: Option<Entry>)
    ensures r.Some? ==> r.value in es && r.value.key == key
    ensures r.None? ==> forall e :: e in es ==> e.key != key
  {
    if es == [] then None
    else if es[0].key == key then Some(es[0])
    else FindKey(es[1..], key)
  }

  /** Every key of the run is below `key`. */
  ghost predicate AllBelow(es: seq<Entry>, key: Str) {
    forall e :: e in es ==> Less(e.key, key)
  }

  /** What a lookup is worth: linear search, except that a scan for a key above the last one runs
      on into the bytes behind the data block. */
  ghost function Expected(es: seq<Entry>, behind: Str, key: Str): Probe {
    var r := FindKey(es, key);
    if r.Some? then Found(r.value)
    else if AllBelow(es, key) then Scan(behind, key)
    else Missing
  }

  lemma ScanOne(e: Entry, rest: Str, key: Str)
    requires Storable(e)
    ensures Scan(Record(e) + rest, key)
         == if Less(key, e.key) then Missing else if e.key == key then Found(e) else Scan(rest, key)
  {
    hide PutString, GetString, PutTail, GetTail, Varint.PutFixed, Crc32.ChecksumNumber;
    var k, t := PutString(e.key), PutTail(TailOf(e));
    var c := Varint.PutFixed(Crc32.ChecksumNumber(PutFields(e)), 4);
    var buf := Record(e) + rest;
    StringRoundTrip(e.key, t + (c + rest));
    TailRoundTrip(TailOf(e), c + rest);
    assert buf == k + (t + (c + rest));
    assert buf[|k|..] == t + (c + rest);
    assert buf[|k| + |t|..] == c + rest;
    assert (c + rest)[4..] == rest;
  }

  lemma {:induction false} ScanFinds(es: seq<Entry>, behind: Str, key: Str)
    requires Sorted(es) && AllStorable(es)
    ensures Scan(Data(es) + behind, key) == Expected(es, behind, key)
    decreases |es|
  {
    hide Record, Scan, Storable;
    if es == [] {
      assert Data(es) + behind == behind;
    } else {
      var e, rest := es[0], es[1..];
      assert Data(es) + behind == Record(e) + (Data(rest) + behind);
      ScanOne(e, Data(rest) + behind, key);
      ScanFinds(rest, behind, key);
      LessTotal(e.key, key);
      assert es == [e] + rest;
      if Less(key, e.key) {
        NoneBelow(es, key);
      } else if e.key != key {
        assert AllBelow(es, key) <==> AllBelow(rest, key);
      }
    }
  }

  lemma NoneBelow(es: seq<Entry>, key: Str)
    requires Sorted(es) && es != [] && Less(key, es[0].key)
    ensures FindKey(es, key).None? && !AllBelow(es, key)
  {
    LessAsymmetric(key, es[0].key);
    assert es[0] in es;
    forall e | e in es ensures e.key != key {
      var i :| 0 <= i < |es| && es[i] == e;
      if i > 0 {
        LessTransitive(key, es[0].key, e.key);
      }
      LessAsymmetric(key, e.key);
    }
  }

  /** The table Open makes of the file Close wrote for these entries. */
  function Written(es: seq<Entry>, step: nat, expected: nat): SSTable
    requires step > 0
  {
    SSTable(FileBytes(es, step, expected), |Data(es)|, IndexValue(step, Samples(es, step)),
            Some(FilterOf(es, expected)))
  }

  /** What is behind the data block of the file. */
  function Behind(es: seq<Entry>, step: nat, expected: nat): Str
    requires step > 0
  {
    SamplesIndexable(es, step);
    var i := PutIndex(step, Samples(es, step));
    i + Bloom.PutFilter(FilterOf(es, expected))
      + Footer(|Data(es)|, |Data(es)| + |i|, Crc32.ChecksumNumber(Data(es)))
  }

  lemma {:induction false} SamplesIndexable(es: seq<Entry>, step: nat)
    requires step > 0
    ensures forall x :: x in Samples(es, step) ==> 0 <= x.offset <= |Data(es)|
    ensures forall x :: x in Samples(es, step) ==> exists e :: e in es && e.key == x.key
    ensures |Samples(es, step)| <= |es|
    decreases |es|
  {
    hide Record;
    if es != [] {
      var n := |es| - 1;
      SamplesIndexable(es[..n], step);
      assert es == es[..n] + [es[n]];
      DataAppend(es[..n], [es[n]]);
    }
  }

  /** The file: data block, index block, filter block, footer. */
  function FileBytes(es: seq<Entry>, step: nat, expected: nat): Str
    requires step > 0
  {
    SamplesIndexable(es, step);
    Assemble(Data(es), PutIndex(step, Samples(es, step)), Bloom.PutFilter(FilterOf(es, expected)))
  }

  lemma FileSplits(es: seq<Entry>, step: nat, expected: nat)
    requires step > 0
    ensures FileBytes(es, step, expected) == Data(es) + Behind(es, step, expected)
  {
    hide Data, PutIndex, Bloom.PutFilter, Footer, FilterOf, Crc32.ChecksumNumber, Samples;
    SamplesIndexable(es, step);
  }

  /** Lookup starts at a record that no wanted entry precedes. */
  lemma StartIsSafe(es: seq<Entry>, step: nat, key: Str) returns (i: nat)
    requires step > 0 && Sorted(es)
    ensures i <= |es| && Lookup(Samples(es, step), key) == |Data(es[..i])|
    ensures forall j :: 0 <= j < i ==> Less(es[j].key, key)
  {
    hide Samples, Lookup, Data;
    var idx := Samples(es, step);
    SamplesSound(es, step);
    i := 0;
    DataOfNothing();
    assert es[..0] == [];
    LookupStartsBelow(idx, key);
    if Lookup(idx, key) != 0 {
      var p :| 0 <= p < |idx| && LastBelow(idx, key, p) && Lookup(idx, key) == idx[p].offset;
      assert idx[p] in idx;
      i :| 0 <= i < |es| && SampleOf(idx[p], es, i);
      forall j | 0 <= j < i ensures Less(es[j].key, key) {
        if idx[p].key != key {
          LessTransitive(es[j].key, es[i].key, key);
        }
      }
    }
  }

  lemma DataOfNothing()
    ensures Data([]) == []
  {
  }

  lemma SampleOfOne(e: Entry)
    ensures Samples([e], STEP) == [IndexEntry(e.key, 0)]
  {
    DataOfNothing();
    assert [e][..0] == [];
    assert Samples([], STEP) == [];
  }

  lemma SkipBelow(es: seq<Entry>, i: nat, behind: Str, key: Str)
    requires i <= |es| && forall j :: 0 <= j < i ==> Less(es[j].key, key)
    ensures Expected(es[i..], behind, key) == Expected(es, behind, key)
    decreases i
  {
    hide Scan;
    if i > 0 {
      LessAsymmetric(es[0].key, key);
      assert es == [es[0]] + es[1..];
      assert es[i..] == es[1..][i - 1..];
      assert AllBelow(es, key) <==> AllBelow(es[1..], key);
      SkipBelow(es[1..], i - 1, behind, key);
    }
  }

  /** Filter, index and scan on a written table: exactly linear search for every key up to the last
      one, and for a key above it whatever the bytes behind the data block happen to scan as. */
  lemma GetFinds(es: seq<Entry>, step: nat, expected: nat, key: Str)
    requires step > 0 && Sorted(es) && AllStorable(es)
    ensures Get(Written(es, step, expected), key)
         == if Admits(Written(es, step, expected), key) then Expected(es, Behind(es, step, expected), key)
            else Missing
    ensures FindKey(es, key).Some? ==> Admits(Written(es, step, expected), key)
  {
    hide Samples, Lookup, Data, Scan, FileBytes, Behind, FilterOf, Storable, Expected;
    hide Bloom.WellFormed, Bloom.MayContain;
    var t := Written(es, step, expected);
    FileSplits(es, step, expected);
    var behind := Behind(es, step, expected);
    var i := StartIsSafe(es, step, key);
    DataAppend(es[..i], es[i..]);
    assert es[..i] + es[i..] == es;
    assert t.data[|Data(es[..i])|..] == Data(es[i..]) + behind;
    assert forall e :: e in es[i..] ==> e in es;
    ScanFinds(es[i..], behind, key);
    SkipBelow(es, i, behind, key);
    PresentIsAdmitted(es, expected, key);
  }

  lemma PresentIsAdmitted(es: seq<Entry>, expected: nat, key: Str)
    ensures FindKey(es, key).Some? ==> Bloom.MayContain(FilterOf(es, expected), key)
  {
    hide Bloom.WellFormed, Bloom.MayContain, Bloom.Empty, Bloom.AddedAll;
    var r := FindKey(es, key);
    if r.Some? {
      var i :| 0 <= i < |es| && es[i] == r.value;
      assert Keys(es)[i] == key;
      Bloom.EmptyIsWellFormed(expected, BITS_PER_KEY);
      Bloom.NoFalseNegatives(Bloom.Empty(expected, BITS_PER_KEY), Keys(es), key);
    }
  }

  // ----- behind the data block -----

  /** One piece of what any bytes parse as, read record by record: a whole record, a record whose
      fields behind the key are cut, or panic, or a key that panics. */
  datatype Piece = Whole(entry: Entry) | Cut(key: Str) | Broken(key: Str) | Unreadable

  /** What the bytes parse as, up to the first piece that is no whole record. No key is asked for. */
  function Pieces(buf: Str): seq<Piece>
    decreases |buf|
  {
    var k := GetString(buf);
    if buf == [] || k.Stop? then []
    else if k.Panic? then [Unreadable]
    else
      var t := GetTail(buf[k.size..]);
      if t.Panic? then [Broken(k.item)]
      else if t.Stop? || |buf| < k.size + t.size + 4 then [Cut(k.item)]
      else
        [Whole(Entry(k.item, t.item.value, t.item.ts, t.item.tomb))] + Pieces(buf[k.size + t.size + 4..])
  }

  /** The records before the i-th piece are whole and have keys below `key`. */
  ghost predicate Leads(ps: seq<Piece>, key: Str, i: nat)
    requires i <= |ps|
  {
    forall j :: 0 <= j < i ==> ps[j].Whole? && Less(ps[j].entry.key, key)
  }

  /** The piece answers a scan for `key` with something: it is a record of that key, or it panics
      before its key is seen to be greater. */
  ghost predicate Bites(p: Piece, key: Str) {
    match p
    case Whole(e) => e.key == key
    case Cut(_) => false
    case Broken(k) => !Less(key, k)
    case Unreadable => true
  }

  /** The first piece a scan for `key` does not pass over answers it. */
  ghost predicate Strays(ps: seq<Piece>, key: Str) {
    exists i :: 0 <= i < |ps| && Leads(ps, key, i) && Bites(ps[i], key)
  }

  lemma StraysFirst(ps: seq<Piece>, key: Str)
    requires ps != []
    ensures Strays(ps, key)
       <==> (Bites(ps[0], key) || (ps[0].Whole? && Less(ps[0].entry.key, key) && Strays(ps[1..], key)))
  {
    hide Bites;
    if Bites(ps[0], key) {
      assert Leads(ps, key, 0);
    }
    if ps[0].Whole? && Less(ps[0].entry.key, key) && Strays(ps[1..], key) {
      var i :| 0 <= i < |ps[1..]| && Leads(ps[1..], key, i) && Bites(ps[1..][i], key);
      assert forall j :: 0 < j < i + 1 ==> ps[j] == ps[1..][j - 1];
      assert Leads(ps, key, i + 1) && ps[i + 1] == ps[1..][i];
    }
    if Strays(ps, key) && !Bites(ps[0], key) {
      var i :| 0 <= i < |ps| && Leads(ps, key, i) && Bites(ps[i], key);
      assert forall j :: 0 <= j < i - 1 ==> ps[1..][j] == ps[j + 1];
      assert Leads(ps[1..], key, i - 1) && ps[1..][i - 1] == ps[i];
    }
  }

  /** What a scan for `key` makes of the pieces. */
  function Bite(ps: seq<Piece>, key: Str): Probe {
    if ps == [] then Missing
    else
      match ps[0]
      case Whole(e) => if Less(e.key, key) then Bite(ps[1..], key) else if e.key == key then Found(e) else Missing
      case Cut(_) => Missing
      case Broken(k) => if Less(key, k) then Missing else Panicked
      case Unreadable => Panicked
  }

  lemma {:induction false} ScanBites(buf: Str, key: Str)
    ensures Scan(buf, key) == Bite(Pieces(buf), key)
    decreases |buf|
  {
    hide GetString, GetTail;
    LessIrreflexive(key);
    var ps := Pieces(buf);
    var k := GetString(buf);
    if buf != [] && k.Parsed? {
      var t := GetTail(buf[k.size..]);
      LessTotal(k.item, key);
      if Less(key, k.item) {
        LessAsymmetric(key, k.item);
      }
      if t.Parsed? && |buf| >= k.size + t.size + 4 {
        var rest := buf[k.size + t.size + 4..];
        assert buf[k.size + t.size..][4..] == rest;
        ScanBites(rest, key);
        assert ps[1..] == Pieces(rest);
      }
    }
  }

  lemma {:induction false} BiteStrays(ps: seq<Piece>, key: Str)
    ensures Bite(ps, key) == Missing <==> !Strays(ps, key)
  {
    hide Strays;
    LessIrreflexive(key);
    NothingStrays(key);
    if ps != [] {
      StraysFirst(ps, key);
      BiteStrays(ps[1..], key);
    }
  }

  /** A scan finds nothing exactly when no piece answers it. */
  lemma ScanMisses(buf: Str, key: Str)
    ensures Scan(buf, key) == Missing <==> !Strays(Pieces(buf), key)
  {
    hide Scan, Pieces, Strays;
    ScanBites(buf, key);
    BiteStrays(Pieces(buf), key);
  }

  lemma NothingStrays(key: Str)
    ensures !Strays([], key)
  {
  }

  /** What linear search of the entries gives. */
  function Searched(es: seq<Entry>, key: Str): Probe {
    var r := FindKey(es, key);
    if r.Some? then Found(r.value) else Missing
  }

  /** What the bytes behind the data block of a written table parse as. */
  function Trailing(es: seq<Entry>, step: nat, expected: nat): seq<Piece>
    requires step > 0
  {
    Pieces(Behind(es, step, expected))
  }

  /** A lookup is linear search exactly when the key is not above the last one, or the filter rejects
      it, or no piece of the bytes behind the data block answers it. */
  lemma GetIsSearch(es: seq<Entry>, step: nat, expected: nat, key: Str)
    requires step > 0 && Sorted(es) && AllStorable(es)
    ensures Get(Written(es, step, expected), key) == Searched(es, key)
       <==> (|| !AllBelow(es, key) || !Admits(Written(es, step, expected), key)
             || !Strays(Trailing(es, step, expected), key))
    ensures Get(Written(es, step, expected), key) != Searched(es, key) ==>
              FindKey(es, key).None? && Get(Written(es, step, expected), key) == Bite(Trailing(es, step, expected), key)
  {
    hide Written, Behind, Scan, Get, Storable, Admits, Pieces, Strays;
    GetFinds(es, step, expected, key);
    ScanBites(Behind(es, step, expected), key);
    ScanMisses(Behind(es, step, expected), key);
    var r := FindKey(es, key);
    if r.Some? {
      LessIrreflexive(key);
      assert !AllBelow(es, key);
    }
  }

  // ----- smallest and greatest reported key -----

  /** MinKey and MaxKey report sampled keys. */
  function MinKey(t: SSTable): Str {
    if t.index.entries == [] then [] else t.index.entries[0].key
  }

  function MaxKey(t: SSTable): Str {
    if t.index.entries == [] then [] else t.index.entries[|t.index.entries| - 1].key
  }

  /** MinKey is the smallest key. MaxKey is the greatest exactly when the last entry was sampled. */
  lemma ReportedKeys(es: seq<Entry>, step: nat, expected: nat)
    requires step > 0 && Sorted(es) && es != []
    ensures MinKey(Written(es, step, expected)) == es[0].key
    ensures MaxKey(Written(es, step, expected)) == es[|es| - 1].key <==> (|es| - 1) % step == 0
    ensures AtMost(MaxKey(Written(es, step, expected)), es[|es| - 1].key)
  {
    hide Data, FileBytes, FilterOf;
    SamplesSound(es, step);
    var n := |es| - 1;
    if n % step != 0 {
      var init := es[..n];
      assert n > 0;
      SamplesSound(init, step);
      var s := Samples(init, step);
      assert s[|s| - 1] in s;
      var i :| 0 <= i < |init| && SampleOf(s[|s| - 1], init, i);
      LessAsymmetric(es[i].key, es[n].key);
    }
  }
}
