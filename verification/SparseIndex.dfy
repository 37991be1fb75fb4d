/** The sparse index: every step-th key of a table with the offset of its record. */
module SparseIndex {
  import opened Bytes

  datatype IndexEntry = IndexEntry(key: Str, offset: int)

  const DEFAULT_STEP := 128

  function StepOf(step: int): (r: nat)
    ensures r > 0
  {
    if step <= 0 then DEFAULT_STEP else step
  }

  ghost predicate SortedIndex(es: seq<IndexEntry>) {
    forall i, j :: 0 <= i < j < |es| ==> Less(es[i].key, es[j].key)
  }

  /** sort.Search for the first entry whose key is not below `key`, between `i` and `j`. */
  function Search(es: seq<IndexEntry>, key: Str, i: nat, j: nat): (r: nat)
    requires i <= j <= |es|
    ensures i <= r <= j
    decreases j - i
  {
    if i == j then i
    else
      var h := (i + j) / 2;
      if Less(es[h].key, key) then Search(es, key, h + 1, j) else Search(es, key, i, h)
  }

  lemma SearchHalves(es: seq<IndexEntry>, key: Str, i: nat, j: nat)
    requires i < j <= |es|
    ensures var h := (i + j) / 2;
      i <= h < j
      && Search(es, key, i, j) == if Less(es[h].key, key) then Search(es, key, h + 1, j) else Search(es, key, i, h)
  {
    hide Less;
  }

  lemma SearchEnds(es: seq<IndexEntry>, key: Str, i: nat)
    requires i <= |es|
    ensures Search(es, key, i, i) == i
  {
    hide Less;
  }

  /** Lookup: where to start scanning for `key`. */
  function Lookup(es: seq<IndexEntry>, key: Str): int {
    if |es| == 0 then 0
    else
      var n := Search(es, key, 0, |es|);
      if n == |es| then es[|es| - 1].offset
      else if es[n].key == key then es[n].offset
      else if n == 0 then 0
      else es[n - 1].offset
  }

  lemma {:induction false} SearchSplits(es: seq<IndexEntry>, key: Str, i: nat, j: nat)
    requires SortedIndex(es) && i <= j <= |es|
    requires forall k :: 0 <= k < i ==> Less(es[k].key, key)
    requires forall k :: j <= k < |es| ==> !Less(es[k].key, key)
    ensures forall k :: 0 <= k < Search(es, key, i, j) ==> Less(es[k].key, key)
    ensures forall k :: Search(es, key, i, j) <= k < |es| ==> !Less(es[k].key, key)
    decreases j - i
  {
    if i < j {
      var h := (i + j) / 2;
      if Less(es[h].key, key) {
        forall k | 0 <= k < h ensures Less(es[k].key, key) {
          LessTransitive(es[k].key, es[h].key, key);
        }
        SearchSplits(es, key, h + 1, j);
      } else {
        forall k | h < k < |es| ensures !Less(es[k].key, key) {
          if Less(es[k].key, key) {
            LessTransitive(es[h].key, es[k].key, key);
          }
        }
        SearchSplits(es, key, i, h);
      }
    }
  }

  /** Lookup starts from the last sample not above the wanted key, or from the start of the table if there
      is none. */
  lemma LookupStartsBelow(es: seq<IndexEntry>, key: Str)
    requires SortedIndex(es)
    ensures if forall p :: 0 <= p < |es| ==> Less(key, es[p].key) then Lookup(es, key) == 0
            else exists p :: 0 <= p < |es| && LastBelow(es, key, p) && Lookup(es, key) == es[p].offset
  {
    SearchSplits(es, key, 0, |es|);
    var n := Search(es, key, 0, |es|);
    LessIrreflexive(key);
    forall i | n <= i < |es| ensures es[i].key == key || Less(key, es[i].key) {
      LessTotal(es[i].key, key);
    }
    if n < |es| && es[n].key == key {
      assert LastBelow(es, key, n);
    } else if n > 0 {
      LessAsymmetric(es[n - 1].key, key);
      assert LastBelow(es, key, n - 1);
    }
  }

  /** The sample is not above the key, and every later one is. */
  ghost predicate LastBelow(es: seq<IndexEntry>, key: Str, p: nat) {
    p < |es| && AtMost(es[p].key, key) && forall q :: p < q < |es| ==> Less(key, es[q].key)
  }

  class Index {
    var entries: seq<IndexEntry>
    var step: nat

    ghost predicate Valid()
      reads this
    {
      step > 0
    }

    constructor New(step: int)
      ensures Valid() && entries == [] && this.step == StepOf(step)
    {
      entries := [];
      this.step := StepOf(step);
    }

    predicate ShouldIndex(count: int)
      requires Valid()
      reads this
    {
      count >= 0 && count % step == 0
    }

    method Add(key: Str, offset: int)
      modifies this
      ensures entries == old(entries) + [IndexEntry(key, offset)] && step == old(step)
    {
      entries := entries + [IndexEntry(key, offset)];
    }

    method Find(key: Str) returns (offset: int)
      ensures offset == Lookup(entries, key)
    {
      hide Less, Search;
      if |entries| == 0 {
        return 0;
      }
      var i, j := 0, |entries|;
      while i < j
        invariant i <= j <= |entries|
        invariant Search(entries, key, i, j) == Search(entries, key, 0, |entries|)
      {
        SearchHalves(entries, key, i, j);
        var h := (i + j) / 2;
        if Less(entries[h].key, key) {
          i := h + 1;
        } else {
          j := h;
        }
      }
      SearchEnds(entries, key, i);
      if i == |entries| {
        return entries[|entries| - 1].offset;
      }
      if entries[i].key == key {
        return entries[i].offset;
      }
      if i == 0 {
        return 0;
      }
      return entries[i - 1].offset;
    }
  }
}
