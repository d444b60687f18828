/** The emotion-score dictionary one face detection produces, kept as its
    ordered list of items (Python dictionaries iterate in insertion order),
    and Python's `max(d, key=d.get)` over it. */
module Scores {
  import opened Wrappers

  /** One `(key, score)` item of the dictionary. */
  type Entry = (string, real)

  predicate DistinctKeys(items: seq<Entry>) {
    forall i, j :: 0 <= i < j < |items| ==> items[i].0 != items[j].0
  }

  /** A Python dictionary of emotion scores: its items in iteration order,
      each key at most once. */
  type Emotions = items: seq<Entry> | DistinctKeys(items) witness []

  /** The map formed by the first `n` items of the dictionary, built the
      way the dictionary was: one insertion per item. */
  function PrefixMap(items: Emotions, n: nat): map<string, real>
    requires n <= |items|
  {
    if n == 0 then map[] else PrefixMap(items, n - 1)[items[n - 1].0 := items[n - 1].1]
  }

  /** The dictionary as a map from key to score. */
  function AsMap(items: Emotions): map<string, real> {
    PrefixMap(items, |items|)
  }

  /** The keys of the first `n` items are exactly the labels they carry. */
  lemma {:induction false} PrefixMapKeys(items: Emotions, n: nat)
    requires n <= |items|
    ensures forall k :: k in PrefixMap(items, n) <==> exists i :: 0 <= i < n && items[i].0 == k
  {
    if n > 0 {
      PrefixMapKeys(items, n - 1);
      forall k | k in PrefixMap(items, n)
        ensures exists i :: 0 <= i < n && items[i].0 == k
      {
        if k != items[n - 1].0 {
          assert k in PrefixMap(items, n - 1);
          var i :| 0 <= i < n - 1 && items[i].0 == k;
          assert 0 <= i < n && items[i].0 == k;
        }
      }
    }
  }

  /** Each of the first `n` items is found in their map with its own score. */
  lemma {:induction false} PrefixMapValues(items: Emotions, n: nat)
    requires n <= |items|
    ensures forall i :: 0 <= i < n ==> items[i].0 in PrefixMap(items, n)
    ensures forall i :: 0 <= i < n ==> PrefixMap(items, n)[items[i].0] == items[i].1
  {
    if n > 0 {
      PrefixMapValues(items, n - 1);
      forall i | 0 <= i < n - 1
        ensures items[i].0 != items[n - 1].0
      {
      }
    }
  }

  /** The dictionary's map holds exactly its items. */
  lemma AsMapContents(items: Emotions)
    ensures forall k :: k in AsMap(items) <==> exists i :: 0 <= i < |items| && items[i].0 == k
    ensures forall i :: 0 <= i < |items| ==> items[i].0 in AsMap(items) && AsMap(items)[items[i].0] == items[i].1
  {
    PrefixMapKeys(items, |items|);
    PrefixMapValues(items, |items|);
  }

  /** Reading item `i` after the items before it adds a key not seen so
      far, with its score, and nothing else. */
  lemma PrefixMapSnoc(items: Emotions, i: nat)
    requires i < |items|
    ensures items[i].0 !in PrefixMap(items, i)
    ensures PrefixMap(items, i + 1) == PrefixMap(items, i)[items[i].0 := items[i].1]
  {
    PrefixMapKeys(items, i);
  }

  /** Python's `max(d, key=d.get)` as an index: `max` keeps the current best
      and replaces it only on a strictly greater score, so the result is the
      FIRST item whose score is maximal. */
  function FirstMaxIndex(items: seq<Entry>): (i: nat)
    requires |items| > 0
    ensures i < |items|
    ensures forall j :: 0 <= j < |items| ==> items[j].1 <= items[i].1
    ensures forall j :: 0 <= j < i ==> items[j].1 < items[i].1
  {
    if |items| == 1 then 0
    else
      var best := FirstMaxIndex(items[..|items| - 1]);
      if items[|items| - 1].1 > items[best].1 then |items| - 1 else best
  }

  /** The dominant emotion: `max(d, key=d.get)`, or `None` where Python
      raises `ValueError` because the dictionary is empty. */
  function Dominant(items: Emotions): (r: Option<string>)
    ensures r.None? <==> |items| == 0
    ensures r.Some? ==> r.value in AsMap(items)
    ensures r.Some? ==> forall k :: k in AsMap(items) ==> AsMap(items)[k] <= AsMap(items)[r.value]
  {
    if |items| == 0 then None
    else
      AsMapContents(items);
      Some(items[FirstMaxIndex(items)].0)
  }
}
