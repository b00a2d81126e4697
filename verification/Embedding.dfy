/**
  Remote embedding: answers placed by index rather than by position, and long inputs split into batches.

  An answer names a position for each of its vectors, in any order. That it fills every position is a pigeonhole
  argument: as many vectors as positions, none out of range, and no position named twice.
*/
module Embedding {
  import opened Wrappers
  import opened Arithmetic
  import opened Ordering

  const MAX_CHARACTERS := 24000

  /** One entry of an answer: its index if it is an integer, and its vector if it passes the width and value checks. */
  datatype Item<V> = Item(index: Option<int>, vector: Option<V>)

  predicate Placeable<V>(item: Item<V>, n: nat) {
    item.index.Some? && 0 <= item.index.value < n && item.vector.Some?
  }

  ghost predicate AllPlaceable<V>(items: seq<Item<V>>, n: nat) {
    forall i :: 0 <= i < |items| ==> Placeable(items[i], n)
  }

  function Indices<V>(items: seq<Item<V>>, n: nat): (indices: seq<nat>)
    requires AllPlaceable(items, n)
    ensures |indices| == |items| && forall i :: 0 <= i < |items| ==> indices[i] == items[i].index.value < n
  {
    seq(|items|, i requires 0 <= i < |items| => items[i].index.value)
  }

  /** As many entries as inputs, each placeable, no index used twice. */
  ghost predicate Trustworthy<V>(items: seq<Item<V>>, n: nat) {
    |items| == n && AllPlaceable(items, n) && Distinct(Indices(items, n))
  }

  function Below(n: nat): (s: set<nat>)
    ensures |s| == n && forall i :: i in s <==> 0 <= i < n
  {
    if n == 0 then {} else Below(n - 1) + {n - 1}
  }

  lemma DistinctCovers(s: seq<nat>, n: nat)
    requires |s| == n && (forall x :: x in s ==> x < n) && Distinct(s)
    ensures Elements(s) == Below(n)
  {
    ElementsCount(s);
    if Elements(s) != Below(n) {
      var p :| p in Below(n) && p !in Elements(s);
      SubsetIsSmaller(Elements(s), Below(n) - {p});
    }
  }

  lemma CoveringIsDistinct(s: seq<nat>, n: nat)
    requires |s| == n && Elements(s) == Below(n)
    ensures Distinct(s)
  {
    ElementsCount(s);
  }

  /** The pigeonhole: `n` indices below `n` cover every position exactly when none repeats. */
  lemma CoversIffDistinct(s: seq<nat>, n: nat)
    requires |s| == n && forall x :: x in s ==> x < n
    ensures (forall p :: 0 <= p < n ==> p in s) <==> Distinct(s)
  {
    if Distinct(s) {
      DistinctCovers(s, n);
      forall p | 0 <= p < n
        ensures p in s
      {
        assert p in Below(n);
      }
    }
    if forall p :: 0 <= p < n ==> p in s {
      forall p: nat
        ensures p in Elements(s) <==> p in Below(n)
      {
      }
      CoveringIsDistinct(s, n);
    }
  }

  /** What has been written so far: each position holds the last entry placed there, or nothing. */
  ghost predicate Filled<V>(ordered: seq<Option<V>>, items: seq<Item<V>>, k: nat)
    requires k <= |items| && AllPlaceable(items[..k], |ordered|)
  {
    && (forall p :: 0 <= p < |ordered| ==>
          (ordered[p].Some? <==> exists i :: 0 <= i < k && items[i].index.value == p))
    && (forall p :: 0 <= p < |ordered| && ordered[p].Some? ==>
          exists i :: 0 <= i < k && items[i].index.value == p && items[i].vector == ordered[p])
  }

  /**
    One batch. The answer is used exactly when it is trustworthy, and then every vector stands at its own index:
    none was overwritten, although nothing here looks for repeated indices.
  */
  method EmbedBatch<V>(answer: Option<seq<Item<V>>>, n: nat) returns (vectors: Option<seq<V>>)
    ensures vectors.Some? <==> answer.Some? && Trustworthy(answer.value, n)
    ensures vectors.Some? ==> |vectors.value| == n
    ensures vectors.Some? ==> forall item :: item in answer.value ==>
      item.index.Some? && 0 <= item.index.value < n && item.vector == Some(vectors.value[item.index.value])
  {
    if answer.None? || |answer.value| != n {
      return None;
    }
    var items := answer.value;
    var ordered := new Option<V>[n](_ => None);
    for k := 0 to n
      invariant AllPlaceable(items[..k], n) && Filled(ordered[..], items, k)
    {
      if !Placeable(items[k], n) {
        return None;
      }
      ghost var before := ordered[..];
      ordered[items[k].index.value] := items[k].vector;
      FilledGrows(before, items, k);
      assert ordered[..] == before[items[k].index.value := items[k].vector];
    }
    assert items[..n] == items;
    CoversIffDistinct(Indices(items, n), n);
    ghost var all := ordered[..];
    FilledCovers(all, items);
    for p := 0 to n
      invariant forall q :: 0 <= q < p ==> ordered[q].Some?
      invariant ordered[..] == all
    {
      if ordered[p].None? {
        assert all[p].None?;
        return None;
      }
    }
    assert forall p :: 0 <= p < n ==> all[p].Some?;
    vectors := Some(
      seq(n, p requires 0 <= p < n && p < ordered.Length && ordered[p].Some? reads ordered => ordered[p].value));
    FilledIsPlaced(all, items, vectors.value);
  }

  lemma FilledGrows<V>(ordered: seq<Option<V>>, items: seq<Item<V>>, k: nat)
    requires k < |items| && AllPlaceable(items[..k], |ordered|) && Filled(ordered, items, k)
    requires Placeable(items[k], |ordered|)
    ensures AllPlaceable(items[..k + 1], |ordered|)
    ensures Filled(ordered[items[k].index.value := items[k].vector], items, k + 1)
  {
    var q := items[k].index.value;
    var after := ordered[q := items[k].vector];
    assert items[..k + 1] == items[..k] + [items[k]];
    forall p | 0 <= p < |after|
      ensures after[p].Some? <==> exists i :: 0 <= i < k + 1 && items[i].index.value == p
      ensures after[p].Some? ==> exists i :: 0 <= i < k + 1 && items[i].index.value == p && items[i].vector == after[p]
    {
      if p == q {
        assert items[k].index.value == p && items[k].vector == after[p];
      } else if ordered[p].Some? {
        var i :| 0 <= i < k && items[i].index.value == p && items[i].vector == ordered[p];
      }
    }
  }

  lemma FilledCovers<V>(ordered: seq<Option<V>>, items: seq<Item<V>>)
    requires |items| == |ordered| && AllPlaceable(items, |ordered|) && items[..|items|] == items
    requires Filled(ordered, items, |items|)
    ensures (forall p :: 0 <= p < |ordered| ==> ordered[p].Some?)
       <==> forall p :: 0 <= p < |ordered| ==> p in Indices(items, |ordered|)
  {
    var indices := Indices(items, |ordered|);
    forall p | 0 <= p < |ordered|
      ensures ordered[p].Some? <==> p in indices
    {
      if ordered[p].Some? {
        var i :| 0 <= i < |items| && items[i].index.value == p;
        assert indices[i] == p;
      }
      if p in indices {
        var i :| 0 <= i < |indices| && indices[i] == p;
        assert items[i].index.value == p;
      }
    }
  }

  lemma FilledIsPlaced<V>(ordered: seq<Option<V>>, items: seq<Item<V>>, vectors: seq<V>)
    requires |items| == |ordered| == |vectors| && Trustworthy(items, |ordered|) && items[..|items|] == items
    requires Filled(ordered, items, |items|)
    requires forall p :: 0 <= p < |ordered| ==> ordered[p] == Some(vectors[p])
    ensures forall item :: item in items ==>
      item.index.Some? && 0 <= item.index.value < |ordered| && item.vector == Some(vectors[item.index.value])
  {
    forall item | item in items
      ensures Placeable(item, |ordered|) && item.vector == Some(vectors[item.index.value])
    {
      var i :| 0 <= i < |items| && items[i] == item;
      var p := item.index.value;
      assert ordered[p].Some?;
      var j :| 0 <= j < |items| && items[j].index.value == p && items[j].vector == ordered[p];
      OneEntryEach(items, |ordered|, i, j);
    }
  }

  lemma OneEntryEach<V>(items: seq<Item<V>>, n: nat, i: nat, j: nat)
    requires Trustworthy(items, n) && i < |items| && j < |items| && items[i].index == items[j].index
    ensures i == j
  {
    if i < j { DistinctIndices(Indices(items, n), i, j); } else if j < i { DistinctIndices(Indices(items, n), j, i); }
  }

  // ---- Batches ----------------------------------------------------------------------------

  function Cut(text: string): string {
    if |text| <= MAX_CHARACTERS then text else text[..MAX_CHARACTERS]
  }

  function CutAll(texts: seq<string>): (cut: seq<string>)
    ensures |cut| == |texts| && forall i :: 0 <= i < |texts| ==> cut[i] == Cut(texts[i])
  {
    seq(|texts|, i requires 0 <= i < |texts| => Cut(texts[i]))
  }

  /** A provider that embeds each input on its own, and answers in whatever order it likes. */
  ghost predicate Independent<V(!new)>(provider: seq<string> -> Option<seq<Item<V>>>, embed: string -> V) {
    forall window :: Faithful(provider(window), window, embed)
  }

  ghost predicate Faithful<V>(answer: Option<seq<Item<V>>>, window: seq<string>, embed: string -> V) {
    answer.Some? && Trustworthy(answer.value, |window|) && forall item :: item in answer.value ==>
      item.vector == Some(embed(window[item.index.value]))
  }

  lemma FaithfulIsMapped<V>(
    answer: Option<seq<Item<V>>>, window: seq<string>, embed: string -> V, vectors: seq<V>)
    requires Faithful(answer, window, embed) && |vectors| == |window|
    requires forall item :: item in answer.value ==>
      item.index.Some? && 0 <= item.index.value < |window| && item.vector == Some(vectors[item.index.value])
    ensures forall p :: 0 <= p < |window| ==> vectors[p] == embed(window[p])
  {
    var items := answer.value;
    CoversIffDistinct(Indices(items, |window|), |window|);
    forall p | 0 <= p < |window|
      ensures vectors[p] == embed(window[p])
    {
      assert p in Indices(items, |window|);
      var i :| 0 <= i < |items| && Indices(items, |window|)[i] == p;
      assert items[i] in items;
    }
  }

  lemma IndependentAnswers<V(!new)>(
    provider: seq<string> -> Option<seq<Item<V>>>, embed: string -> V, window: seq<string>)
    requires Independent(provider, embed)
    ensures Faithful(provider(window), window, embed)
    ensures provider(window).Some? && Trustworthy(provider(window).value, |window|)
  {
  }

  /**
    Embed any number of texts in batches. One vector per text, or a refusal; with an independent provider the result
    is the embedding of each text, whatever the batch size.
  */
  method EmbedText<V(!new)>(texts: seq<string>, batch: nat, provider: seq<string> -> Option<seq<Item<V>>>)
    returns (vectors: Option<seq<V>>)
    requires batch >= 1
    ensures vectors.Some? ==> |vectors.value| == |texts|
    ensures forall embed: string -> V :: Independent(provider, embed) ==>
      vectors.Some? && forall p :: 0 <= p < |texts| ==> vectors.value[p] == embed(Cut(texts[p]))
  {
    hide Independent, Faithful, Trustworthy, Cut;
    var done: seq<V> := [];
    var start := 0;
    while start < |texts|
      invariant start == |done| <= |texts|
      invariant forall embed: string -> V :: Independent(provider, embed) ==>
        forall p :: 0 <= p < start ==> done[p] == embed(Cut(texts[p]))
    {
      var end := Min(start + batch, |texts|);
      var window := CutAll(texts[start..end]);
      var answer := provider(window);
      var placed := EmbedBatch(answer, |window|);
      if placed.None? {
        forall embed: string -> V | Independent(provider, embed)
          ensures false
        {
          IndependentAnswers(provider, embed, window);
        }
        return None;
      }
      forall embed: string -> V | Independent(provider, embed)
        ensures forall p :: 0 <= p < |window| ==> placed.value[p] == embed(window[p])
      {
        IndependentAnswers(provider, embed, window);
        FaithfulIsMapped(answer, window, embed, placed.value);
      }
      assert forall p :: start <= p < end ==> window[p - start] == Cut(texts[p]);
      done := done + placed.value;
      start := end;
    }
    return Some(done);
  }
}
