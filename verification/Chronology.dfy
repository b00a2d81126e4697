/** What a chronological scan lists, and that the fused answer keeps its order: newest first. */
module Chronology {
  import opened Ordering
  import opened Fusion
  import opened FusionOrder
  import opened Executor

  // ---- The batch --------------------------------------------------------------------------------

  /** Newest first, and hits of one moment by identity. */
  predicate Newest(a: DateHit, b: DateHit) {
    if a.at != b.at then StringLeq(b.at, a.at) else StringLeq(a.block, b.block)
  }

  lemma NewestIsOrdered()
    ensures TotalOrder(Newest)
  {
    StringsAreOrdered();
    hide StringLeq;
    forall a: DateHit, b: DateHit
      ensures Newest(a, b) || Newest(b, a)
      ensures Tied(Newest, a, b) ==> a == b
    {
      assert Tied(StringLeq, a.at, b.at) ==> a.at == b.at;
      assert Tied(StringLeq, a.block, b.block) ==> a.block == b.block;
    }
    forall a: DateHit, b: DateHit, c: DateHit | Newest(a, b) && Newest(b, c)
      ensures Newest(a, c)
    {
      assert Tied(StringLeq, a.at, b.at) ==> a.at == b.at;
    }
  }

  lemma ByBlockCompares()
    ensures Comparison(ByBlock)
  {
    StringsAreOrdered();
    hide StringLeq;
  }

  /** Among hits that are not smaller by identity, both comparisons put a hit in the same place. */
  lemma {:induction false} InsertAlike(x: DateHit, s: seq<DateHit>)
    requires forall y :: y in s ==> ByBlock(x, y)
    ensures Insert(Newer, x, s) == Insert(Newest, x, s)
    decreases |s|
  {
    if s != [] {
      StringsAreOrdered();
      hide StringLeq;
      assert s[0] in s && ByBlock(x, s[0]);
      if x.at == s[0].at { assert StringLeq(x.at, x.at); }
      assert Newer(x, s[0]) == Newest(x, s[0]);
      InsertAlike(x, s[1..]);
    }
  }

  /** Sorting by date what is sorted by identity keeps identities in order within each date. */
  lemma {:induction false} SortAlike(s: seq<DateHit>)
    requires Sorted(ByBlock, s)
    ensures Sort(Newer, s) == Sort(Newest, s)
    decreases |s|
  {
    if s != [] {
      SortAlike(s[1..]);
      forall y | y in Sort(Newer, s[1..])
        ensures ByBlock(s[0], y)
      {
        SortHolds(Newer, s[1..], y);
      }
      InsertAlike(s[0], Sort(Newer, s[1..]));
    }
  }

  /** The two stable sorts are one sort, newest first and by identity, whatever the order the modules answered in. */
  lemma ChronologicalIsSorted(dated: seq<DateHit>)
    ensures Chronological(dated) == Sort(Newest, dated)
    ensures Sorted(Newest, Chronological(dated)) && multiset(Chronological(dated)) == multiset(dated)
  {
    hide Sort, Sorted;
    ByBlockCompares();
    SortSorts(ByBlock, dated);
    SortPermutes(ByBlock, dated);
    SortAlike(Sort(ByBlock, dated));
    NewestIsOrdered();
    SortForgetsOrder(Newest, Sort(ByBlock, dated), dated);
    SortSorts(Newest, dated);
    SortPermutes(Newest, dated);
  }

  /** Later hits are never newer, and hits of one moment go by identity. */
  lemma LaterHitsAreNotNewer(dated: seq<DateHit>, i: nat, j: nat)
    requires i < j < |DateBatch(dated).hits|
    ensures
      var a, b := Chronological(dated)[i], Chronological(dated)[j];
      && DateBatch(dated).hits[i].block == a.block && DateBatch(dated).hits[j].block == b.block
      && StringLeq(b.at, a.at) && (a.at == b.at ==> StringLeq(a.block, b.block))
  {
    ChronologicalIsSorted(dated);
    hide Sort, Sorted;
    SortedPair(Newest, Chronological(dated), i, j);
    StringTotal(Chronological(dated)[i].at, Chronological(dated)[i].at);
  }

  // ---- The fused answer of a date query ------------------------------------------------------------

  lemma {:induction false} SaidAt(b: Batch, n: nat, id: string, o: Opinion)
    requires n <= |b.hits| && o in SaidFirst(b, n, id)
    ensures 1 <= o.rank <= n && b.hits[o.rank - 1].block == id && o == OpinionAt(b, o.rank - 1)
  {
    if o in SaidFirst(b, n - 1, id) {
      SaidAt(b, n - 1, id, o);
    }
  }

  lemma OneOrigin(e: Evidence, g: string)
    requires Credited(e) && e.ranks.Keys == {g}
    ensures e.origins == [g]
  {
    assert g in e.ranks && forall h :: h in e.ranks ==> h == g by {
      assert forall h :: h in e.ranks <==> h in e.ranks.Keys;
    }
    assert g in e.origins;
    forall i | 0 <= i < |e.origins|
      ensures e.origins[i] == g
    {
      assert e.origins[i] in e.origins;
    }
    if |e.origins| > 1 {
      DistinctIndices(e.origins, 0, 1);
    }
  }

  /** What the scan alone leaves of a block: one opinion counts, at a place where the block stands. */
  lemma DatedCandidate(dated: seq<DateHit>, id: string) returns (i: nat)
    requires id in HeardAll(map[], [DateBatch(dated)])
    ensures i < |Chronological(dated)| && Chronological(dated)[i].block == id
    ensures OnlyBy(HeardAll(map[], [DateBatch(dated)])[id], "DateScan", i + 1, 0)
  {
    hide HeardAll, Weighed, Chronological;
    var b := DateBatch(dated);
    HeardAllWeighs([b], id);
    SaidOne(b, id);
    var said := Said([b], id);
    WeighedSummarizes(said);
    var e := HeardAll(map[], [b])[id];
    forall o | o in said
      ensures o.generator == "DateScan" && o.depth == 0 && !o.exact && 1 <= o.rank <= |b.hits|
      ensures b.hits[o.rank - 1].block == id
    {
      SaidAt(b, |b.hits|, id, o);
    }
    assert said[0] in said;
    assert e.ranks.Keys == {"DateScan"};
    OneOrigin(e, "DateScan");
    var o :| o in said && o.rank == e.ranks["DateScan"];
    i := o.rank - 1;
    assert e.ranks == map["DateScan" := i + 1];
  }

  /** Every block has one date. */
  ghost predicate DatedOnce(dated: seq<DateHit>) {
    forall a, b :: a in dated && b in dated && a.block == b.block ==> a == b
  }

  lemma EarlierRankLeads(
    scored: seq<Scored>, pool: Pool, weights: Weights, k: nat, decay: real, x: string, r: Rank, y: string, s: Rank)
    requires AllCredited(pool) && IsFused(scored, pool, weights, k, decay) && x in pool && y in pool && x != y
    requires OnlyBy(pool[x], "DateScan", r, 0) && OnlyBy(pool[y], "DateScan", s, 0) && r < s
    requires WeightOf(weights, "DateScan") > 0.0
    ensures Leads(scored, x, y)
  {
    hide IsFused, Leads, WeightOf, Total;
    TotalOfOne(pool[x], "DateScan", r, 0, weights, k, decay);
    TotalOfOne(pool[y], "DateScan", s, 0, weights, k, decay);
    BetterShare(WeightOf(weights, "DateScan"), k, r, s);
    LeadsIff(scored, pool, weights, k, decay, x, y);
  }

  lemma PlacesFollowDates(dated: seq<DateHit>, h: DateHit, g: DateHit, i: nat, j: nat)
    requires DatedOnce(dated) && h in dated && g in dated && h != g && Newest(h, g)
    requires i < |Chronological(dated)| && Chronological(dated)[i].block == h.block
    requires j < |Chronological(dated)| && Chronological(dated)[j].block == g.block
    ensures i < j
  {
    hide Chronological, Newest, Sorted;
    var order := Chronological(dated);
    ChronologicalIsSorted(dated);
    assert order[i] in multiset(order) && order[j] in multiset(order);
    assert order[i] in dated && order[j] in dated;
    assert order[i] == h && order[j] == g;
    NewestIsOrdered();
    assert Tied(Newest, h, g) ==> h == g;
    if j < i {
      SortedPair(Newest, order, j, i);
    }
  }

  /** A date query is answered in chronological order: of two blocks the newer one stands first in the fused list. */
  lemma DateQueryIsChronological(
    dated: seq<DateHit>, scored: seq<Scored>, weights: Weights, k: nat, decay: real, h: DateHit, g: DateHit)
    requires DatedOnce(dated) && h in dated && g in dated && h != g && Newest(h, g)
    requires FusesTo([DateBatch(dated)], scored, weights, k, decay) && WeightOf(weights, "DateScan") > 0.0
    requires var pool := HeardAll(map[], [DateBatch(dated)]); h.block in pool && g.block in pool
    ensures Leads(scored, h.block, g.block)
  {
    hide IsFused, Leads, WeightOf, HeardAll, Chronological, OnlyBy, Newest;
    var i := DatedCandidate(dated, h.block);
    var j := DatedCandidate(dated, g.block);
    PlacesFollowDates(dated, h, g, i, j);
    EarlierRankLeads(
      scored, HeardAll(map[], [DateBatch(dated)]), weights, k, decay, h.block, i + 1, g.block, j + 1);
  }
}
