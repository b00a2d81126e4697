/** What the fused order means: hops damp, ranks count, and when a neighbour may precede a direct match. */
module FusionOrder {
  import opened Arithmetic
  import opened Ordering
  import opened Fusion

  // ---- Who comes first -------------------------------------------------------------------------

  /** The first block stands before the second in the fused list. */
  ghost predicate Leads(scored: seq<Scored>, x: string, y: string) {
    exists i, j :: 0 <= i < j < |scored| && scored[i].block == x && scored[j].block == y
  }

  lemma EachBlockOnce(scored: seq<Scored>, pool: Pool, weights: Weights, k: nat, decay: real, i: nat, j: nat)
    requires AllCredited(pool) && IsFused(scored, pool, weights, k, decay)
    requires i < |scored| && j < |scored| && scored[i].block == scored[j].block
    ensures i == j
  {
    hide Total, Credited, Precedes;
    assert scored[i] in scored && scored[j] in scored;
    assert scored[i] == scored[j];
    if i < j { DistinctIndices(scored, i, j); } else if j < i { DistinctIndices(scored, j, i); }
  }

  lemma PlaceOf(scored: seq<Scored>, pool: Pool, weights: Weights, k: nat, decay: real, x: string) returns (i: nat)
    requires AllCredited(pool) && IsFused(scored, pool, weights, k, decay) && x in pool
    ensures i < |scored| && scored[i] == Scored(x, Total(pool[x], weights, k, decay), pool[x].depth)
  {
    hide Total, Credited, Precedes, Sorted, Distinct;
    var entry := Scored(x, Total(pool[x], weights, k, decay), pool[x].depth);
    assert entry in scored;
    i :| 0 <= i < |scored| && scored[i] == entry;
  }

  /** Of two candidates the one with the better total stands first; of equal totals, the shallower; then the smaller. */
  lemma LeadsIff(
    scored: seq<Scored>, pool: Pool, weights: Weights, k: nat, decay: real, x: string, y: string)
    requires AllCredited(pool) && IsFused(scored, pool, weights, k, decay) && x in pool && y in pool && x != y
    ensures
      var a, b := Total(pool[x], weights, k, decay), Total(pool[y], weights, k, decay);
      Leads(scored, x, y) <==>
        || a > b
        || (a == b && pool[x].depth < pool[y].depth)
        || (a == b && pool[x].depth == pool[y].depth && StringLess(x, y))
  {
    hide Total, Credited, Distinct;
    var i := PlaceOf(scored, pool, weights, k, decay, x);
    var j := PlaceOf(scored, pool, weights, k, decay, y);
    if i < j { SortedPair(Precedes, scored, i, j); } else { SortedPair(Precedes, scored, j, i); }
    if Leads(scored, x, y) {
      var m, n :| 0 <= m < n < |scored| && scored[m].block == x && scored[n].block == y;
      EachBlockOnce(scored, pool, weights, k, decay, m, i);
      EachBlockOnce(scored, pool, weights, k, decay, n, j);
    }
    StringsAreOrdered();
    hide StringLeq;
    if StringLeq(x, y) && StringLeq(y, x) { assert Tied(StringLeq, x, y); }
  }

  // ---- Hops damp -----------------------------------------------------------------------------------

  /** What a candidate scores: what its generators say, damped by its hops, and 1 more if a lookup named it. */
  lemma TotalIsDamped(e: Evidence, weights: Weights, k: nat, decay: real)
    requires Credited(e)
    ensures
      Total(e, weights, k, decay)
        == Damped(Sum(e.origins, e.ranks, weights, k), decay, e.depth) + if e.exact then 1.0 else 0.0
  {
    hide Sum, Credited;
    assert Power(decay, 0) == 1.0;
  }

  lemma DampedTwice(total: real, decay: real, m: nat, n: nat)
    ensures Damped(total, decay, m + n) == Damped(total, decay, m) * Power(decay, n)
  {
    PowerAdds(decay, m, n);
    hide Power;
    Associates(total, Power(decay, m), Power(decay, n));
  }

  /** The same contributors at the same ranks, some hops deeper. */
  ghost predicate Deeper(a: Evidence, b: Evidence, hops: nat) {
    b.depth == a.depth + hops && Fusion.Alike(a.(depth := b.depth), b)
  }

  /** Hops multiply: the deeper one scores the shallower one's total, times `decay` for every hop between them. */
  lemma HopsMultiply(a: Evidence, b: Evidence, hops: nat, weights: Weights, k: nat, decay: real)
    requires Credited(a) && Credited(b) && !a.exact && Deeper(a, b, hops)
    ensures Total(b, weights, k, decay) == Total(a, weights, k, decay) * Power(decay, hops)
  {
    SumForgetsOrder(a.origins, b.origins, a.ranks, weights, k);
    hide Sum, Total, Credited, Damped, Power;
    TotalIsDamped(a, weights, k, decay);
    TotalIsDamped(b, weights, k, decay);
    DampedTwice(Sum(a.origins, a.ranks, weights, k), decay, a.depth, hops);
  }

  lemma SmallerPart(t: real, p: real, q: real)
    requires t > 0.0 && p < 1.0 && q == t * p
    ensures q < t
  {
    assert t * (1.0 - p) > 0.0;
  }

  lemma {:induction false} PowerIsBelowOne(x: real, n: nat)
    requires 0.0 <= x < 1.0 && n >= 1
    ensures Power(x, n) < 1.0
  {
    PowerIsFraction(x, n - 1);
    FractionOf(Power(x, n - 1), x);
  }

  /** So of two candidates that differ only in hops, the shallower stands first in every fused list. */
  lemma ShallowerLeads(
    scored: seq<Scored>, pool: Pool, weights: Weights, k: nat, decay: real, x: string, y: string, hops: nat)
    requires AllCredited(pool) && IsFused(scored, pool, weights, k, decay) && x in pool && y in pool && x != y
    requires !pool[x].exact && hops >= 1 && Deeper(pool[x], pool[y], hops)
    requires Total(pool[x], weights, k, decay) > 0.0 && 0.0 <= decay < 1.0
    ensures Leads(scored, x, y)
  {
    hide IsFused, Total, Leads, Power;
    HopsMultiply(pool[x], pool[y], hops, weights, k, decay);
    PowerIsBelowOne(decay, hops);
    SmallerPart(Total(pool[x], weights, k, decay), Power(decay, hops), Total(pool[y], weights, k, decay));
    LeadsIff(scored, pool, weights, k, decay, x, y);
  }

  // ---- Ranks count -------------------------------------------------------------------------------------

  lemma {:induction false} SumIgnores(
    gs: seq<string>, ranks: map<string, Rank>, g: string, r: Rank, weights: Weights, k: nat)
    requires g !in gs && forall h :: h in gs ==> h in ranks
    ensures Sum(gs, ranks[g := r], weights, k) == Sum(gs, ranks, weights, k)
  {
    if gs != [] {
      assert gs[|gs| - 1] in gs;
      SumIgnores(gs[..|gs| - 1], ranks, g, r, weights, k);
    }
  }

  lemma DropsOut(gs: seq<string>, i: nat)
    requires Distinct(gs) && i < |gs|
    ensures gs[i] !in Without(gs, i)
  {
    hide Distinct;
    forall m | 0 <= m < |Without(gs, i)|
      ensures Without(gs, i)[m] != gs[i]
    {
      if m < i { DistinctIndices(gs, m, i); } else { DistinctIndices(gs, i, m + 1); }
    }
  }

  /** One generator's rank is replaced: the sum changes by that generator's share, and by nothing else. */
  lemma SumTrades(gs: seq<string>, ranks: map<string, Rank>, g: string, r: Rank, weights: Weights, k: nat)
    requires Distinct(gs) && g in gs && forall h :: h in gs ==> h in ranks
    ensures
      Sum(gs, ranks[g := r], weights, k) - Sum(gs, ranks, weights, k)
        == Share(WeightOf(weights, g), k, r) - Share(WeightOf(weights, g), k, ranks[g])
  {
    hide Share, WeightOf, Sum;
    var i :| 0 <= i < |gs| && gs[i] == g;
    DropsOut(gs, i);
    SumPicks(gs, i, ranks, weights, k);
    SumPicks(gs, i, ranks[g := r], weights, k);
    SumIgnores(Without(gs, i), ranks, g, r, weights, k);
  }

  /** A better rank has the larger share, where the generator weighs something. */
  lemma BetterShare(weight: real, k: nat, r: Rank, s: Rank)
    requires weight >= 0.0 && r < s
    ensures Share(weight, k, r) >= Share(weight, k, s)
    ensures Share(weight, k, r) > Share(weight, k, s) <==> weight > 0.0
  {
    var a, b := (k + r) as real, (k + s) as real;
    FractionsCompare(weight, a, 1.0, weight, b);
    FractionsCompare(weight, b, 1.0, weight, a);
    assert weight * b - weight * a == weight * (b - a);
    if weight > 0.0 { assert weight * (b - a) > 0.0; }
  }

  /**
    A better rank from one generator never lowers a candidate's total, and raises it exactly when that generator weighs
    something and the hops have not damped everything away.
  */
  lemma BetterRankScoresMore(e: Evidence, g: string, r: Rank, weights: Weights, k: nat, decay: real)
    requires Credited(e) && g in e.origins && r < e.ranks[g] && WeightOf(weights, g) >= 0.0 && decay >= 0.0
    ensures Credited(e.(ranks := e.ranks[g := r]))
    ensures
      var a, b := Total(e, weights, k, decay), Total(e.(ranks := e.ranks[g := r]), weights, k, decay);
      b >= a && (b > a <==> WeightOf(weights, g) > 0.0 && Power(decay, e.depth) > 0.0)
  {
    var b := e.(ranks := e.ranks[g := r]);
    assert Credited(b);
    hide Sum, Share, WeightOf, Distinct, Total, Power, Damped;
    SumTrades(e.origins, e.ranks, g, r, weights, k);
    BetterShare(WeightOf(weights, g), k, r, e.ranks[g]);
    TotalIsDamped(e, weights, k, decay);
    TotalIsDamped(b, weights, k, decay);
    DampingKeepsOrder(Sum(e.origins, e.ranks, weights, k), Sum(e.origins, b.ranks, weights, k), decay, e.depth);
  }

  lemma DampingKeepsOrder(a: real, b: real, decay: real, depth: nat)
    requires a <= b && decay >= 0.0
    ensures Damped(a, decay, depth) <= Damped(b, decay, depth)
    ensures Damped(a, decay, depth) < Damped(b, decay, depth) <==> a < b && Power(decay, depth) > 0.0
  {
    PowerIsNotNegative(decay, depth);
    hide Power;
    TimesKeepsOrder(a, b, Power(decay, depth));
  }

  /** One more generator's opinion never lowers a total, and raises it exactly when it weighs something. */
  lemma AnotherOpinionScoresMore(e: Evidence, g: string, r: Rank, weights: Weights, k: nat, decay: real)
    requires Credited(e) && g !in e.origins && WeightOf(weights, g) >= 0.0 && decay >= 0.0
    ensures Credited(e.(ranks := e.ranks[g := r], origins := e.origins + [g]))
    ensures
      var b := e.(ranks := e.ranks[g := r], origins := e.origins + [g]);
      && Total(b, weights, k, decay) >= Total(e, weights, k, decay)
      && (Total(b, weights, k, decay) > Total(e, weights, k, decay) <==>
            WeightOf(weights, g) > 0.0 && Power(decay, e.depth) > 0.0)
  {
    var gs, b := e.origins + [g], e.(ranks := e.ranks[g := r], origins := e.origins + [g]);
    DistinctGrows(e.origins, g);
    assert Credited(b);
    SumGains(e, g, r, weights, k);
    ShareIsPositive(WeightOf(weights, g), k, r);
    ShareIsBounded(WeightOf(weights, g), k, r);
    NoWeightNoShare(WeightOf(weights, g), k, r);
    hide Sum, Share, WeightOf, Distinct, Total, Power, Damped;
    TotalIsDamped(e, weights, k, decay);
    TotalIsDamped(b, weights, k, decay);
    DampingKeepsOrder(Sum(e.origins, e.ranks, weights, k), Sum(gs, b.ranks, weights, k), decay, e.depth);
  }

  lemma SumGains(e: Evidence, g: string, r: Rank, weights: Weights, k: nat)
    requires Credited(e) && g !in e.origins
    ensures
      Sum(e.origins + [g], e.ranks[g := r], weights, k)
        == Sum(e.origins, e.ranks, weights, k) + Share(WeightOf(weights, g), k, r)
  {
    var gs := e.origins + [g];
    assert gs[..|gs| - 1] == e.origins;
    SumIgnores(e.origins, e.ranks, g, r, weights, k);
    hide Share, WeightOf;
  }

  lemma NoWeightNoShare(weight: real, k: nat, r: Rank)
    ensures weight == 0.0 ==> Share(weight, k, r) == 0.0
  {
    Quotients(0.0, 0.0, (k + r) as real);
  }

  // ---- A neighbour and a direct match ---------------------------------------------------------------------

  /** Only that generator named it, at that rank and depth, and no lookup did. */
  ghost predicate OnlyBy(e: Evidence, g: string, r: Rank, depth: nat) {
    e.origins == [g] && e.ranks == map[g := r] && e.depth == depth && !e.exact
  }

  lemma TotalOfOne(e: Evidence, g: string, r: Rank, depth: nat, weights: Weights, k: nat, decay: real)
    requires Credited(e) && OnlyBy(e, g, r, depth)
    ensures Total(e, weights, k, decay) == WeightOf(weights, g) / (k + r) as real * Power(decay, depth)
  {
    TotalIsDamped(e, weights, k, decay);
    assert [g][..0] == [];
  }

  /**
    A block only an expansion named stands before one only a direct generator named exactly when its weight, damped by
    its hops and taken at the other's rank, exceeds the other's weight taken at its own rank.
  */
  lemma NeighbourLeadsIff(
    scored: seq<Scored>, pool: Pool, weights: Weights, k: nat, decay: real,
    x: string, r: Rank, hops: nat, y: string, g: string, s: Rank)
    requires AllCredited(pool) && IsFused(scored, pool, weights, k, decay) && x in pool && y in pool && x != y
    requires hops >= 1 && OnlyBy(pool[x], GRAPH_EXPAND, r, hops) && OnlyBy(pool[y], g, s, 0)
    ensures Leads(scored, x, y) <==>
      WeightOf(weights, GRAPH_EXPAND) * Power(decay, hops) * (k + s) as real > WeightOf(weights, g) * (k + r) as real
  {
    hide IsFused, Total, Leads, WeightOf;
    TotalOfOne(pool[x], GRAPH_EXPAND, r, hops, weights, k, decay);
    TotalOfOne(pool[y], g, s, 0, weights, k, decay);
    assert Power(decay, 0) == 1.0;
    LeadsIff(scored, pool, weights, k, decay, x, y);
    hide Power;
    var u, v, p := WeightOf(weights, GRAPH_EXPAND), WeightOf(weights, g), Power(decay, hops);
    FractionsCompare(u, (k + r) as real, p, v, (k + s) as real);
    assert v / (k + s) as real * 1.0 == v / (k + s) as real;
  }

  /** The generators that match a block directly by its content. */
  predicate Direct(g: string) {
    g == "TermScan" || g == "VectorSearch" || g == "BruteVector"
  }

  lemma ProfilesDampEnough(kind: IntentKind, g: string)
    requires Direct(g)
    ensures 0.0 <= WeightOf(Profile(kind), GRAPH_EXPAND) * 0.5 <= WeightOf(Profile(kind), g)
  {
  }

  /**
    With the weights in use and the executor's decay, a block only an expansion named never stands before a direct match
    of the same rank or a better one.
  */
  lemma DirectMatchesLeadNeighbours(
    scored: seq<Scored>, pool: Pool, kind: IntentKind, k: nat,
    x: string, r: Rank, hops: nat, y: string, g: string, s: Rank)
    requires AllCredited(pool) && IsFused(scored, pool, Profile(kind), k, 0.5) && x in pool && y in pool && x != y
    requires hops >= 1 && OnlyBy(pool[x], GRAPH_EXPAND, r, hops) && OnlyBy(pool[y], g, s, 0) && Direct(g) && s <= r
    ensures Leads(scored, y, x)
  {
    hide IsFused, Leads;
    ProfilesDampEnough(kind, g);
    var u, v := WeightOf(Profile(kind), GRAPH_EXPAND), WeightOf(Profile(kind), g);
    NeighbourLeadsIff(scored, pool, Profile(kind), k, 0.5, x, r, hops, y, g, s);
    OneLeads(scored, pool, Profile(kind), k, 0.5, x, y);
    hide Profile, WeightOf, OnlyBy;
    DampedWeightsCompare(u, v, hops, (k + s) as real, (k + r) as real);
  }

  lemma DampedWeightsCompare(u: real, v: real, hops: nat, a: real, b: real)
    requires 0.0 <= u * 0.5 <= v && hops >= 1 && 0.0 < a <= b
    ensures u * Power(0.5, hops) * a <= v * b
  {
    PowerFalls(0.5, 1, hops);
    assert Power(0.5, 1) == 0.5 * Power(0.5, 0) == 0.5;
    PowerIsNotNegative(0.5, hops);
    hide Power;
    var p := Power(0.5, hops);
    TimesKeepsOrder(p, 0.5, u);
    TimesKeepsOrder(u * p, v, a);
    TimesKeepsOrder(a, b, v);
  }

  /** Of two candidates one stands before the other. */
  lemma OneLeads(
    scored: seq<Scored>, pool: Pool, weights: Weights, k: nat, decay: real, x: string, y: string)
    requires AllCredited(pool) && IsFused(scored, pool, weights, k, decay) && x in pool && y in pool && x != y
    ensures Leads(scored, x, y) || Leads(scored, y, x)
  {
    hide Total, Credited, Distinct, Sorted;
    var i := PlaceOf(scored, pool, weights, k, decay, x);
    var j := PlaceOf(scored, pool, weights, k, decay, y);
  }
}
