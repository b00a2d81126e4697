/**
  Weighted reciprocal-rank fusion: candidates accumulate evidence from several generators in place, and are then
  put in one order.
*/
module Fusion {
  import opened Arithmetic
  import opened Ordering

  /** One-based position in a generator's output. */
  type Rank = r: nat | r >= 1 witness 1

  /** What a candidate has accumulated, as a value. */
  datatype Evidence = Evidence(
    signals: map<string, real>, ranks: map<string, Rank>, depth: nat, exact: bool, origins: seq<string>)

  /** The operator whose hits are exact. */
  const EXACT_LOOKUP := "ExactLookup"

  /** The operator whose hits were reached by association. */
  const GRAPH_EXPAND := "GraphExpand"

  const NOTHING := Evidence(map[], map[], 0, false, [])

  /** One generator's opinion of one block. */
  datatype Opinion = Opinion(generator: string, rank: Rank, score: real, depth: nat, exact: bool)

  /** The generator's best rank is kept with its score; the shallowest path wins; an exact hit stays exact. */
  function Contributed(e: Evidence, o: Opinion): Evidence {
    var better := o.generator !in e.ranks || o.rank < e.ranks[o.generator];
    Evidence(
      if better then e.signals[o.generator := o.score] else e.signals,
      if better then e.ranks[o.generator := o.rank] else e.ranks,
      if e.origins != [] && e.depth < o.depth then e.depth else o.depth,
      e.exact || o.exact,
      if o.generator in e.origins then e.origins else e.origins + [o.generator])
  }

  class Candidate {
    const blockId: string
    var signals: map<string, real>
    var ranks: map<string, Rank>
    var depth: nat
    var exact: bool
    var origins: seq<string>

    constructor (blockId: string)
      ensures this.blockId == blockId && Held() == NOTHING
    {
      this.blockId := blockId;
      signals, ranks, depth, exact, origins := map[], map[], 0, false, [];
    }

    function Held(): Evidence
      reads this
    {
      Evidence(signals, ranks, depth, exact, origins)
    }

    /** Record one generator's opinion: what the candidate summed up before, it now sums up together with this one. */
    method Contribute(generator: string, rank: Rank, score: real, hops: nat)
      modifies this
      ensures forall said :: Summarizes(old(Held()), said) ==>
        Summarizes(Held(), said + [Opinion(generator, rank, score, hops, false)])
      ensures forall g :: g != generator ==>
        && (g in ranks <==> g in old(ranks)) && (g in ranks ==> ranks[g] == old(ranks)[g])
        && (g in signals <==> g in old(signals)) && (g in signals ==> signals[g] == old(signals)[g])
      ensures Held() == Contributed(old(Held()), Opinion(generator, rank, score, hops, false))
    {
      forall said | Summarizes(Held(), said)
        ensures Summarizes(Contributed(Held(), Opinion(generator, rank, score, hops, false)),
          said + [Opinion(generator, rank, score, hops, false)])
      {
        ContributedSummarizes(Held(), said, Opinion(generator, rank, score, hops, false));
      }
      hide Summarizes;
      if generator !in ranks || rank < ranks[generator] {
        ranks := ranks[generator := rank];
        signals := signals[generator := score];
      }
      // Read before the origins grow: the first contribution sets the depth, later ones can only lower it.
      depth := if origins != [] then (if depth < hops then depth else hops) else hops;
      if generator !in origins {
        origins := origins + [generator];
      }
    }
  }

  // ---- The accumulator ------------------------------------------------------------

  datatype Hit = Hit(block: string, score: real)

  /** One call of `accumulate`. */
  datatype Batch = Batch(generator: string, hits: seq<Hit>, depth: nat, exact: bool)

  function OpinionAt(b: Batch, i: nat): Opinion
    requires i < |b.hits|
  {
    Opinion(b.generator, i + 1, b.hits[i].score, b.depth, b.exact)
  }

  /** Everything said about one block by the first `n` hits of a batch, in order. */
  function SaidFirst(b: Batch, n: nat, block: string): seq<Opinion>
    requires n <= |b.hits|
  {
    if n == 0 then [] else
      SaidFirst(b, n - 1, block) + (if b.hits[n - 1].block == block then [OpinionAt(b, n - 1)] else [])
  }

  function SaidIn(b: Batch, block: string): seq<Opinion> {
    SaidFirst(b, |b.hits|, block)
  }

  function Said(batches: seq<Batch>, block: string): seq<Opinion> {
    if batches == [] then [] else Said(batches[..|batches| - 1], block) + SaidIn(batches[|batches| - 1], block)
  }

  function Weighed(e: Evidence, said: seq<Opinion>): Evidence {
    if said == [] then e else Contributed(Weighed(e, said[..|said| - 1]), said[|said| - 1])
  }

  lemma WeighedOneMore(e: Evidence, said: seq<Opinion>, o: Opinion)
    ensures Weighed(e, said + [o]) == Contributed(Weighed(e, said), o)
  {
    assert (said + [o])[..|said|] == said;
  }

  type Table = map<string, Candidate>

  /** Every block has its own candidate. */
  ghost predicate Separate(table: Table)
    reads table.Values
  {
    && (forall id :: id in table ==> table[id].blockId == id)
    && (forall a, b :: a in table && b in table && table[a] == table[b] ==> a == b)
  }

  /** The accumulator as a value. */
  type Pool = map<string, Evidence>

  function PoolOf(table: Table): Pool
    reads table.Values
  {
    map id | id in table :: table[id].Held()
  }

  function HeldIn(pool: Pool, id: string): Evidence {
    if id in pool then pool[id] else NOTHING
  }

  function Heard(pool: Pool, id: string, o: Opinion): Pool {
    pool[id := Contributed(HeldIn(pool, id), o)]
  }

  /** The pool after the first `n` hits of a batch. */
  function HeardFirst(pool: Pool, b: Batch, n: nat): Pool
    requires n <= |b.hits|
  {
    if n == 0 then pool else Heard(HeardFirst(pool, b, n - 1), b.hits[n - 1].block, OpinionAt(b, n - 1))
  }

  function HeardAll(pool: Pool, batches: seq<Batch>): Pool {
    if batches == [] then pool else
      var b := batches[|batches| - 1];
      HeardFirst(HeardAll(pool, batches[..|batches| - 1]), b, |b.hits|)
  }

  /** `candidates.setdefault(block_id, Candidate(block_id))`. */
  method SetDefault(table: Table, id: string) returns (table': Table)
    requires Separate(table)
    ensures Separate(table') && fresh(table'.Values - table.Values) && id in table'
    ensures PoolOf(table') == PoolOf(table)[id := HeldIn(PoolOf(table), id)]
  {
    table' := table;
    if id !in table {
      var c := new Candidate(id);
      table' := table[id := c];
    }
  }

  /** A candidate already in the table hears one opinion; no other candidate changes. */
  method Tell(table: Table, id: string, o: Opinion)
    requires Separate(table) && id in table
    modifies table[id]
    ensures PoolOf(table) == old(PoolOf(table))[id := Contributed(old(table[id].Held()), o)]
  {
    hide Contributed;
    ExactIsAddedLater(table[id].Held(), o);
    table[id].Contribute(o.generator, o.rank, o.score, o.depth);
    if o.exact {
      table[id].exact := true;
    }
  }

  /** One hit: the block's candidate, new if it is not there yet, hears one opinion. */
  method Hear(table: Table, id: string, o: Opinion) returns (table': Table)
    requires Separate(table)
    modifies table.Values
    ensures Separate(table') && fresh(table'.Values - table.Values)
    ensures PoolOf(table') == Heard(old(PoolOf(table)), id, o)
  {
    hide Contributed;
    table' := SetDefault(table, id);
    assert table'[id].Held() == HeldIn(PoolOf(table), id) by {
      assert PoolOf(table')[id] == table'[id].Held();
    }
    Tell(table', id, o);
  }

  lemma ExactIsAddedLater(e: Evidence, o: Opinion)
    ensures
      var plain := Contributed(e, Opinion(o.generator, o.rank, o.score, o.depth, false));
      Contributed(e, o) == if o.exact then plain.(exact := true) else plain
  {
  }

  /** Fold one generator's output into the accumulator. */
  method Accumulate(table: Table, b: Batch) returns (table': Table)
    requires Separate(table)
    modifies table.Values
    ensures Separate(table') && fresh(table'.Values - table.Values)
    ensures PoolOf(table') == HeardFirst(old(PoolOf(table)), b, |b.hits|)
  {
    hide Heard, PoolOf;
    table' := table;
    for i := 0 to |b.hits|
      invariant Separate(table') && fresh(table'.Values - table.Values)
      invariant PoolOf(table') == HeardFirst(old(PoolOf(table)), b, i)
    {
      table' := Hear(table', b.hits[i].block, OpinionAt(b, i));
    }
  }

  /** A candidate holds what everything said about it weighs, and a block nobody mentioned is no candidate. */
  lemma {:induction false} HeardFirstWeighs(pool: Pool, b: Batch, n: nat, id: string)
    requires n <= |b.hits|
    ensures HeldIn(HeardFirst(pool, b, n), id) == Weighed(HeldIn(pool, id), SaidFirst(b, n, id))
    ensures id in HeardFirst(pool, b, n) <==> id in pool || SaidFirst(b, n, id) != []
  {
    hide Contributed, Weighed;
    if n == 0 {
      NothingWeighs(HeldIn(pool, id));
    } else {
      HeardFirstWeighs(pool, b, n - 1, id);
      var before, o := HeardFirst(pool, b, n - 1), OpinionAt(b, n - 1);
      HearsOwn(before, b.hits[n - 1].block, o, id);
      hide Heard, HeldIn, OpinionAt;
      WeighedOneMore(HeldIn(pool, id), SaidFirst(b, n - 1, id), o);
      if b.hits[n - 1].block != id {
        assert SaidFirst(b, n, id) == SaidFirst(b, n - 1, id);
      }
    }
  }

  lemma NothingWeighs(e: Evidence)
    ensures Weighed(e, []) == e
  {
  }

  lemma HearsOwn(pool: Pool, block: string, o: Opinion, id: string)
    ensures HeldIn(Heard(pool, block, o), id) ==
      if block == id then Contributed(HeldIn(pool, id), o) else HeldIn(pool, id)
    ensures id in Heard(pool, block, o) <==> id in pool || block == id
  {
    hide Contributed;
  }

  lemma {:induction false} WeighedAppends(e: Evidence, p: seq<Opinion>, q: seq<Opinion>)
    ensures Weighed(e, p + q) == Weighed(Weighed(e, p), q)
    decreases |q|
  {
    if q == [] {
      assert p + q == p;
    } else {
      hide Contributed, Weighed;
      var init, last := q[..|q| - 1], q[|q| - 1];
      assert q == init + [last] && p + q == (p + init) + [last];
      WeighedAppends(e, p, init);
      WeighedOneMore(e, p + init, last);
      WeighedOneMore(Weighed(e, p), init, last);
    }
  }

  lemma {:induction false} HeardAllWeighs(batches: seq<Batch>, id: string)
    ensures HeldIn(HeardAll(map[], batches), id) == Weighed(NOTHING, Said(batches, id))
    ensures id in HeardAll(map[], batches) <==> Said(batches, id) != []
    decreases |batches|
  {
    if batches != [] {
      var init, b := batches[..|batches| - 1], batches[|batches| - 1];
      HeardAllWeighs(init, id);
      HeardFirstWeighs(HeardAll(map[], init), b, |b.hits|, id);
      WeighedAppends(NOTHING, Said(init, id), SaidIn(b, id));
    }
  }

  // ---- What was accumulated, whatever the order -----------------------------------

  ghost predicate Ranked(e: Evidence, said: seq<Opinion>) {
    && (forall o :: o in said ==> o.generator in e.ranks && e.ranks[o.generator] <= o.rank)
    && (forall g :: g in e.ranks ==> exists o :: o in said && o.generator == g && o.rank == e.ranks[g])
  }

  ghost predicate Shallowest(e: Evidence, said: seq<Opinion>) {
    && (said == [] ==> e.depth == 0)
    && (forall o :: o in said ==> e.depth <= o.depth)
    && (said != [] ==> exists o :: o in said && o.depth == e.depth)
  }

  /** Each generator's best rank, the smallest depth, whether any hit was exact, and who contributed. */
  ghost predicate Summarizes(e: Evidence, said: seq<Opinion>) {
    Ranked(e, said) && Shallowest(e, said) && ExactIff(e, said) && Credited(e)
  }

  lemma ContributedRanks(e: Evidence, said: seq<Opinion>, o: Opinion)
    requires Ranked(e, said)
    ensures Ranked(Contributed(e, o), said + [o])
  {
    var e' := Contributed(e, o);
    forall g | g in e'.ranks
      ensures exists p :: p in said + [o] && p.generator == g && p.rank == e'.ranks[g]
    {
      if g == o.generator && e'.ranks[g] == o.rank {
        assert o in said + [o];
      } else {
        var p :| p in said && p.generator == g && p.rank == e.ranks[g];
        assert p in said + [o];
      }
    }
  }

  lemma ContributedDepth(e: Evidence, said: seq<Opinion>, o: Opinion)
    requires Shallowest(e, said) && (said == [] <==> e.origins == [])
    ensures Shallowest(Contributed(e, o), said + [o])
  {
    assert o in said + [o];
    if said != [] {
      var p :| p in said && p.depth == e.depth;
      assert p in said + [o];
    }
  }

  /** Contributors are listed once each, and are those with a rank. */
  ghost predicate Credited(e: Evidence) {
    Distinct(e.origins) && forall g :: g in e.origins <==> g in e.ranks
  }

  lemma ContributedCredits(e: Evidence, o: Opinion)
    requires Credited(e)
    ensures Credited(Contributed(e, o))
  {
    if o.generator !in e.origins {
      DistinctGrows(e.origins, o.generator);
    }
  }

  ghost predicate ExactIff(e: Evidence, said: seq<Opinion>) {
    e.exact <==> exists o :: o in said && o.exact
  }

  lemma ContributedExact(e: Evidence, said: seq<Opinion>, o: Opinion)
    requires ExactIff(e, said)
    ensures ExactIff(Contributed(e, o), said + [o])
  {
    assert forall p :: p in said + [o] <==> p in said || p == o;
  }

  lemma NoOriginsNothingSaid(e: Evidence, said: seq<Opinion>)
    requires Ranked(e, said) && Credited(e)
    ensures said == [] <==> e.origins == []
  {
    assert said != [] ==> said[0] in said;
    assert e.origins != [] ==> e.origins[0] in e.origins;
  }

  lemma ContributedSummarizes(e: Evidence, said: seq<Opinion>, o: Opinion)
    requires Summarizes(e, said)
    ensures Summarizes(Contributed(e, o), said + [o])
  {
    hide Ranked, Shallowest, Credited, ExactIff, Contributed;
    NoOriginsNothingSaid(e, said);
    ContributedRanks(e, said, o);
    ContributedDepth(e, said, o);
    ContributedCredits(e, o);
    ContributedExact(e, said, o);
  }

  lemma NothingSummarizes()
    ensures Summarizes(NOTHING, []) && Weighed(NOTHING, []) == NOTHING
  {
  }

  lemma {:induction false} WeighedSummarizes(said: seq<Opinion>)
    ensures Summarizes(Weighed(NOTHING, said), said)
    decreases |said|
  {
    hide Summarizes, Contributed, Weighed;
    if said == [] {
      NothingSummarizes();
    } else {
      var init, last := said[..|said| - 1], said[|said| - 1];
      assert said == init + [last];
      WeighedSummarizes(init);
      ContributedSummarizes(Weighed(NOTHING, init), init, last);
      WeighedOneMore(NOTHING, init, last);
    }
  }

  /** All that fusion reads of a candidate. */
  ghost predicate Alike(a: Evidence, b: Evidence) {
    && a.ranks == b.ranks && a.depth == b.depth && a.exact == b.exact
    && multiset(a.origins) == multiset(b.origins) && Credited(a) && Credited(b)
  }

  lemma RanksAgree(a: Evidence, s: seq<Opinion>, b: Evidence, t: seq<Opinion>)
    requires Ranked(a, s) && Ranked(b, t) && forall o :: o in s <==> o in t
    ensures a.ranks == b.ranks
  {
    forall g
      ensures g in a.ranks <==> g in b.ranks
      ensures g in a.ranks && g in b.ranks ==> a.ranks[g] == b.ranks[g]
    {
    }
  }

  /** Opinions heard in any order leave candidates that fusion cannot tell apart. */
  lemma OrderOfOpinionsIsForgotten(s: seq<Opinion>, t: seq<Opinion>)
    requires multiset(s) == multiset(t)
    ensures Alike(Weighed(NOTHING, s), Weighed(NOTHING, t))
  {
    var a, b := Weighed(NOTHING, s), Weighed(NOTHING, t);
    WeighedSummarizes(s);
    WeighedSummarizes(t);
    hide Weighed;
    forall o
      ensures o in s <==> o in t
    {
      assert o in multiset(s) <==> o in multiset(t);
    }
    assert |multiset(s)| == |multiset(t)|;
    RanksAgree(a, s, b, t);
    SameElements(a.origins, b.origins);
  }

  lemma SaidPicks(batches: seq<Batch>, i: nat, id: string)
    requires i < |batches|
    ensures multiset(Said(batches, id)) == multiset(SaidIn(batches[i], id)) + multiset(Said(Without(batches, i), id))
  {
    var before, b, after := batches[..i], batches[i], batches[i + 1..];
    assert batches == before + ([b] + after);
    SaidAppends(before, [b] + after, id);
    SaidAppends([b], after, id);
    SaidOne(b, id);
    SaidAppends(before, after, id);
  }

  lemma SaidOne(b: Batch, id: string)
    ensures Said([b], id) == SaidIn(b, id)
  {
    assert [b][..0] == [];
  }

  lemma {:induction false} SaidAppends(p: seq<Batch>, q: seq<Batch>, id: string)
    ensures Said(p + q, id) == Said(p, id) + Said(q, id)
    decreases |q|
  {
    if q == [] {
      assert p + q == p;
    } else {
      hide SaidIn;
      var init, last := q[..|q| - 1], q[|q| - 1];
      SaidAppends(p, init, id);
      assert (p + q)[..|p + q| - 1] == p + init && (p + q)[|p + q| - 1] == last;
      ghost var a, b, c := Said(p, id), Said(init, id), SaidIn(last, id);
      assert (a + b) + c == a + (b + c);
    }
  }

  lemma {:induction false} SaidForgetsOrder(p: seq<Batch>, q: seq<Batch>, id: string)
    requires multiset(p) == multiset(q)
    ensures multiset(Said(p, id)) == multiset(Said(q, id))
    decreases |p|
  {
    assert |multiset(p)| == |multiset(q)|;
    if p != [] {
      hide Said, SaidIn;
      var i := FindHead(p, q);
      SaidPicks(p, 0, id);
      SaidPicks(q, i, id);
      assert Without(p, 0) == p[1..];
      SaidForgetsOrder(p[1..], Without(q, i), id);
    }
  }

  /** Generators may be accumulated in any order: the same candidates come out, alike in all that fusion reads. */
  lemma AccumulationForgetsOrder(p: seq<Batch>, q: seq<Batch>, id: string)
    requires multiset(p) == multiset(q)
    ensures id in HeardAll(map[], p) <==> id in HeardAll(map[], q)
    ensures Alike(HeldIn(HeardAll(map[], p), id), HeldIn(HeardAll(map[], q), id))
  {
    hide HeardAll, Said, Weighed, Alike;
    HeardAllWeighs(p, id);
    HeardAllWeighs(q, id);
    SaidForgetsOrder(p, q, id);
    assert |multiset(Said(p, id))| == |multiset(Said(q, id))|;
    OrderOfOpinionsIsForgotten(Said(p, id), Said(q, id));
  }

  // ---- Scoring ---------------------------------------------------------------------

  type Weights = map<string, real>

  function WeightOf(weights: Weights, g: string): real {
    if g in weights then weights[g] else 0.5
  }

  function Share(weight: real, k: nat, rank: Rank): real {
    weight / (k + rank) as real
  }

  function Sum(gs: seq<string>, ranks: map<string, Rank>, weights: Weights, k: nat): real
    requires forall g :: g in gs ==> g in ranks
  {
    if gs == [] then 0.0 else
      var g := gs[|gs| - 1];
      Sum(gs[..|gs| - 1], ranks, weights, k) + Share(WeightOf(weights, g), k, ranks[g])
  }

  function Damped(total: real, decay: real, depth: nat): real {
    total * Power(decay, depth)
  }

  function Total(e: Evidence, weights: Weights, k: nat, decay: real): real
    requires Credited(e)
  {
    var fused := Sum(e.origins, e.ranks, weights, k);
    (if e.depth > 0 then Damped(fused, decay, e.depth) else fused) + if e.exact then 1.0 else 0.0
  }

  datatype Scored = Scored(block: string, total: real, depth: nat)

  /** Best total first, then the shallower, then by identity. */
  predicate Precedes(a: Scored, b: Scored) {
    || a.total > b.total
    || (a.total == b.total && a.depth < b.depth)
    || (a.total == b.total && a.depth == b.depth && StringLeq(a.block, b.block))
  }

  lemma PrecedesIsOrdered()
    ensures TotalOrder(Precedes)
  {
    StringsAreOrdered();
    hide StringLeq;
    forall a: Scored, b: Scored | Tied(Precedes, a, b)
      ensures a == b
    {
      assert Tied(StringLeq, a.block, b.block);
    }
  }

  ghost predicate AllCredited(pool: Pool) {
    forall id :: id in pool ==> Credited(pool[id])
  }

  ghost predicate IsFused(scored: seq<Scored>, pool: Pool, weights: Weights, k: nat, decay: real)
    requires AllCredited(pool)
  {
    && Sorted(Precedes, scored) && Distinct(scored)
    && forall x :: x in scored <==>
         x.block in pool && x.depth == pool[x.block].depth && x.total == Total(pool[x.block], weights, k, decay)
  }

  lemma SumUnfolds(gs: seq<string>, i: nat, ranks: map<string, Rank>, weights: Weights, k: nat)
    requires i < |gs| && forall g :: g in gs ==> g in ranks
    ensures Sum(gs[..i + 1], ranks, weights, k)
         == Sum(gs[..i], ranks, weights, k) + Share(WeightOf(weights, gs[i]), k, ranks[gs[i]])
  {
    assert gs[..i + 1][..i] == gs[..i];
  }

  /** The running total over one candidate's generators. */
  method Tally(e: Evidence, weights: Weights, k: nat, decay: real) returns (total: real)
    requires Credited(e)
    ensures total == Total(e, weights, k, decay)
  {
    hide Sum, Share, WeightOf, Distinct;
    total := 0.0;
    assert Sum(e.origins[..0], e.ranks, weights, k) == 0.0 by { SumStops(e.ranks, weights, k); }
    for i := 0 to |e.origins|
      invariant total == Sum(e.origins[..i], e.ranks, weights, k)
    {
      SumUnfolds(e.origins, i, e.ranks, weights, k);
      total := total + Share(WeightOf(weights, e.origins[i]), k, e.ranks[e.origins[i]]);
    }
    assert e.origins[..|e.origins|] == e.origins;
    if e.depth > 0 {
      total := Damped(total, decay, e.depth);
    }
    if e.exact {
      total := total + 1.0;
    }
  }

  lemma SumStops(ranks: map<string, Rank>, weights: Weights, k: nat)
    ensures Sum([], ranks, weights, k) == 0.0
  {
  }

  /** Combine every generator's ranking into one ordered list. */
  method Fuse(table: Table, weights: Weights, k: nat, decay: real) returns (scored: seq<Scored>)
    requires Separate(table) && AllCredited(PoolOf(table))
    ensures IsFused(scored, PoolOf(table), weights, k, decay)
  {
    hide Total, Credited, Sorted, Precedes, Distinct;
    ghost var pool := PoolOf(table);
    var found: seq<Scored> := [];
    var todo := table.Keys;
    NothingIsDistinct();
    while todo != {}
      invariant todo <= table.Keys
      invariant Distinct(found)
      invariant forall x :: x in found <==>
        x.block in pool && x.block !in todo && x.depth == pool[x.block].depth
        && x.total == Total(pool[x.block], weights, k, decay)
      decreases |todo|
    {
      var id :| id in todo;
      assert pool[id] == table[id].Held();
      var total := Tally(table[id].Held(), weights, k, decay);
      var x := Scored(id, total, table[id].depth);
      DistinctGrows(found, x);
      found := found + [x];
      todo := todo - {id};
    }
    FusedIsSorted(found);
    scored := Sort(Precedes, found);
  }

  lemma NothingIsDistinct()
    ensures Distinct<Scored>([])
  {
  }

  lemma FusedIsSorted(found: seq<Scored>)
    requires Distinct(found)
    ensures Sorted(Precedes, Sort(Precedes, found)) && Distinct(Sort(Precedes, found))
    ensures forall x :: x in Sort(Precedes, found) <==> x in found
  {
    PrecedesIsOrdered();
    SortSorts(Precedes, found);
    forall x
      ensures x in Sort(Precedes, found) <==> x in found
    {
      SortHolds(Precedes, found, x);
    }
    forall x | x in Sort(Precedes, found)
      ensures multiset(Sort(Precedes, found))[x] == 1
    {
      DistinctCounts(found, x);
    }
    CountsDistinct(Sort(Precedes, found));
  }

  // ---- The order does not depend on the order of accumulation ------------------------

  lemma {:induction false} SumPicks(gs: seq<string>, i: nat, ranks: map<string, Rank>, weights: Weights, k: nat)
    requires i < |gs| && forall g :: g in gs ==> g in ranks
    ensures forall g :: g in Without(gs, i) ==> g in ranks
    ensures Sum(gs, ranks, weights, k)
         == Share(WeightOf(weights, gs[i]), k, ranks[gs[i]]) + Sum(Without(gs, i), ranks, weights, k)
    decreases |gs|
  {
    hide Share, WeightOf;
    var n := |gs| - 1;
    if i == n {
      assert Without(gs, i) == gs[..n];
    } else {
      SumPicks(gs[..n], i, ranks, weights, k);
      var rest := Without(gs, i);
      assert rest[..|rest| - 1] == Without(gs[..n], i);
      assert rest[|rest| - 1] == gs[n];
    }
  }

  lemma {:induction false} SumForgetsOrder(
    p: seq<string>, q: seq<string>, ranks: map<string, Rank>, weights: Weights, k: nat)
    requires multiset(p) == multiset(q) && (forall g :: g in p ==> g in ranks) && (forall g :: g in q ==> g in ranks)
    ensures Sum(p, ranks, weights, k) == Sum(q, ranks, weights, k)
    decreases |p|
  {
    assert |multiset(p)| == |multiset(q)|;
    if p != [] {
      hide Share, WeightOf, Sum;
      var i := FindHead(p, q);
      SumPicks(p, 0, ranks, weights, k);
      SumPicks(q, i, ranks, weights, k);
      assert Without(p, 0) == p[1..];
      SumForgetsOrder(p[1..], Without(q, i), ranks, weights, k);
    }
  }

  lemma AlikeTotals(a: Evidence, b: Evidence, weights: Weights, k: nat, decay: real)
    requires Alike(a, b)
    ensures Total(a, weights, k, decay) == Total(b, weights, k, decay)
  {
    hide Sum, Damped;
    SumForgetsOrder(a.origins, b.origins, a.ranks, weights, k);
  }

  /** Pools built from the same opinions in any order fuse to the same list. */
  lemma FusionForgetsOrder(
    p: Pool, s: seq<Scored>, q: Pool, t: seq<Scored>, weights: Weights, k: nat, decay: real)
    requires p.Keys == q.Keys && forall id :: id in p && id in q ==> Alike(p[id], q[id])
    requires AllCredited(p) && AllCredited(q)
    requires IsFused(s, p, weights, k, decay) && IsFused(t, q, weights, k, decay)
    ensures s == t
  {
    forall id
      ensures id in p <==> id in q
      ensures id in p && id in q ==> Total(p[id], weights, k, decay) == Total(q[id], weights, k, decay)
    {
      assert id in p.Keys <==> id in q.Keys;
      if id in p {
        AlikeTotals(p[id], q[id], weights, k, decay);
      }
    }
    hide Total, Credited, Precedes;
    PrecedesIsOrdered();
    SortedSetIsUnique(Precedes, s, t);
  }

  /** The generators may run in any order: the fused list is the same. */
  lemma FusedListForgetsOrder(
    p: seq<Batch>, s: seq<Scored>, q: seq<Batch>, t: seq<Scored>, weights: Weights, k: nat, decay: real)
    requires multiset(p) == multiset(q) && AllCredited(HeardAll(map[], p)) && AllCredited(HeardAll(map[], q))
    requires IsFused(s, HeardAll(map[], p), weights, k, decay) && IsFused(t, HeardAll(map[], q), weights, k, decay)
    ensures s == t
  {
    hide HeardAll, Alike, IsFused;
    var a, b := HeardAll(map[], p), HeardAll(map[], q);
    forall id
      ensures id in a <==> id in b
      ensures id in a && id in b ==> Alike(a[id], b[id])
    {
      AccumulationForgetsOrder(p, q, id);
    }
    assert a.Keys == b.Keys;
    FusionForgetsOrder(a, s, b, t, weights, k, decay);
  }

  /** Whatever was accumulated can be fused. */
  lemma HeardAllIsCredited(batches: seq<Batch>)
    ensures AllCredited(HeardAll(map[], batches))
  {
    hide HeardAll, Weighed, Said;
    forall id | id in HeardAll(map[], batches)
      ensures Credited(HeardAll(map[], batches)[id])
    {
      HeardAllWeighs(batches, id);
      WeighedSummarizes(Said(batches, id));
    }
  }

  // ---- Exact hits come first ----------------------------------------------------------

  function WeightSum(gs: seq<string>, weights: Weights): real {
    if gs == [] then 0.0 else WeightSum(gs[..|gs| - 1], weights) + WeightOf(weights, gs[|gs| - 1])
  }

  ghost predicate NonNegativeWeights(weights: Weights) {
    forall g :: g in weights ==> weights[g] >= 0.0
  }

  lemma ShareIsBounded(weight: real, k: nat, rank: Rank)
    requires weight >= 0.0
    ensures 0.0 <= Share(weight, k, rank) <= weight / (k + 1) as real
  {
    var a, b := (k + 1) as real, (k + rank) as real;
    assert 0.0 < a <= b;
    assert weight / b * b == weight;
    assert weight / a * a == weight;
    if weight / b > weight / a {
      Grows(weight / a, weight / b, a, b);
    }
  }

  lemma Grows(x: real, y: real, a: real, b: real)
    requires x < y && 0.0 < a <= b && 0.0 <= x * a
    ensures x * a < y * b
  {
    if x < 0.0 { Signs(x, a); }
    assert x * a <= x * b;
    assert x * b < y * b;
  }

  lemma Signs(x: real, a: real)
    requires x < 0.0 && a > 0.0
    ensures x * a < 0.0
  {
  }

  lemma {:induction false} SumIsBounded(gs: seq<string>, ranks: map<string, Rank>, weights: Weights, k: nat)
    requires NonNegativeWeights(weights) && forall g :: g in gs ==> g in ranks
    ensures 0.0 <= Sum(gs, ranks, weights, k) <= WeightSum(gs, weights) / (k + 1) as real
  {
    if gs != [] {
      var init, last := gs[..|gs| - 1], gs[|gs| - 1];
      SumIsBounded(init, ranks, weights, k);
      ShareIsBounded(WeightOf(weights, last), k, ranks[last]);
      Adds(WeightSum(init, weights), WeightOf(weights, last), (k + 1) as real);
    }
  }

  lemma Adds(x: real, y: real, d: real)
    requires d > 0.0
    ensures (x + y) / d == x / d + y / d
  {
  }

  lemma DampedIsSmaller(total: real, decay: real, depth: nat)
    requires 0.0 <= total && 0.0 <= decay <= 1.0
    ensures 0.0 <= Damped(total, decay, depth) <= total
  {
    PowerIsFraction(decay, depth);
    assert total * Power(decay, depth) <= total * 1.0;
  }

  /** Runs of a plan: the exact lookup, whose hits are direct, and any of the other generators. */
  ghost predicate Runs(batches: seq<Batch>, gs: seq<string>) {
    forall b :: b in batches ==>
      if b.generator == EXACT_LOOKUP then b.exact && b.depth == 0 else !b.exact && b.generator in gs
  }

  ghost predicate ExactLeads(scored: seq<Scored>, pool: Pool) {
    forall i, j :: 0 <= i < j < |scored| && HeldIn(pool, scored[j].block).exact ==> HeldIn(pool, scored[i].block).exact
  }

  ghost predicate FusesTo(batches: seq<Batch>, scored: seq<Scored>, weights: Weights, k: nat, decay: real) {
    AllCredited(HeardAll(map[], batches)) && IsFused(scored, HeardAll(map[], batches), weights, k, decay)
  }

  /** Whatever the generators answer, every exact hit precedes every other candidate. */
  ghost predicate AlwaysExactFirst(gs: seq<string>, weights: Weights, k: nat, decay: real) {
    forall batches, scored :: Runs(batches, gs) && FusesTo(batches, scored, weights, k, decay) ==>
      ExactLeads(scored, HeardAll(map[], batches))
  }

  /** The others together weigh less than `k + 1`, or just that much when the lookup itself weighs something. */
  predicate Outweighed(gs: seq<string>, weights: Weights, k: nat) {
    || WeightSum(gs, weights) < (k + 1) as real
    || (WeightSum(gs, weights) == (k + 1) as real && WeightOf(weights, EXACT_LOOKUP) > 0.0)
  }

  /** A batch in which the opinion was given about the block. */
  ghost predicate Gives(b: Batch, id: string, o: Opinion) {
    && o.generator == b.generator && o.exact == b.exact && o.depth == b.depth
    && exists h :: h in b.hits && h.block == id
  }

  lemma {:induction false} SaidFirstComes(b: Batch, n: nat, id: string, o: Opinion)
    requires n <= |b.hits| && o in SaidFirst(b, n, id)
    ensures Gives(b, id, o)
  {
    if o in SaidFirst(b, n - 1, id) {
      SaidFirstComes(b, n - 1, id, o);
    } else {
      assert b.hits[n - 1] in b.hits && b.hits[n - 1].block == id;
    }
  }

  lemma {:induction false} SaidComes(batches: seq<Batch>, id: string, o: Opinion)
    requires o in Said(batches, id)
    ensures exists b :: b in batches && Gives(b, id, o)
    decreases |batches|
  {
    var n := |batches| - 1;
    if o in Said(batches[..n], id) {
      SaidComes(batches[..n], id, o);
    } else {
      SaidFirstComes(batches[n], |batches[n].hits|, id, o);
      assert batches[n] in batches;
    }
  }

  lemma {:induction false} WeightSumPicks(gs: seq<string>, i: nat, weights: Weights)
    requires i < |gs|
    ensures WeightSum(gs, weights) == WeightOf(weights, gs[i]) + WeightSum(Without(gs, i), weights)
    decreases |gs|
  {
    var n := |gs| - 1;
    if i == n {
      assert Without(gs, i) == gs[..n];
    } else {
      WeightSumPicks(gs[..n], i, weights);
      var rest := Without(gs, i);
      assert rest[..|rest| - 1] == Without(gs[..n], i);
      assert rest[|rest| - 1] == gs[n];
    }
  }

  lemma {:induction false} WeightSumIsPositive(gs: seq<string>, weights: Weights)
    requires NonNegativeWeights(weights)
    ensures 0.0 <= WeightSum(gs, weights)
  {
    if gs != [] {
      WeightSumIsPositive(gs[..|gs| - 1], weights);
    }
  }

  /** Some of the generators weigh no more than all of them. */
  lemma {:induction false} FewerWeighLess(some: seq<string>, gs: seq<string>, weights: Weights)
    requires Distinct(some) && (forall g :: g in some ==> g in gs) && NonNegativeWeights(weights)
    ensures WeightSum(some, weights) <= WeightSum(gs, weights)
    decreases |some|
  {
    if some == [] {
      WeightSumIsPositive(gs, weights);
    } else {
      var g, rest := some[0], some[1..];
      assert some == [g] + rest && g in some;
      var i :| 0 <= i < |gs| && gs[i] == g;
      forall h | h in rest
        ensures h in Without(gs, i)
      {
        assert h in some;
        var m :| 0 <= m < |gs| && gs[m] == h;
        assert m != i;
        assert Without(gs, i)[if m < i then m else m - 1] == h;
      }
      FewerWeighLess(rest, Without(gs, i), weights);
      WeightSumPicks(gs, i, weights);
      WeightSumPicks(some, 0, weights);
      assert Without(some, 0) == rest;
    }
  }

  /** What a plan's runs leave in the pool: exact candidates come from the lookup, and others from the rest. */
  lemma HeardFromRuns(batches: seq<Batch>, gs: seq<string>, id: string)
    requires Runs(batches, gs) && id in HeardAll(map[], batches)
    ensures
      var e := HeardAll(map[], batches)[id];
      && Credited(e)
      && (e.exact ==> e.depth == 0 && EXACT_LOOKUP in e.origins)
      && (!e.exact ==> forall g :: g in e.origins ==> g in gs)
  {
    hide HeardAll, Weighed, Said, Distinct;
    HeardAllWeighs(batches, id);
    WeighedSummarizes(Said(batches, id));
    var e := HeardAll(map[], batches)[id];
    if e.exact {
      var o :| o in Said(batches, id) && o.exact;
      SaidComes(batches, id, o);
    } else {
      forall g | g in e.origins
        ensures g in gs
      {
        var o :| o in Said(batches, id) && o.generator == g;
        SaidComes(batches, id, o);
      }
    }
  }

  /** The generators that named a candidate no lookup named are outweighed. */
  predicate Light(e: Evidence, weights: Weights, k: nat) {
    e.exact || Outweighed(e.origins, weights, k)
  }

  /** Being named by some of the generators, when all of them are outweighed, is enough. */
  lemma FewerAreOutweighed(e: Evidence, gs: seq<string>, weights: Weights, k: nat)
    requires Credited(e) && NonNegativeWeights(weights) && Outweighed(gs, weights, k)
    requires !e.exact ==> forall g :: g in e.origins ==> g in gs
    ensures Light(e, weights, k)
  {
    if !e.exact {
      FewerWeighLess(e.origins, gs, weights);
    }
  }

  /** A candidate no lookup named scores what its generators weigh at most, over `k + 1`. */
  lemma OthersScoreAtMost(e: Evidence, weights: Weights, k: nat, decay: real)
    requires Credited(e) && !e.exact && NonNegativeWeights(weights) && 0.0 <= decay <= 1.0
    ensures Total(e, weights, k, decay) <= WeightSum(e.origins, weights) / (k + 1) as real
  {
    SumIsBounded(e.origins, e.ranks, weights, k);
    DampedIsSmaller(Sum(e.origins, e.ranks, weights, k), decay, e.depth);
  }

  /** A direct exact hit scores at least 1, and more if the lookup weighs something. */
  lemma ExactScoresOne(e: Evidence, weights: Weights, k: nat, decay: real)
    requires Credited(e) && e.exact && e.depth == 0 && EXACT_LOOKUP in e.origins && NonNegativeWeights(weights)
    ensures Total(e, weights, k, decay) >= 1.0
    ensures WeightOf(weights, EXACT_LOOKUP) > 0.0 ==> Total(e, weights, k, decay) > 1.0
  {
    hide Sum, Share, Damped, WeightSum, Distinct;
    var i :| 0 <= i < |e.origins| && e.origins[i] == EXACT_LOOKUP;
    SumPicks(e.origins, i, e.ranks, weights, k);
    SumIsBounded(Without(e.origins, i), e.ranks, weights, k);
    ShareIsBounded(WeightOf(weights, EXACT_LOOKUP), k, e.ranks[EXACT_LOOKUP]);
    ShareIsPositive(WeightOf(weights, EXACT_LOOKUP), k, e.ranks[EXACT_LOOKUP]);
  }

  lemma ShareIsPositive(weight: real, k: nat, rank: Rank)
    ensures weight > 0.0 ==> Share(weight, k, rank) > 0.0
  {
    Quotients(0.0, weight, (k + rank) as real);
    Quotients(weight, 0.0, (k + rank) as real);
  }

  /** Where every other candidate is light, exact hits lead. */
  lemma LightLead(
    batches: seq<Batch>, scored: seq<Scored>, gs: seq<string>, weights: Weights, k: nat, decay: real)
    requires NonNegativeWeights(weights) && 0.0 <= decay <= 1.0
    requires Runs(batches, gs) && FusesTo(batches, scored, weights, k, decay)
    requires forall id :: id in HeardAll(map[], batches) ==> Light(HeardAll(map[], batches)[id], weights, k)
    ensures ExactLeads(scored, HeardAll(map[], batches))
  {
    hide Runs, HeardAll, Total, Credited, Precedes, Distinct;
    var pool := HeardAll(map[], batches);
    forall i, j | 0 <= i < j < |scored| && HeldIn(pool, scored[j].block).exact
      ensures HeldIn(pool, scored[i].block).exact
    {
      assert scored[i] in scored && scored[j] in scored;
      var other := pool[scored[i].block];
      HeardFromRuns(batches, gs, scored[i].block);
      HeardFromRuns(batches, gs, scored[j].block);
      ExactScoresOne(pool[scored[j].block], weights, k, decay);
      SortedPair(Precedes, scored, i, j);
      PrecedesScores(scored[i], scored[j]);
      if !other.exact {
        OthersScoreAtMost(other, weights, k, decay);
        Quotients(WeightSum(other.origins, weights), (k + 1) as real, (k + 1) as real);
        Quotients((k + 1) as real, WeightSum(other.origins, weights), (k + 1) as real);
      }
    }
  }

  lemma OutweighedLead(
    batches: seq<Batch>, scored: seq<Scored>, gs: seq<string>, weights: Weights, k: nat, decay: real)
    requires Outweighed(gs, weights, k) && NonNegativeWeights(weights) && 0.0 <= decay <= 1.0
    requires Runs(batches, gs) && FusesTo(batches, scored, weights, k, decay)
    ensures ExactLeads(scored, HeardAll(map[], batches))
  {
    hide Runs, HeardAll, IsFused, ExactLeads, Outweighed, Light, Credited;
    forall id | id in HeardAll(map[], batches)
      ensures Light(HeardAll(map[], batches)[id], weights, k)
    {
      HeardFromRuns(batches, gs, id);
      FewerAreOutweighed(HeardAll(map[], batches)[id], gs, weights, k);
    }
    LightLead(batches, scored, gs, weights, k, decay);
  }

  lemma PrecedesScores(a: Scored, b: Scored)
    requires Precedes(a, b)
    ensures a.total >= b.total
  {
  }

  // ---- And only then -------------------------------------------------------------------

  const OTHER := "a"
  const SOUGHT := "b"

  /** Every other generator puts one block first. */
  function Praise(gs: seq<string>): seq<Batch> {
    if gs == [] then [] else Praise(gs[..|gs| - 1]) + [Batch(gs[|gs| - 1], [Hit(OTHER, 0.0)], 0, false)]
  }

  /** The lookup finds what was sought at rank `n`. */
  function LookedUp(n: nat): (b: Batch)
    requires n >= 1
    ensures b.generator == EXACT_LOOKUP && b.depth == 0 && b.exact && |b.hits| == n
    ensures forall i :: 0 <= i < n ==> b.hits[i] == Hit(if i == n - 1 then SOUGHT else "c", 0.0)
  {
    Batch(EXACT_LOOKUP, seq(n, i requires 0 <= i < n => Hit(if i == n - 1 then SOUGHT else "c", 0.0)), 0, true)
  }

  lemma {:induction false} LookupSays(n: nat, m: nat)
    requires 1 <= n && m <= n
    ensures SaidFirst(LookedUp(n), m, OTHER) == []
    ensures SaidFirst(LookedUp(n), m, SOUGHT) == if m < n then [] else [Opinion(EXACT_LOOKUP, n, 0.0, 0, true)]
  {
    hide LookedUp;
    if m > 0 {
      LookupSays(n, m - 1);
    }
  }

  lemma {:induction false} PraiseSays(gs: seq<string>)
    requires Distinct(gs)
    ensures Said(Praise(gs), SOUGHT) == []
    ensures
      var e := Weighed(NOTHING, Said(Praise(gs), OTHER));
      && e.origins == gs && e.depth == 0 && !e.exact
      && (forall g :: g in e.ranks <==> g in gs) && (forall g :: g in gs ==> e.ranks[g] == 1)
    decreases |gs|
  {
    if gs != [] {
      var init, g := gs[..|gs| - 1], gs[|gs| - 1];
      assert gs == init + [g];
      DistinctInit(init, g);
      PraiseSays(init);
      var b := Batch(g, [Hit(OTHER, 0.0)], 0, false);
      var o := OpinionAt(b, 0);
      assert SaidFirst(b, 0, OTHER) == [] && SaidIn(b, OTHER) == [o];
      assert SaidFirst(b, 0, SOUGHT) == [] && SaidIn(b, SOUGHT) == [];
      SaidAppends(Praise(init), [b], OTHER);
      SaidAppends(Praise(init), [b], SOUGHT);
      SaidOne(b, OTHER);
      SaidOne(b, SOUGHT);
      WeighedOneMore(NOTHING, Said(Praise(init), OTHER), o);
    }
  }

  lemma {:induction false} SumAtTheTop(gs: seq<string>, ranks: map<string, Rank>, weights: Weights, k: nat)
    requires forall g :: g in gs ==> g in ranks && ranks[g] == 1
    ensures Sum(gs, ranks, weights, k) == WeightSum(gs, weights) / (k + 1) as real
  {
    if gs != [] {
      SumAtTheTop(gs[..|gs| - 1], ranks, weights, k);
      Adds(WeightSum(gs[..|gs| - 1], weights), WeightOf(weights, gs[|gs| - 1]), (k + 1) as real);
    }
  }

  /** A candidate that the lookup alone named. */
  lemma LookupScores(n: nat, weights: Weights, k: nat, decay: real)
    requires n >= 1
    ensures
      var e := Contributed(NOTHING, Opinion(EXACT_LOOKUP, n, 0.0, 0, true));
      && Credited(e) && e.exact && e.depth == 0
      && Total(e, weights, k, decay) == Share(WeightOf(weights, EXACT_LOOKUP), k, n) + 1.0
  {
    hide Share, WeightOf, Sum, Damped;
    var e := Contributed(NOTHING, Opinion(EXACT_LOOKUP, n, 0.0, 0, true));
    ContributedCredits(NOTHING, Opinion(EXACT_LOOKUP, n, 0.0, 0, true));
    assert e.origins == [EXACT_LOOKUP];
    SumOfOne(EXACT_LOOKUP, e.ranks, weights, k);
  }

  lemma SumOfOne(g: string, ranks: map<string, Rank>, weights: Weights, k: nat)
    requires g in ranks
    ensures Sum([g], ranks, weights, k) == Share(WeightOf(weights, g), k, ranks[g])
  {
    hide Share, WeightOf;
    assert [g][..0] == [];
    SumStops(ranks, weights, k);
  }

  lemma SoughtScores(gs: seq<string>, n: nat, weights: Weights, k: nat, decay: real)
    requires n >= 1 && Distinct(gs)
    ensures
      var e := Weighed(NOTHING, Said(Praise(gs) + [LookedUp(n)], SOUGHT));
      && Said(Praise(gs) + [LookedUp(n)], SOUGHT) != [] && Credited(e) && e.exact && e.depth == 0
      && Total(e, weights, k, decay) == Share(WeightOf(weights, EXACT_LOOKUP), k, n) + 1.0
  {
    hide Praise, LookedUp, Said, Weighed, Contributed, Total, Credited, Share;
    SaidAppends(Praise(gs), [LookedUp(n)], SOUGHT);
    SaidOne(LookedUp(n), SOUGHT);
    LookupSays(n, n);
    PraiseSays(gs);
    LookupScores(n, weights, k, decay);
    var o := Opinion(EXACT_LOOKUP, n, 0.0, 0, true);
    assert Said(Praise(gs) + [LookedUp(n)], SOUGHT) == [o];
    WeighedOneMore(NOTHING, [], o);
    NothingWeighs(NOTHING);
    assert [] + [o] == [o];
  }

  lemma OtherScores(gs: seq<string>, n: nat, weights: Weights, k: nat, decay: real)
    requires gs != [] && n >= 1 && Distinct(gs)
    ensures
      var e := Weighed(NOTHING, Said(Praise(gs) + [LookedUp(n)], OTHER));
      && Said(Praise(gs) + [LookedUp(n)], OTHER) != [] && Credited(e) && !e.exact && e.depth == 0
      && Total(e, weights, k, decay) == WeightSum(gs, weights) / (k + 1) as real
  {
    hide Praise, LookedUp, Said, Weighed, Sum, WeightSum;
    SaidAppends(Praise(gs), [LookedUp(n)], OTHER);
    SaidOne(LookedUp(n), OTHER);
    LookupSays(n, n);
    PraiseSays(gs);
    var said := Said(Praise(gs), OTHER);
    assert Said(Praise(gs) + [LookedUp(n)], OTHER) == said;
    WeighedSummarizes(said);
    NothingWeighs(NOTHING);
    SumAtTheTop(gs, Weighed(NOTHING, said).ranks, weights, k);
  }

  /** The two candidates of the witness, and what they score. */
  lemma WitnessScores(gs: seq<string>, n: nat, weights: Weights, k: nat, decay: real)
    requires gs != [] && n >= 1 && Distinct(gs)
    ensures
      var pool := HeardAll(map[], Praise(gs) + [LookedUp(n)]);
      && AllCredited(pool) && OTHER in pool && SOUGHT in pool
      && !pool[OTHER].exact && pool[SOUGHT].exact && pool[OTHER].depth == pool[SOUGHT].depth == 0
      && Total(pool[OTHER], weights, k, decay) == WeightSum(gs, weights) / (k + 1) as real
      && Total(pool[SOUGHT], weights, k, decay) == Share(WeightOf(weights, EXACT_LOOKUP), k, n) + 1.0
  {
    hide HeardAll, Said, Praise, LookedUp, Weighed, Total, Credited, Share, WeightSum;
    var batches := Praise(gs) + [LookedUp(n)];
    HeardAllIsCredited(batches);
    HeardAllWeighs(batches, OTHER);
    HeardAllWeighs(batches, SOUGHT);
    OtherScores(gs, n, weights, k, decay);
    SoughtScores(gs, n, weights, k, decay);
  }

  lemma {:induction false} ListPool(pool: Pool, ids: set<string>, weights: Weights, k: nat, decay: real)
    returns (found: seq<Scored>)
    requires AllCredited(pool) && ids <= pool.Keys
    ensures Distinct(found)
    ensures forall x :: x in found <==>
      x.block in ids && x.depth == pool[x.block].depth && x.total == Total(pool[x.block], weights, k, decay)
  {
    hide Total, Credited;
    found := [];
    if ids != {} {
      var id :| id in ids;
      found := ListPool(pool, ids - {id}, weights, k, decay);
      var x := Scored(id, Total(pool[id], weights, k, decay), pool[id].depth);
      DistinctGrows(found, x);
      found := found + [x];
    }
  }

  /** Every pool has its fused list. */
  lemma FusedExists(pool: Pool, weights: Weights, k: nat, decay: real) returns (scored: seq<Scored>)
    requires AllCredited(pool)
    ensures IsFused(scored, pool, weights, k, decay)
  {
    hide Total, Credited, Sorted, Precedes, Distinct;
    var found := ListPool(pool, pool.Keys, weights, k, decay);
    FusedIsSorted(found);
    scored := Sort(Precedes, found);
  }

  /** A rank at which the lookup's own share makes no difference any more. */
  lemma LateEnough(weight: real, m: real, k: nat) returns (n: nat)
    requires weight >= 0.0 && (m > (k + 1) as real || (m == (k + 1) as real && weight == 0.0))
    ensures n >= 1 && Share(weight, k, n) + 1.0 <= m / (k + 1) as real
  {
    var d := (k + 1) as real;
    Quotients(d, m, d);
    if m == d {
      n := 1;
      assert 0.0 / (k + n) as real == 0.0;
    } else {
      var gap := m / d - 1.0;
      Quotients(m, d, d);
      assert gap > 0.0;
      var bound := weight / gap;
      assert bound * gap == weight;
      assert bound >= 0.0 by { if bound < 0.0 { Signs(bound, gap); } }
      n := bound.Floor + 1;
      var rank := (k + n) as real;
      assert rank >= bound;
      assert rank * gap >= bound * gap by { assert (rank - bound) * gap >= 0.0; }
      Quotients(weight, rank * gap, rank);
      assert rank * gap / rank == gap;
    }
  }

  lemma Outranked(gs: seq<string>, weights: Weights, k: nat, decay: real)
    returns (batches: seq<Batch>, scored: seq<Scored>)
    requires Distinct(gs) && EXACT_LOOKUP !in gs && NonNegativeWeights(weights) && !Outweighed(gs, weights, k)
    ensures Runs(batches, gs) && FusesTo(batches, scored, weights, k, decay)
    ensures !ExactLeads(scored, HeardAll(map[], batches))
  {
    var n := LateEnough(WeightOf(weights, EXACT_LOOKUP), WeightSum(gs, weights), k);
    batches := Praise(gs) + [LookedUp(n)];
    WitnessScores(gs, n, weights, k, decay);
    PraiseRuns(gs);
    var pool := HeardAll(map[], batches);
    scored := FusedExists(pool, weights, k, decay);
    hide HeardAll, Total, Precedes, Distinct, Share, WeightSum;
    var x := Scored(OTHER, Total(pool[OTHER], weights, k, decay), 0);
    var y := Scored(SOUGHT, Total(pool[SOUGHT], weights, k, decay), 0);
    var i :| 0 <= i < |scored| && scored[i] == x;
    var j :| 0 <= j < |scored| && scored[j] == y;
    HigherComesFirst(scored, i, j);
    assert HeldIn(pool, scored[j].block).exact && !HeldIn(pool, scored[i].block).exact;
  }

  lemma {:induction false} PraiseRuns(gs: seq<string>)
    requires EXACT_LOOKUP !in gs
    ensures Runs(Praise(gs), gs)
    decreases |gs|
  {
    if gs != [] {
      PraiseRuns(gs[..|gs| - 1]);
    }
  }

  lemma HigherComesFirst(scored: seq<Scored>, i: nat, j: nat)
    requires Sorted(Precedes, scored) && i < |scored| && j < |scored|
    requires scored[i].block == OTHER && scored[j].block == SOUGHT
    requires scored[i].total >= scored[j].total && scored[i].depth == scored[j].depth
    ensures i < j
  {
    assert !StringLeq(SOUGHT, OTHER);
    if j < i {
      SortedPair(Precedes, scored, j, i);
    }
  }

  /**
    Exact hits come first, whatever a plan's generators answer, exactly when the other generators' weights add up to
    less than `k + 1`, or to just that when the lookup itself weighs something.
  */
  lemma ExactFirstIff(gs: seq<string>, weights: Weights, k: nat, decay: real)
    requires Distinct(gs) && EXACT_LOOKUP !in gs && NonNegativeWeights(weights) && 0.0 <= decay <= 1.0
    ensures AlwaysExactFirst(gs, weights, k, decay) <==> Outweighed(gs, weights, k)
  {
    hide Runs, FusesTo, ExactLeads, HeardAll, Outweighed, Distinct;
    if Outweighed(gs, weights, k) {
      forall batches, scored | Runs(batches, gs) && FusesTo(batches, scored, weights, k, decay)
        ensures ExactLeads(scored, HeardAll(map[], batches))
      {
        OutweighedLead(batches, scored, gs, weights, k, decay);
      }
    } else {
      var batches, scored := Outranked(gs, weights, k, decay);
    }
  }

  // ---- The weights in use ----------------------------------------------------------------

  datatype IntentKind = Exact | Navigational | Lexical | Semantic | Associative | Hybrid

  /** The fusion weights of each intent. */
  function Profile(kind: IntentKind): Weights {
    match kind
    case Exact => map[EXACT_LOOKUP := 1.0]
    case Navigational => map["RangeScan" := 1.0, "BitmapFilter" := 1.0, "SeqScan" := 1.0]
    case Lexical => map["TermScan" := 0.85, "VectorSearch" := 0.35, "BruteVector" := 0.35, "GraphExpand" := 0.20]
    case Semantic => map["VectorSearch" := 0.75, "BruteVector" := 0.75, "TermScan" := 0.50, "GraphExpand" := 0.25]
    case Associative => map["GraphExpand" := 0.60, "TermScan" := 0.50, "VectorSearch" := 0.50, "BruteVector" := 0.50]
    case Hybrid => map["TermScan" := 0.60, "VectorSearch" := 0.60, "BruteVector" := 0.60, "GraphExpand" := 0.30]
  }

  /** What a plan combines besides the lookup: terms, one form of vector search, and expansion; or one scan alone. */
  const APPROXIMATE: seq<string> := ["TermScan", "VectorSearch", "GraphExpand"]
  const BRUTE: seq<string> := ["TermScan", "BruteVector", "GraphExpand"]
  const INDEXED: seq<string> := ["TermScan", "VectorSearch", "BruteVector", "GraphExpand"]
  const SEQUENTIAL: seq<string> := ["SeqScan"]
  const DATED: seq<string> := ["DateScan"]

  /** Each module is searched by one form of vector search, and a block belongs to one module. */
  ghost predicate OneVectorForm(batches: seq<Batch>) {
    forall b, c, g, h ::
      b in batches && b.generator == "VectorSearch" && g in b.hits &&
      c in batches && c.generator == "BruteVector" && h in c.hits ==>
        g.block != h.block
  }

  /** The runs of a plan as the planner builds it: indexed generators together, or one exhaustive scan alone. */
  ghost predicate PlanRuns(batches: seq<Batch>) {
    || (Runs(batches, INDEXED) && OneVectorForm(batches))
    || Runs(batches, SEQUENTIAL)
    || Runs(batches, DATED)
  }

  lemma WeightSumOfThree(a: string, b: string, c: string, weights: Weights)
    ensures WeightSum([a], weights) == WeightOf(weights, a)
    ensures WeightSum([a, b, c], weights) == WeightOf(weights, a) + WeightOf(weights, b) + WeightOf(weights, c)
  {
    assert [a][..0] == [] && [a, b][..1] == [a] && [a, b, c][..2] == [a, b];
    assert WeightSum([a], weights) == WeightOf(weights, a);
    assert WeightSum([a, b], weights) == WeightOf(weights, a) + WeightOf(weights, b);
  }

  /** None of these weighs as much as 2, the least that `k + 1` can be. */
  lemma ProfileWeighs(kind: IntentKind, k: nat)
    requires k >= 1
    ensures NonNegativeWeights(Profile(kind))
    ensures Outweighed(APPROXIMATE, Profile(kind), k) && Outweighed(BRUTE, Profile(kind), k)
    ensures Outweighed(SEQUENTIAL, Profile(kind), k) && Outweighed(DATED, Profile(kind), k)
  {
    var w := Profile(kind);
    WeightSumOfThree("TermScan", "VectorSearch", "GraphExpand", w);
    WeightSumOfThree("TermScan", "BruteVector", "GraphExpand", w);
    WeightSumOfThree("SeqScan", "SeqScan", "SeqScan", w);
    WeightSumOfThree("DateScan", "DateScan", "DateScan", w);
  }

  lemma OriginComes(batches: seq<Batch>, id: string, g: string)
    requires id in HeardAll(map[], batches) && g in HeardAll(map[], batches)[id].origins
    ensures exists b, h :: b in batches && b.generator == g && h in b.hits && h.block == id
  {
    hide HeardAll, Weighed, Said, Distinct;
    HeardAllWeighs(batches, id);
    WeighedSummarizes(Said(batches, id));
    var o :| o in Said(batches, id) && o.generator == g;
    SaidComes(batches, id, o);
    var b :| b in batches && Gives(b, id, o);
    var h :| h in b.hits && h.block == id;
  }

  /** No candidate is named by both forms of vector search. */
  lemma OriginsHaveOneForm(batches: seq<Batch>, id: string)
    requires Runs(batches, INDEXED) && OneVectorForm(batches) && id in HeardAll(map[], batches)
    requires !HeardAll(map[], batches)[id].exact
    ensures
      var gs := HeardAll(map[], batches)[id].origins;
      (forall g :: g in gs ==> g in APPROXIMATE) || (forall g :: g in gs ==> g in BRUTE)
  {
    hide HeardAll, Runs;
    HeardFromRuns(batches, INDEXED, id);
    var gs := HeardAll(map[], batches)[id].origins;
    if "VectorSearch" in gs && "BruteVector" in gs {
      OriginComes(batches, id, "VectorSearch");
      OriginComes(batches, id, "BruteVector");
    }
  }

  lemma PlansAreLight(kind: IntentKind, k: nat, batches: seq<Batch>, id: string)
    requires k >= 1 && PlanRuns(batches) && id in HeardAll(map[], batches)
    ensures Light(HeardAll(map[], batches)[id], Profile(kind), k)
  {
    hide HeardAll, Runs, OneVectorForm, Outweighed, Light, Profile, NonNegativeWeights, Credited;
    ProfileWeighs(kind, k);
    var e := HeardAll(map[], batches)[id];
    var gs := if Runs(batches, INDEXED) then INDEXED else if Runs(batches, SEQUENTIAL) then SEQUENTIAL else DATED;
    HeardFromRuns(batches, gs, id);
    if e.exact {
      FewerAreOutweighed(e, DATED, Profile(kind), k);
    } else if Runs(batches, SEQUENTIAL) {
      HeardFromRuns(batches, SEQUENTIAL, id);
      FewerAreOutweighed(e, SEQUENTIAL, Profile(kind), k);
    } else if Runs(batches, DATED) {
      HeardFromRuns(batches, DATED, id);
      FewerAreOutweighed(e, DATED, Profile(kind), k);
    } else {
      OriginsHaveOneForm(batches, id);
      FewerAreOutweighed(
        e, if forall g :: g in e.origins ==> g in APPROXIMATE then APPROXIMATE else BRUTE, Profile(kind), k);
    }
  }

  /** With the weights in use, exact hits come first in every plan, at every constant the configuration allows. */
  lemma ProfilesPutExactFirst(kind: IntentKind, k: nat, decay: real, batches: seq<Batch>, scored: seq<Scored>)
    requires k >= 1 && 0.0 <= decay <= 1.0
    requires PlanRuns(batches) && FusesTo(batches, scored, Profile(kind), k, decay)
    ensures ExactLeads(scored, HeardAll(map[], batches))
  {
    hide HeardAll, Runs, OneVectorForm, Profile, Light, FusesTo, ExactLeads, NonNegativeWeights;
    ProfileWeighs(kind, k);
    forall id | id in HeardAll(map[], batches)
      ensures Light(HeardAll(map[], batches)[id], Profile(kind), k)
    {
      PlansAreLight(kind, k, batches, id);
    }
    var gs := if Runs(batches, INDEXED) then INDEXED else if Runs(batches, SEQUENTIAL) then SEQUENTIAL else DATED;
    LightLead(batches, scored, gs, Profile(kind), k, decay);
  }

  // ---- Normalizing ---------------------------------------------------------------------

  function Least(x: real, y: real): real {
    if x <= y then x else y
  }

  function Normalized(scored: seq<Scored>): (out: seq<Scored>)
    ensures |out| == |scored|
  {
    if scored == [] then [] else
      var top := scored[0].total;
      if top <= 0.0 then seq(|scored|, i requires 0 <= i < |scored| => scored[i].(total := 0.0))
      else seq(|scored|, i requires 0 <= i < |scored| => scored[i].(total := Least(1.0, scored[i].total / top)))
  }

  /** Below a positive top score, normalizing is division: nothing is clipped. */
  lemma NormalizedAt(scored: seq<Scored>, i: nat)
    requires Sorted(Precedes, scored) && i < |scored| && forall x :: x in scored ==> x.total >= 0.0
    ensures
      var top, out := scored[0].total, Normalized(scored)[i];
      && out.block == scored[i].block && 0.0 <= out.total <= 1.0 && scored[i].total <= top
      && (top > 0.0 ==> out.total == scored[i].total / top)
      && (top <= 0.0 ==> out.total == 0.0 && scored[i].total == 0.0)
  {
    if i > 0 { SortedPair(Precedes, scored, 0, i); }
    assert scored[i] in scored;
    var top := scored[0].total;
    if top > 0.0 {
      Quotients(scored[i].total, top, top);
      Quotients(0.0, scored[i].total, top);
    }
  }

  /** Normalizing keeps the blocks and their order, puts every score in [0, 1] and the best one at 1. */
  lemma NormalizedKeepsOrder(scored: seq<Scored>, i: nat, j: nat)
    requires Sorted(Precedes, scored) && i < j < |scored| && forall x :: x in scored ==> x.total >= 0.0
    ensures
      var out := Normalized(scored);
      && out[i].block == scored[i].block && out[j].block == scored[j].block
      && 0.0 <= out[j].total <= out[i].total <= 1.0
      && (out[i].total == out[j].total <==> scored[i].total == scored[j].total)
      && (scored[0].total > 0.0 ==> out[0].total == 1.0)
  {
    SortedPair(Precedes, scored, i, j);
    NormalizedAt(scored, i);
    NormalizedAt(scored, j);
    NormalizedAt(scored, 0);
    hide Normalized, Sorted;
    var top := scored[0].total;
    if top > 0.0 {
      Quotients(scored[i].total, scored[j].total, top);
      Quotients(scored[j].total, scored[i].total, top);
    }
  }
}
