/**
  Several modules' graphs, unioned at query time: `FederatedGraphView.expand` grows a frontier hop by hop, asking
  every graph for one hop from every frontier node.
*/
module FederatedGraph {
  import opened Wrappers
  import opened Walks
  import opened Ordering
  import opened Ranking
  import opened GraphSearch
  import opened GraphIndex

  ghost predicate Fractions(arcs: iset<Arc<string>>) {
    forall a :: a in arcs ==> 0.0 <= a.factor <= 1.0
  }

  lemma PassIsMonotone(arcs: iset<Arc<string>>, x: real, y: real, a: Arc<string>)
    requires Fractions(arcs) && a in arcs && x <= y
    ensures Pass(x, a) <= Pass(y, a)
  {
    Scale(y, x, a.factor);
  }

  lemma PassShrinks(arcs: iset<Arc<string>>, x: real, a: Arc<string>)
    requires Fractions(arcs) && a in arcs && 0.0 <= x <= 1.0
    ensures 0.0 <= Pass(x, a) <= 1.0 && Pass(x, a) <= x
  {
    Scale(x, 0.0, a.factor);
    Scale(1.0, a.factor, x);
  }

  lemma AttainedPasses(arcs: iset<Arc<string>>, seeds: set<string>, e: Entry<string>, a: Arc<string>)
    requires Attained(arcs, seeds, e) && a in arcs && a.from == e.node
    ensures Attained(arcs, seeds, Entry(a.to, Pass(e.score, a), e.depth + 1))
  {
    AttainedExtends(arcs, seeds, e, a);
  }

  // ---- What the view promises ----------------------------------------------------

  /** Some walk of at most `depth` hops reaches the node with that score, and some walk takes that many hops. */
  ghost predicate Witnessed(arcs: iset<Arc<string>>, seeds: set<string>, depth: nat, v: string, entry: (real, nat)) {
    && (exists hops: nat :: 1 <= hops <= depth && Attained(arcs, seeds, Entry(v, entry.0, hops)))
    && 1 <= entry.1 <= depth
    && (exists score :: Attained(arcs, seeds, Entry(v, score, entry.1)))
  }

  ghost predicate AllWitnessed(arcs: iset<Arc<string>>, seeds: set<string>, depth: nat, best: Best) {
    forall v :: v in best ==> Witnessed(arcs, seeds, depth, v, best[v])
  }

  /** No walk of at most `depth` hops to a node that is no seed scores more or is shorter than what is recorded. */
  ghost predicate Dominates(best: Best, path: seq<Arc<string>>)
    requires path != []
  {
    End(path) in best && Score(path) <= best[End(path)].0 && best[End(path)].1 <= |path|
  }

  ghost predicate AllDominated(arcs: iset<Arc<string>>, seeds: set<string>, depth: nat, best: Best) {
    forall path :: IsWalk(arcs, seeds, path) && |path| <= depth && End(path) !in seeds ==> Dominates(best, path)
  }

  /** Each node that is no seed has the best score of any walk, and its hop distance from the seeds. */
  ghost predicate Federated(arcs: iset<Arc<string>>, seeds: set<string>, depth: nat, best: Best) {
    AllWitnessed(arcs, seeds, depth, best) && AllDominated(arcs, seeds, depth, best)
  }

  /**
    What the view reports: nodes that walks reach, best first; when it is complete, all of them, each with the best
    score and the hop distance.
  */
  ghost predicate Surveys(
    merged: seq<Entry<string>>, arcs: iset<Arc<string>>, seeds: set<string>, depth: nat, complete: bool)
  {
    exists best: Best :: IsListing(merged, best, seeds) && AllWitnessed(arcs, seeds, depth, best)
      && (complete ==> Federated(arcs, seeds, depth, best))
  }

  // ---- One hop -------------------------------------------------------------------

  ghost predicate Known(seeds: set<string>, best: Best, u: string) {
    u in seeds || u in best
  }

  /** What a node passes on: a seed always starts afresh. */
  ghost function Value(seeds: set<string>, best: Best, u: string): real
    requires Known(seeds, best, u)
  {
    if u in seeds then 1.0 else best[u].0
  }

  /** A node outside the frontier has nothing left to pass on. */
  ghost predicate Spent(arcs: iset<Arc<string>>, seeds: set<string>, best: Best, u: string)
    requires Known(seeds, best, u)
  {
    forall a :: a in arcs && a.from == u && a.to !in seeds ==>
      a.to in best && Pass(Value(seeds, best, u), a) <= best[a.to].0
  }

  /** The state after `d` hops: the frontier holds what the last hop improved. */
  ghost predicate Hopped(
    arcs: iset<Arc<string>>, seeds: set<string>, d: nat, best: Best, frontier: map<string, real>)
  {
    && AllWitnessed(arcs, seeds, d, best)
    && (forall u :: u in frontier ==>
          && Known(seeds, best, u) && frontier[u] == Value(seeds, best, u)
          && Attained(arcs, seeds, Entry(u, frontier[u], d)))
  }

  ghost predicate Complete(
    arcs: iset<Arc<string>>, seeds: set<string>, d: nat, best: Best, frontier: map<string, real>)
  {
    && (forall u :: Known(seeds, best, u) && u !in frontier ==> Spent(arcs, seeds, best, u))
    && AllDominated(arcs, seeds, d, best)
    && (d > 0 ==> forall u :: u in seeds ==> u !in frontier)
  }

  /** What one hop found: at each node, the frontier value times some arc into it, and no such product is larger. */
  ghost predicate Found(arcs: iset<Arc<string>>, frontier: map<string, real>, following: map<string, real>) {
    forall v :: v in following ==> exists a ::
      a in arcs && a.to == v && a.from in frontier && following[v] == Pass(frontier[a.from], a)
  }

  ghost predicate Offered(arcs: iset<Arc<string>>, score: real, u: string, following: map<string, real>) {
    forall a :: a in arcs && a.from == u && a.to != u ==> a.to in following && Pass(score, a) <= following[a.to]
  }

  ghost predicate AllOffered(arcs: iset<Arc<string>>, frontier: map<string, real>, following: map<string, real>) {
    forall u :: u in frontier ==> Offered(arcs, frontier[u], u, following)
  }

  predicate Improves(best: Best, following: map<string, real>, v: string) {
    v in following && (v !in best || best[v].0 < following[v])
  }

  function Improved(best: Best, following: map<string, real>, depth: nat, v: string): (real, nat)
    requires v in following
  {
    (following[v], if v in best && best[v].1 < depth then best[v].1 else depth)
  }

  /** The second loop of a hop, as what it makes of each node. */
  ghost predicate Settled(
    best: Best, following: map<string, real>, depth: nat, seeds: set<string>, best': Best, frontier: map<string, real>)
  {
    && (forall v :: v in best' <==> v in best || v in following)
    && (forall v :: v in best' && !Improves(best, following, v) ==> best'[v] == best[v])
    && (forall v :: v in best' && Improves(best, following, v) ==> best'[v] == Improved(best, following, depth, v))
    && (forall v :: v in frontier <==> Improves(best, following, v) && v !in seeds)
    && (forall v :: v in frontier ==> frontier[v] == following[v])
  }

  lemma ScoresAreFractions(arcs: iset<Arc<string>>, seeds: set<string>, path: seq<Arc<string>>)
    requires Fractions(arcs) && IsWalk(arcs, seeds, path)
    ensures 0.0 <= Score(path) <= 1.0 && Score(path) <= Score(Init(path)) <= 1.0
    decreases |path|
  {
    if |path| > 1 {
      ScoresAreFractions(arcs, seeds, Init(path));
    } else {
      assert Init(path) == [];
    }
    PassShrinks(arcs, Score(Init(path)), path[|path| - 1]);
  }

  // ---- A hop keeps the invariant ---------------------------------------------------

  lemma WitnessedGrows(arcs: iset<Arc<string>>, seeds: set<string>, d: nat, v: string, entry: (real, nat))
    requires Witnessed(arcs, seeds, d, v, entry)
    ensures Witnessed(arcs, seeds, d + 1, v, entry)
  {
    hide Attained;
  }

  lemma FoundIsAttained(
    arcs: iset<Arc<string>>, seeds: set<string>, d: nat, best: Best, frontier: map<string, real>,
    following: map<string, real>, v: string)
    requires Hopped(arcs, seeds, d, best, frontier) && Found(arcs, frontier, following) && v in following
    ensures Attained(arcs, seeds, Entry(v, following[v], d + 1))
  {
    hide Attained, AllWitnessed, Known, Value, Pass;
    var a :| a in arcs && a.to == v && a.from in frontier && following[v] == Pass(frontier[a.from], a);
    AttainedPasses(arcs, seeds, Entry(a.from, frontier[a.from], d), a);
  }

  lemma HopIsWitnessed(
    arcs: iset<Arc<string>>, seeds: set<string>, d: nat, best: Best, frontier: map<string, real>,
    following: map<string, real>, best': Best, frontier': map<string, real>, v: string)
    requires Hopped(arcs, seeds, d, best, frontier) && Found(arcs, frontier, following)
    requires Settled(best, following, d + 1, seeds, best', frontier') && v in best'
    ensures Witnessed(arcs, seeds, d + 1, v, best'[v])
  {
    hide Attained, Found;
    if v in best {
      WitnessedGrows(arcs, seeds, d, v, best[v]);
    }
    if v in following {
      FoundIsAttained(arcs, seeds, d, best, frontier, following, v);
    }
  }

  lemma HopKeeps(
    arcs: iset<Arc<string>>, seeds: set<string>, d: nat, best: Best, frontier: map<string, real>,
    following: map<string, real>, best': Best, frontier': map<string, real>)
    requires Hopped(arcs, seeds, d, best, frontier) && Found(arcs, frontier, following)
    requires Settled(best, following, d + 1, seeds, best', frontier')
    ensures Hopped(arcs, seeds, d + 1, best', frontier')
  {
    hide Attained, Witnessed, Found;
    forall v | v in best'
      ensures Witnessed(arcs, seeds, d + 1, v, best'[v])
    {
      HopIsWitnessed(arcs, seeds, d, best, frontier, following, best', frontier', v);
    }
    forall u | u in frontier'
      ensures Attained(arcs, seeds, Entry(u, frontier'[u], d + 1))
    {
      FoundIsAttained(arcs, seeds, d, best, frontier, following, u);
    }
  }

  lemma ValueIsFraction(
    arcs: iset<Arc<string>>, seeds: set<string>, d: nat, best: Best, frontier: map<string, real>, u: string)
    requires Fractions(arcs) && Hopped(arcs, seeds, d, best, frontier) && Known(seeds, best, u)
    ensures 0.0 <= Value(seeds, best, u) <= 1.0
  {
    if u !in seeds {
      assert Witnessed(arcs, seeds, d, u, best[u]);
      var hops: nat :| 1 <= hops <= d && Attained(arcs, seeds, Entry(u, best[u].0, hops));
      var path :| WalksTo(arcs, seeds, hops, u, path) && |path| == hops && Score(path) == best[u].0;
      ScoresAreFractions(arcs, seeds, path);
    }
  }

  /** What a hop leaves outside the new frontier has passed on all it has. */
  lemma HopSpends(
    arcs: iset<Arc<string>>, seeds: set<string>, d: nat, best: Best, frontier: map<string, real>,
    following: map<string, real>, best': Best, frontier': map<string, real>, u: string)
    requires Fractions(arcs) && Hopped(arcs, seeds, d, best, frontier) && Complete(arcs, seeds, d, best, frontier)
    requires AllOffered(arcs, frontier, following)
    requires Settled(best, following, d + 1, seeds, best', frontier')
    requires Known(seeds, best', u) && u !in frontier'
    ensures Spent(arcs, seeds, best', u)
  {
    ValueIsFraction(arcs, seeds, d, best, frontier, u);
    hide AllWitnessed, AllDominated, Attained, Pass, Fractions;
    var value := Value(seeds, best, u);
    assert Value(seeds, best', u) == value;
    forall a | a in arcs && a.from == u && a.to !in seeds
      ensures a.to in best' && Pass(value, a) <= best'[a.to].0
    {
      PassShrinks(arcs, value, a);
      if u in frontier {
        assert Offered(arcs, frontier[u], u, following);
      } else {
        assert Spent(arcs, seeds, best, u);
      }
    }
  }

  /** One hop reaches every walk that is one hop longer. */
  lemma HopDominates(
    arcs: iset<Arc<string>>, seeds: set<string>, d: nat, best: Best, frontier: map<string, real>,
    following: map<string, real>, best': Best, frontier': map<string, real>, path: seq<Arc<string>>)
    requires Fractions(arcs) && Hopped(arcs, seeds, d, best, frontier) && Complete(arcs, seeds, d, best, frontier)
    requires AllOffered(arcs, frontier, following)
    requires Settled(best, following, d + 1, seeds, best', frontier')
    requires IsWalk(arcs, seeds, path) && |path| == d + 1 && End(path) !in seeds
    ensures End(path) in best' && Score(path) <= best'[End(path)].0
  {
    var a, init := path[|path| - 1], Init(path);
    WalkIsKnown(arcs, seeds, d, best, frontier, path);
    ScoresAreFractions(arcs, seeds, path);
    hide IsWalk, AllWitnessed, AllDominated, Attained, Pass, Fractions, Score;
    PassIsMonotone(arcs, Score(init), Value(seeds, best, a.from), a);
    if a.from in frontier {
      assert Offered(arcs, frontier[a.from], a.from, following);
    } else {
      assert Spent(arcs, seeds, best, a.from);
    }
  }

  /** Where the last arc of a walk starts is known, and worth at least what the walk had there. */
  lemma WalkIsKnown(
    arcs: iset<Arc<string>>, seeds: set<string>, d: nat, best: Best, frontier: map<string, real>,
    path: seq<Arc<string>>)
    requires Fractions(arcs) && Complete(arcs, seeds, d, best, frontier)
    requires IsWalk(arcs, seeds, path) && |path| == d + 1
    ensures
      var u := path[|path| - 1].from;
      Known(seeds, best, u) && Score(Init(path)) <= Value(seeds, best, u) && path[|path| - 1] in arcs
  {
    hide Spent;
    ScoresAreFractions(arcs, seeds, path);
    if d > 0 {
      assert End(Init(path)) !in seeds ==> Dominates(best, Init(path));
    }
  }

  lemma DepthIsWithin(arcs: iset<Arc<string>>, seeds: set<string>, d: nat, v: string, entry: (real, nat))
    requires Witnessed(arcs, seeds, d, v, entry)
    ensures entry.1 <= d
  {
  }

  lemma HopCompletes(
    arcs: iset<Arc<string>>, seeds: set<string>, d: nat, best: Best, frontier: map<string, real>,
    following: map<string, real>, best': Best, frontier': map<string, real>)
    requires Fractions(arcs) && Hopped(arcs, seeds, d, best, frontier) && Complete(arcs, seeds, d, best, frontier)
    requires Found(arcs, frontier, following) && AllOffered(arcs, frontier, following)
    requires Settled(best, following, d + 1, seeds, best', frontier')
    ensures Complete(arcs, seeds, d + 1, best', frontier')
  {
    hide Spent, Hopped, AllOffered, Found, Fractions, Score, Witnessed;
    forall u | Known(seeds, best', u) && u !in frontier'
      ensures Spent(arcs, seeds, best', u)
    {
      HopSpends(arcs, seeds, d, best, frontier, following, best', frontier', u);
    }
    forall path | IsWalk(arcs, seeds, path) && |path| <= d + 1 && End(path) !in seeds
      ensures Dominates(best', path)
    {
      if |path| <= d {
        assert Dominates(best, path);
      } else {
        HopDominates(arcs, seeds, d, best, frontier, following, best', frontier', path);
        HopIsWitnessed(arcs, seeds, d, best, frontier, following, best', frontier', End(path));
        DepthIsWithin(arcs, seeds, d + 1, End(path), best'[End(path)]);
      }
    }
  }

  /** With an empty frontier every further hop changes nothing, so what is known holds to any depth. */
  lemma {:induction false} RestIsIdle(arcs: iset<Arc<string>>, seeds: set<string>, d: nat, depth: nat, best: Best)
    requires Fractions(arcs) && Hopped(arcs, seeds, d, best, map[]) && Complete(arcs, seeds, d, best, map[])
    requires d <= depth
    ensures Federated(arcs, seeds, depth, best)
    decreases depth - d
  {
    hide AllWitnessed, AllDominated, Attained;
    if d < depth {
      HopKeeps(arcs, seeds, d, best, map[], map[], best, map[]);
      HopCompletes(arcs, seeds, d, best, map[], map[], best, map[]);
      RestIsIdle(arcs, seeds, d + 1, depth, best);
    }
  }

  // ---- Several graphs, one hop -------------------------------------------------------

  /** The arcs of every graph together. */
  ghost function Union(graphs: seq<Index>, q: Query): iset<Arc<string>>
    reads graphs
  {
    iset g, a | g in graphs && a in Arcs(g.edges, q) :: a
  }

  ghost predicate Ready(graphs: seq<Index>)
    reads graphs
  {
    forall g :: g in graphs ==> g.Valid() && forall e :: e in g.edges ==> 0.0 <= e.weight <= 1.0
  }

  function Hop(q: Query, source: string): Query {
    q.(seeds := [source], depth := 1)
  }

  lemma HopTakesTheSameArcs(edges: seq<Edge>, q: Query, source: string)
    ensures Arcs(edges, Hop(q, source)) == Arcs(edges, q)
  {
    forall a | a in Arcs(edges, q)
      ensures a in Arcs(edges, Hop(q, source))
    {
      var e :| e in edges && Follows(q, e.kind, e.relation) && Orient(e, q) == a;
      assert Orient(e, Hop(q, source)) == a;
    }
    forall a | a in Arcs(edges, Hop(q, source))
      ensures a in Arcs(edges, q)
    {
      var e :| e in edges && Follows(Hop(q, source), e.kind, e.relation) && Orient(e, Hop(q, source)) == a;
      assert Orient(e, q) == a;
    }
  }

  /** What one hop out of `source` reports: one entry per neighbour, scored by its best arc. */
  ghost predicate Neighbourly(arcs: iset<Arc<string>>, source: string, results: seq<Entry<string>>) {
    forall r :: r in results ==> exists a :: a in arcs && a.from == source && a.to == r.node && a.factor == r.score
  }

  ghost predicate Exhaustive(arcs: iset<Arc<string>>, source: string, results: seq<Entry<string>>) {
    forall a :: a in arcs && a.from == source && a.to != source ==>
      exists r :: r in results && r.node == a.to && a.factor <= r.score
  }

  lemma OneHopWalk(arcs: iset<Arc<string>>, source: string, path: seq<Arc<string>>)
    requires |path| == 1
    ensures IsWalk(arcs, {source}, path) <==> path[0] in arcs && path[0].from == source
    ensures Score(path) == path[0].factor && End(path) == path[0].to
  {
    assert Init(path) == [];
  }

  lemma ReportIsNeighbourly(arcs: iset<Arc<string>>, source: string, results: seq<Entry<string>>)
    requires exists exact :: Reports(results, arcs, {source}, 1, exact)
    ensures Neighbourly(arcs, source, results)
  {
    var best: Best :| IsListing(results, best, {source}) && Reported(arcs, {source}, 1, best);
    forall r | r in results
      ensures exists a :: a in arcs && a.from == source && a.to == r.node && a.factor == r.score
    {
      var path :| WalksTo(arcs, {source}, 1, r.node, path) && |path| == 1 && Score(path) == r.score;
      OneHopWalk(arcs, source, path);
      assert path[0] in arcs;
    }
  }

  lemma ReportIsExhaustive(arcs: iset<Arc<string>>, source: string, results: seq<Entry<string>>)
    requires Reports(results, arcs, {source}, 1, true)
    ensures Exhaustive(arcs, source, results)
  {
    hide IsListing, Exact, Reported, Exhaustive;
    var best: Best :| IsListing(results, best, {source}) && Exact(arcs, {source}, 1, best);
    ExactIsExhaustive(arcs, source, best, results);
  }

  lemma ExactIsExhaustive(arcs: iset<Arc<string>>, source: string, best: Best, results: seq<Entry<string>>)
    requires Exact(arcs, {source}, 1, best) && IsListing(results, best, {source})
    ensures Exhaustive(arcs, source, results)
  {
    hide Reported, Score, Sorted, Distinct;
    forall a | a in arcs && a.from == source && a.to != source
      ensures exists r :: r in results && r.node == a.to && a.factor <= r.score
    {
      OneHopWalk(arcs, source, [a]);
      assert WalksTo(arcs, {source}, 1, a.to, [a]);
      var r := Entry(a.to, best[a.to].0, best[a.to].1);
      assert Unbeaten(arcs, {source}, 1, r);
      assert r in results;
    }
  }

  // ---- The loops ---------------------------------------------------------------------

  /** Keep the better of two scores. */
  function Keep(following: map<string, real>, v: string, reached: real): map<string, real> {
    if reached > (if v in following then following[v] else -1.0) then following[v := reached] else following
  }

  ghost predicate Grown(before: map<string, real>, after: map<string, real>) {
    forall v :: v in before ==> v in after && before[v] <= after[v]
  }

  lemma OfferedGrows(
    arcs: iset<Arc<string>>, score: real, u: string, before: map<string, real>, after: map<string, real>)
    requires Offered(arcs, score, u, before) && Grown(before, after)
    ensures Offered(arcs, score, u, after)
  {
    hide Pass;
  }

  /** What an entry of an answer is worth to a source of the given value. */
  function Worth(score: real, r: Entry<string>): real {
    score * r.score
  }

  /** The entries handled so far have been offered. */
  ghost predicate Taken(score: real, results: seq<Entry<string>>, n: nat, following: map<string, real>)
    requires n <= |results|
  {
    forall i :: 0 <= i < n ==> results[i].node in following && Worth(score, results[i]) <= following[results[i].node]
  }

  lemma TakenIsOffered(
    arcs: iset<Arc<string>>, score: real, u: string, results: seq<Entry<string>>, following: map<string, real>)
    requires 0.0 <= score && Exhaustive(arcs, u, results) && Taken(score, results, |results|, following)
    ensures Offered(arcs, score, u, following)
  {
    forall a | a in arcs && a.from == u && a.to != u
      ensures a.to in following && Pass(score, a) <= following[a.to]
    {
      var r :| r in results && r.node == a.to && a.factor <= r.score;
      var i :| 0 <= i < |results| && results[i] == r;
      Scale(r.score, a.factor, score);
    }
  }

  /** One entry of one graph's answer. */
  lemma KeepIsFound(
    arcs: iset<Arc<string>>, all: iset<Arc<string>>, frontier: map<string, real>, u: string,
    results: seq<Entry<string>>,
    i: nat, following: map<string, real>)
    requires Found(all, frontier, following) && u in frontier && 0.0 <= frontier[u]
    requires Neighbourly(arcs, u, results) && i < |results| && (forall a :: a in arcs ==> a in all) && Fractions(arcs)
    ensures
      var more := Keep(following, results[i].node, Worth(frontier[u], results[i]));
      Found(all, frontier, more) && Grown(following, more)
      && results[i].node in more && Worth(frontier[u], results[i]) <= more[results[i].node]
  {
    var r := results[i];
    assert r in results;
    var a :| a in arcs && a.from == u && a.to == r.node && a.factor == r.score;
    assert Worth(frontier[u], r) == Pass(frontier[u], a);
    Scale(frontier[u], 0.0, a.factor);
    hide Pass, Worth;
  }

  /** The answer of one graph for one frontier node. */
  method Merge(results: seq<Entry<string>>, u: string, frontier: map<string, real>, following: map<string, real>,
               ghost arcs: iset<Arc<string>>, ghost all: iset<Arc<string>>)
    returns (following': map<string, real>)
    requires Found(all, frontier, following) && u in frontier && 0.0 <= frontier[u]
    requires Neighbourly(arcs, u, results) && (forall a :: a in arcs ==> a in all) && Fractions(arcs)
    ensures Found(all, frontier, following') && Grown(following, following')
    ensures Exhaustive(arcs, u, results) ==> Offered(arcs, frontier[u], u, following')
  {
    hide Found, Neighbourly, Exhaustive, Offered, Fractions, Worth, Keep;
    following' := following;
    for i := 0 to |results|
      invariant Found(all, frontier, following') && Grown(following, following')
      invariant Taken(frontier[u], results, i, following')
    {
      KeepIsFound(arcs, all, frontier, u, results, i, following');
      following' := Keep(following', results[i].node, Worth(frontier[u], results[i]));
    }
    if Exhaustive(arcs, u, results) {
      TakenIsOffered(arcs, frontier[u], u, results, following');
    }
  }

  lemma UnionHolds(graphs: seq<Index>, q: Query, g: Index)
    requires Ready(graphs) && g in graphs && 0.0 <= q.decay <= 1.0
    ensures (forall a :: a in Arcs(g.edges, q) ==> a in Union(graphs, q)) && Fractions(Arcs(g.edges, q))
  {
    EdgesAreFractions(g.edges, q);
  }

  lemma Fraction(x: real, y: real)
    requires 0.0 <= x <= 1.0 && 0.0 <= y <= 1.0
    ensures 0.0 <= x * y <= 1.0
  {
    Scale(x, 0.0, y);
    Scale(1.0, x, y);
    assert x * y <= 1.0 * y;
    assert 1.0 * y == y;
  }

  lemma EdgesAreFractions(edges: seq<Edge>, q: Query)
    requires 0.0 <= q.decay <= 1.0 && forall e :: e in edges ==> 0.0 <= e.weight <= 1.0
    ensures Fractions(Arcs(edges, q))
  {
    forall a | a in Arcs(edges, q)
      ensures 0.0 <= a.factor <= 1.0
    {
      var e :| e in edges && Follows(q, e.kind, e.relation) && Orient(e, q) == a;
      Fraction(e.weight, q.decay);
    }
  }

  lemma UnionIsFractions(graphs: seq<Index>, q: Query)
    requires Ready(graphs) && 0.0 <= q.decay <= 1.0
    ensures Fractions(Union(graphs, q))
  {
    forall a | a in Union(graphs, q)
      ensures 0.0 <= a.factor <= 1.0
    {
      var g :| g in graphs && a in Arcs(g.edges, q);
      UnionHolds(graphs, q, g);
    }
  }

  /** One graph's answer for one hop out of one node. */
  method Ask(graphs: seq<Index>, g: Index, q: Query, u: string) returns (results: seq<Entry<string>>)
    requires Ready(graphs) && g in graphs && 0.0 <= q.decay <= 1.0
    ensures Neighbourly(Arcs(g.edges, q), u, results)
    ensures q.maxNodes >= 1 ==> Exhaustive(Arcs(g.edges, q), u, results)
  {
    hide Arcs, Reports, Neighbourly, Exhaustive;
    HopTakesTheSameArcs(g.edges, q, u);
    results := g.Expand(Hop(q, u));
    assert SeedSet(Hop(q, u)) == {u};
    ReportIsNeighbourly(Arcs(g.edges, q), u, results);
    if q.maxNodes >= 1 {
      ReportIsExhaustive(Arcs(g.edges, q), u, results);
    }
  }

  ghost predicate OfferedBy(graphs: seq<Index>, n: nat, q: Query, score: real, u: string, following: map<string, real>)
    requires n <= |graphs|
    reads graphs
  {
    forall k :: 0 <= k < n ==> Offered(Arcs(graphs[k].edges, q), score, u, following)
  }

  lemma OfferedByAll(graphs: seq<Index>, q: Query, score: real, u: string, following: map<string, real>)
    requires OfferedBy(graphs, |graphs|, q, score, u, following)
    ensures Offered(Union(graphs, q), score, u, following)
  {
    hide Arcs, Pass;
    forall a | a in Union(graphs, q) && a.from == u && a.to != u
      ensures a.to in following && Pass(score, a) <= following[a.to]
    {
      var g :| g in graphs && a in Arcs(g.edges, q);
      var k :| 0 <= k < |graphs| && graphs[k] == g;
      assert Offered(Arcs(graphs[k].edges, q), score, u, following);
    }
  }

  /** Every graph, for one frontier node. */
  method AskAll(graphs: seq<Index>, q: Query, u: string, frontier: map<string, real>, following: map<string, real>)
    returns (following': map<string, real>)
    requires Ready(graphs) && 0.0 <= q.decay <= 1.0
    requires Found(Union(graphs, q), frontier, following) && u in frontier && 0.0 <= frontier[u]
    ensures Found(Union(graphs, q), frontier, following') && Grown(following, following')
    ensures q.maxNodes >= 1 ==> Offered(Union(graphs, q), frontier[u], u, following')
  {
    hide Arcs, Found, Union, Offered, Neighbourly, Exhaustive, Fractions, Ready;
    following' := following;
    for k := 0 to |graphs|
      invariant Found(Union(graphs, q), frontier, following') && Grown(following, following')
      invariant q.maxNodes >= 1 ==> OfferedBy(graphs, k, q, frontier[u], u, following')
    {
      ghost var before := following';
      var results := Ask(graphs, graphs[k], q, u);
      UnionHolds(graphs, q, graphs[k]);
      following' := Merge(results, u, frontier, following', Arcs(graphs[k].edges, q), Union(graphs, q));
      if q.maxNodes >= 1 {
        forall j | 0 <= j < k
          ensures Offered(Arcs(graphs[j].edges, q), frontier[u], u, following')
        {
          OfferedGrows(Arcs(graphs[j].edges, q), frontier[u], u, before, following');
        }
      }
    }
    if q.maxNodes >= 1 {
      OfferedByAll(graphs, q, frontier[u], u, following');
    }
  }

  /** The first loop of a hop: every frontier node, in whatever order. */
  method Gather(graphs: seq<Index>, q: Query, frontier: map<string, real>) returns (following: map<string, real>)
    requires Ready(graphs) && 0.0 <= q.decay <= 1.0
    requires forall u :: u in frontier ==> 0.0 <= frontier[u]
    ensures Found(Union(graphs, q), frontier, following)
    ensures q.maxNodes >= 1 ==> AllOffered(Union(graphs, q), frontier, following)
  {
    following := map[];
    var todo := frontier.Keys;
    hide Found, Union, Offered, Ready;
    NothingFound(Union(graphs, q), frontier);
    while todo != {}
      invariant todo <= frontier.Keys
      invariant Found(Union(graphs, q), frontier, following)
      invariant q.maxNodes >= 1 ==>
        forall u :: u in frontier && u !in todo ==> Offered(Union(graphs, q), frontier[u], u, following)
      decreases |todo|
    {
      var u :| u in todo;
      ghost var before := following;
      following := AskAll(graphs, q, u, frontier, following);
      if q.maxNodes >= 1 {
        forall w | w in frontier && w !in todo
          ensures Offered(Union(graphs, q), frontier[w], w, following)
        {
          OfferedGrows(Union(graphs, q), frontier[w], w, before, following);
        }
      }
      todo := todo - {u};
    }
  }

  lemma NothingFound(all: iset<Arc<string>>, frontier: map<string, real>)
    ensures Found(all, frontier, map[])
  {
  }

  /** The second loop of a hop: record what improved, and let it carry on unless it is a seed. */
  method Settle(best: Best, following: map<string, real>, depth: nat, seeds: set<string>)
    returns (best': Best, frontier: map<string, real>)
    ensures Settled(best, following, depth, seeds, best', frontier)
  {
    best', frontier := best, map[];
    var todo := following.Keys;
    while todo != {}
      invariant todo <= following.Keys
      invariant forall v :: v in best' <==> v in best || (v in following && v !in todo)
      invariant forall v :: v in best' && (v in todo || !Improves(best, following, v)) ==> best'[v] == best[v]
      invariant forall v :: v in best' && v !in todo && Improves(best, following, v) ==>
        best'[v] == Improved(best, following, depth, v)
      invariant forall v :: v in frontier <==> v !in todo && Improves(best, following, v) && v !in seeds
      invariant forall v :: v in frontier ==> frontier[v] == following[v]
      decreases |todo|
    {
      var v :| v in todo;
      if v !in best' || following[v] > best'[v].0 {
        best' := best'[v := (following[v], if v in best' && best'[v].1 < depth then best'[v].1 else depth)];
        if v !in seeds {
          frontier := frontier[v := following[v]];
        }
      }
      todo := todo - {v};
    }
  }

  lemma NoHopYet(arcs: iset<Arc<string>>, seeds: set<string>)
    ensures
      var frontier := map v | v in seeds :: 1.0;
      Hopped(arcs, seeds, 0, map[], frontier) && Complete(arcs, seeds, 0, map[], frontier)
  {
    var frontier := map v | v in seeds :: 1.0;
    assert frontier.Keys == seeds;
  }

  lemma FrontierIsFractions(
    arcs: iset<Arc<string>>, seeds: set<string>, d: nat, best: Best, frontier: map<string, real>)
    requires Fractions(arcs) && Hopped(arcs, seeds, d, best, frontier)
    ensures forall u :: u in frontier ==> 0.0 <= frontier[u]
  {
    forall u | u in frontier
      ensures 0.0 <= frontier[u]
    {
      ValueIsFraction(arcs, seeds, d, best, frontier, u);
    }
  }

  class View {
    const graphs: seq<Index>

    constructor (graphs: seq<Index>)
      ensures this.graphs == graphs
    {
      this.graphs := graphs;
    }

    /**
      Expand across every graph. Each node reported was reached by walks with the score and the depth given; unless
      the ceiling was met, the score is the best of any walk in the union and the depth is the hop distance.
    */
    method Expand(q: Query) returns (merged: seq<Entry<string>>)
      requires Ready(graphs) && 0.0 <= q.decay <= 1.0
      ensures Surveys(merged, Union(graphs, q), SeedSet(q), q.depth, |merged| + |SeedSet(q)| < q.maxNodes)
    {
      hide Union, Ready, Fractions, Hopped, Complete, AllWitnessed, IsListing, Federated, SeedSet;
      ghost var all := Union(graphs, q);
      UnionIsFractions(graphs, q);
      var origin := Elements(q.seeds);
      var held: Best := map[];
      var frontier := map v | v in origin :: 1.0;
      var d := 0;
      NoHopYet(all, origin);
      while d < q.depth
        invariant d <= q.depth
        invariant Hopped(all, origin, d, held, frontier)
        invariant q.maxNodes >= 1 ==> Complete(all, origin, d, held, frontier)
      {
        held, frontier := Advance(graphs, q, origin, d, held, frontier);
        d := d + 1;
        if |held| >= q.maxNodes || frontier == map[] {
          break;
        }
      }
      merged := Rank(held, origin);
      HopsAreFederated(all, origin, d, q.depth, held, frontier, q.maxNodes >= 1);
      assert SeedSet(q) == origin by { SeedsAreListed(q); }
    }
  }

  /** One hop: gather what the frontier offers, then settle it. */
  method Advance(graphs: seq<Index>, q: Query, seeds: set<string>, d: nat, best: Best, frontier: map<string, real>)
    returns (best': Best, frontier': map<string, real>)
    requires Ready(graphs) && 0.0 <= q.decay <= 1.0 && Fractions(Union(graphs, q))
    requires Hopped(Union(graphs, q), seeds, d, best, frontier)
    ensures Hopped(Union(graphs, q), seeds, d + 1, best', frontier')
    ensures q.maxNodes >= 1 && Complete(Union(graphs, q), seeds, d, best, frontier) ==>
      Complete(Union(graphs, q), seeds, d + 1, best', frontier')
  {
    hide Union, Ready, Fractions, Hopped, Complete, Settled, Found, AllOffered;
    FrontierIsFractions(Union(graphs, q), seeds, d, best, frontier);
    var following := Gather(graphs, q, frontier);
    best', frontier' := Settle(best, following, d + 1, seeds);
    HopKeeps(Union(graphs, q), seeds, d, best, frontier, following, best', frontier');
    if q.maxNodes >= 1 && Complete(Union(graphs, q), seeds, d, best, frontier) {
      HopCompletes(Union(graphs, q), seeds, d, best, frontier, following, best', frontier');
    }
  }

  /** However the loop ended, its state says what the view promises, unless it ended at the ceiling. */
  lemma HopsAreFederated(
    arcs: iset<Arc<string>>, seeds: set<string>, d: nat, depth: nat, best: Best, frontier: map<string, real>,
    complete: bool)
    requires Fractions(arcs) && Hopped(arcs, seeds, d, best, frontier) && d <= depth
    requires complete ==> Complete(arcs, seeds, d, best, frontier)
    ensures AllWitnessed(arcs, seeds, depth, best)
    ensures complete && (d == depth || frontier == map[]) ==> Federated(arcs, seeds, depth, best)
  {
    if complete && frontier == map[] {
      RestIsIdle(arcs, seeds, d, depth, best);
    }
  }

  // ---- Against a single graph ------------------------------------------------------------

  /** The two traversals' best scores agree; the view's depth is the hop distance, so never the larger of the two. */
  lemma ScoresAgree(arcs: iset<Arc<string>>, seeds: set<string>, depth: nat, exact: Best, best: Best, v: string)
    requires Exact(arcs, seeds, depth, exact) && Federated(arcs, seeds, depth, best) && v !in seeds
    ensures v in exact <==> v in best
    ensures v in exact ==> best[v].0 == exact[v].0 && best[v].1 <= exact[v].1
  {
    if v in exact {
      ExactIsDominated(arcs, seeds, depth, exact, best, v);
    }
    if v in best {
      WitnessIsUnbeaten(arcs, seeds, depth, exact, best, v);
    }
  }

  lemma ExactIsDominated(arcs: iset<Arc<string>>, seeds: set<string>, depth: nat, exact: Best, best: Best, v: string)
    requires Exact(arcs, seeds, depth, exact) && Federated(arcs, seeds, depth, best) && v !in seeds && v in exact
    ensures v in best && exact[v].0 <= best[v].0 && best[v].1 <= exact[v].1
  {
    hide Unbeaten, AllWitnessed, IsWalk, Score;
    var e := Entry(v, exact[v].0, exact[v].1);
    assert Attained(arcs, seeds, e);
    var path :| WalksTo(arcs, seeds, e.depth, v, path) && |path| == e.depth && Score(path) == e.score;
    assert Dominates(best, path);
  }

  lemma WitnessIsUnbeaten(arcs: iset<Arc<string>>, seeds: set<string>, depth: nat, exact: Best, best: Best, v: string)
    requires Exact(arcs, seeds, depth, exact) && Federated(arcs, seeds, depth, best) && v in best
    ensures v in exact && best[v].0 <= exact[v].0
  {
    hide AllDominated, Dominates, Score;
    assert Witnessed(arcs, seeds, depth, v, best[v]);
    var hops: nat :| 1 <= hops <= depth && Attained(arcs, seeds, Entry(v, best[v].0, hops));
    var path :| WalksTo(arcs, seeds, hops, v, path) && |path| == hops && Score(path) == best[v].0;
    assert Unbeaten(arcs, seeds, depth, Entry(v, exact[v].0, exact[v].1));
    assert WalksTo(arcs, seeds, depth, v, path);
  }

  /** The depths agree exactly when some shortest walk also has the best score. */
  lemma DepthsAgreeIff(arcs: iset<Arc<string>>, seeds: set<string>, depth: nat, exact: Best, best: Best, v: string)
    requires Exact(arcs, seeds, depth, exact) && Federated(arcs, seeds, depth, best) && v !in seeds && v in exact
    ensures v in best
    ensures best[v].1 == exact[v].1 <==> Attained(arcs, seeds, Entry(v, exact[v].0, best[v].1))
  {
    ScoresAgree(arcs, seeds, depth, exact, best, v);
    hide AllDominated, Score, IsWalk;
    assert Witnessed(arcs, seeds, depth, v, best[v]);
    if Attained(arcs, seeds, Entry(v, exact[v].0, best[v].1)) {
      var path :| WalksTo(arcs, seeds, best[v].1, v, path) && |path| == best[v].1 && Score(path) == exact[v].0;
      assert WalksTo(arcs, seeds, depth, v, path);
      assert Unbeaten(arcs, seeds, depth, Entry(v, exact[v].0, exact[v].1));
    }
  }

  /** Over one graph the union is that graph. */
  lemma UnionOfOne(g: Index, q: Query)
    ensures Union([g], q) == Arcs(g.edges, q)
  {
  }

  /** The two reports over one graph name the same nodes with the same scores, the view never at a larger depth. */
  lemma ReportsAgree(g: Index, q: Query, a: seq<Entry<string>>, b: seq<Entry<string>>)
    requires Reports(a, Arcs(g.edges, q), SeedSet(q), q.depth, true)
    requires Surveys(b, Union([g], q), SeedSet(q), q.depth, true)
    ensures forall e :: e in a ==> exists f :: f in b && f.node == e.node && f.score == e.score && f.depth <= e.depth
    ensures forall f :: f in b ==> exists e :: e in a && e.node == f.node && e.score == f.score && f.depth <= e.depth
  {
    hide Exact, Reported, AllWitnessed, Federated, Arcs, Union, SeedSet;
    var arcs, seeds := Arcs(g.edges, q), SeedSet(q);
    UnionOfOne(g, q);
    var exact: Best :| IsListing(a, exact, seeds) && Exact(arcs, seeds, q.depth, exact);
    var best: Best :| IsListing(b, best, seeds) && Federated(arcs, seeds, q.depth, best);
    forall v | v !in seeds
      ensures v in exact <==> v in best
      ensures v in exact ==> best[v].0 == exact[v].0 && best[v].1 <= exact[v].1
    {
      ScoresAgree(arcs, seeds, q.depth, exact, best, v);
    }
    forall e | e in a
      ensures exists f :: f in b && f.node == e.node && f.score == e.score && f.depth <= e.depth
    {
      assert Entry(e.node, best[e.node].0, best[e.node].1) in b;
    }
    forall f | f in b
      ensures exists e :: e in a && e.node == f.node && e.score == f.score && f.depth <= e.depth
    {
      assert Entry(f.node, exact[f.node].0, exact[f.node].1) in a;
    }
  }
}
