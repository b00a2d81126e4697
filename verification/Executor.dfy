/**
  Running a plan: generators feed the fusion pool node by node, a graph expansion starts from what is already there,
  and the fixed tail turns the fused list into a bundle.
*/
module Executor {
  import opened Wrappers
  import opened Walks
  import opened Ordering
  import opened Ranking
  import opened Fusion
  import opened GraphSearch
  import opened GraphIndex
  import opened FederatedGraph
  import opened Bundle
  import TermLookup
  import VectorLookup

  const DECAY := 0.5

  function Limit(hint: int): nat {
    if hint < 1 then 1 else hint
  }

  function NoteOf(v: Verdict): seq<Degradation> {
    if v.Dropped? && v.note.Some? then [v.note.value] else []
  }

  class Tail {
    const scope: Scope
    const weights: Weights
    const k: nat
    const hint: int
    var degradations: seq<Degradation>

    constructor (scope: Scope, weights: Weights, k: nat, hint: int)
      ensures this.scope == scope && this.weights == weights && this.k == k && this.hint == hint
      ensures degradations == []
    {
      this.scope, this.weights, this.k, this.hint := scope, weights, k, hint;
      degradations := [];
    }

    /** The first installed module that holds the block decides; a failure is recorded, a filtered row is not. */
    method Verify(id: string, origins: seq<string>, score: real) returns (found: Option<Match>)
      modifies `degradations
      ensures found.Some? <==> VerdictOf(scope, id, origins).Admitted?
      ensures found.Some? ==> found.value == Match(id, score, VerdictOf(scope, id, origins).resolvable)
      ensures degradations == old(degradations) + NoteOf(VerdictOf(scope, id, origins))
    {
      for i := 0 to |scope.modules|
        invariant VerdictFrom(scope, id, origins, i) == VerdictOf(scope, id, origins)
        invariant degradations == old(degradations)
      {
        var m := scope.modules[i];
        if id !in m.members {
          continue;
        }
        if id !in m.provable {
          degradations := degradations + [Degradation(VerificationFailed, id)];
          return None;
        }
        if id !in m.resolvable {
          if !Admissible(origins) {
            degradations := degradations + [Degradation(IndexStale, id)];
            return None;
          }
          if HasFilters(scope.filters) {
            return None;
          }
          return Some(Match(id, score, false));
        }
        if id !in m.blocks {
          degradations := degradations + [Degradation(VerificationFailed, id)];
          return None;
        }
        if !MatchesFilters(scope.filters, m.blocks[id]) || !MatchesCatalog(scope, m.blocks[id]) {
          return None;
        }
        return Some(Match(id, score, true));
      }
      return None;
    }

    /** Verify down the normalized list until the limit is reached. */
    method Collect(pool: Pool, normalized: seq<Scored>, limit: nat)
      returns (matches: seq<Match>, dropped: bool, ghost n: nat)
      modifies `degradations
      ensures n <= |normalized| && matches == Verified(scope, pool, normalized[..n]) && |matches| <= limit
      ensures dropped <==> n < |normalized|
      ensures n < |normalized| ==> |matches| == limit
    {
      matches, dropped, n := [], false, 0;
      for i := 0 to |normalized|
        invariant !dropped && n == i && matches == Verified(scope, pool, normalized[..i]) && |matches| <= limit
      {
        if |matches| >= limit {
          dropped := true;
          break;
        }
        var x := normalized[i];
        assert normalized[..i + 1][..i] == normalized[..i];
        var found := Verify(x.block, OriginsOf(pool, x.block), x.total);
        if found.Some? {
          matches := matches + [found.value];
        }
        n := i + 1;
      }
    }

    /** Fuse, hide, filter, cut, verify, bundle. */
    method Finalize(table: Table, residual: bool, exhausted: bool)
      returns (bundle: Evidences, ghost scored: seq<Scored>)
      requires Separate(table) && AllCredited(PoolOf(table))
      modifies `degradations
      ensures IsFused(scored, PoolOf(table), weights, k, DECAY)
      ensures Finalized(scope, residual, Limit(hint), PoolOf(table), scored, exhausted, bundle)
    {
      hide IsFused, AllCredited, Verified, Normalized, Survives;
      var limit := Limit(hint);
      var fused := Fuse(table, weights, k, DECAY);
      scored := fused;
      var survivors := Survivors(scope, residual, fused);
      var top := Reserve(scope, residual, limit, fused);
      var pool := PoolOf(table);
      var matches, dropped, n := Collect(pool, Normalized(top), limit);
      bundle := Evidences(matches, dropped || |survivors| > 2 * limit || !exhausted);
      assert FinalizedAt(scope, residual, limit, PoolOf(table), scored, exhausted, bundle, n);
    }
  }

  // ---- Expanding from the fused hits ----------------------------------------------------

  /** Blocks matched directly, from which an expansion starts. */
  function SeedsIn(pool: Pool): set<string> {
    set id | id in pool && pool[id].depth == 0
  }

  function Expansion(seeds: seq<string>, depth: nat, k: nat): Query {
    Query(seeds, depth, {}, {}, false, DECAY, 4 * k)
  }

  function Installed(s: Scope): set<string> {
    set m, id | m in s.modules && id in m.members :: id
  }

  /** The entries of a report that are installed, as hits. */
  function HitsIn(installed: set<string>, reached: seq<Entry<string>>): seq<Hit> {
    if reached == [] then [] else
      var e := reached[|reached| - 1];
      HitsIn(installed, reached[..|reached| - 1]) + (if e.node in installed then [Hit(e.node, e.score)] else [])
  }

  lemma {:induction false} HitsHold(installed: set<string>, reached: seq<Entry<string>>, h: Hit)
    ensures h in HitsIn(installed, reached) <==>
      h.block in installed && exists e :: e in reached && e.node == h.block && e.score == h.score
  {
    if reached != [] {
      var n := |reached| - 1;
      HitsHold(installed, reached[..n], h);
      assert reached == reached[..n] + [reached[n]];
    }
  }

  /**
    Nothing is missing from an expansion: its hits are exactly the installed blocks some walk of at most `depth` hops
    reaches from the seeds, each with the best score of any such walk.
  */
  ghost predicate Whole(
    arcs: iset<Arc<string>>, seeds: set<string>, depth: nat, installed: set<string>, hits: seq<Hit>)
  {
    exists best :: WholeBy(arcs, seeds, depth, installed, hits, best)
  }

  ghost predicate WholeBy(
    arcs: iset<Arc<string>>, seeds: set<string>, depth: nat, installed: set<string>, hits: seq<Hit>, best: Best)
  {
    && Federated(arcs, seeds, depth, best)
    && forall h :: h in hits <==>
         h.block in installed && h.block !in seeds && h.block in best && best[h.block].0 == h.score
  }

  lemma ListingIsWhole(
    arcs: iset<Arc<string>>, seeds: set<string>, depth: nat, installed: set<string>, reached: seq<Entry<string>>)
    requires Surveys(reached, arcs, seeds, depth, true)
    ensures Whole(arcs, seeds, depth, installed, HitsIn(installed, reached))
  {
    hide Federated;
    var best: Best :| IsListing(reached, best, seeds) && Federated(arcs, seeds, depth, best);
    forall h
      ensures h in HitsIn(installed, reached) <==>
        h.block in installed && h.block !in seeds && h.block in best && best[h.block].0 == h.score
    {
      HitsHold(installed, reached, h);
      if h.block in best {
        var e := Entry(h.block, best[h.block].0, best[h.block].1);
        assert e in reached <==> h.block !in seeds;
      }
    }
    assert WholeBy(arcs, seeds, depth, installed, HitsIn(installed, reached), best);
  }

  /** From no seeds, or over no graphs, there is nothing to reach. */
  lemma NothingIsWhole(arcs: iset<Arc<string>>, seeds: set<string>, depth: nat, installed: set<string>)
    requires seeds == {} || arcs == iset{}
    ensures Whole(arcs, seeds, depth, installed, [])
  {
    forall path
      ensures !IsWalk(arcs, seeds, path)
    {
      NoWalk(arcs, seeds, path);
    }
    assert Federated(arcs, seeds, depth, map[]);
    assert WholeBy(arcs, seeds, depth, installed, [], map[]);
  }

  lemma {:induction false} NoWalk(arcs: iset<Arc<string>>, seeds: set<string>, path: seq<Arc<string>>)
    requires seeds == {} || arcs == iset{}
    ensures !IsWalk(arcs, seeds, path)
    decreases |path|
  {
    if |path| > 1 {
      NoWalk(arcs, seeds, Init(path));
    }
  }

  /** The seeds, in whatever order the pool yields them. */
  method CollectSeeds(pool: Pool) returns (seeds: seq<string>)
    ensures forall id :: id in seeds <==> id in SeedsIn(pool)
  {
    seeds := [];
    var todo := pool.Keys;
    while todo != {}
      invariant todo <= pool.Keys
      invariant forall id :: id in seeds <==> id in SeedsIn(pool) && id !in todo
      decreases |todo|
    {
      var id :| id in todo;
      if pool[id].depth == 0 {
        seeds := seeds + [id];
      }
      todo := todo - {id};
    }
  }

  /**
    Expand from the fused hits. Exhausted is only claimed when the traversal met no ceiling and nothing was cut, and
    then nothing is missing.
  */
  method Associate(graphs: seq<Index>, s: Scope, pool: Pool, depth: nat, k: nat)
    returns (hits: seq<Hit>, exhausted: bool)
    requires Ready(graphs)
    ensures |hits| <= k
    ensures exhausted ==>
      Whole(Union(graphs, Expansion([], depth, k)), SeedsIn(pool), depth, Installed(s), hits)
  {
    hide Whole, Ready, Union, Surveys, SeedsIn, Installed;
    var seeds := CollectSeeds(pool);
    if graphs == [] || seeds == [] {
      NoSeedsNoArcs(graphs, Expansion([], depth, k), SeedsIn(pool), seeds);
      NothingIsWhole(Union(graphs, Expansion([], depth, k)), SeedsIn(pool), depth, Installed(s));
      return [], true;
    }
    var q := Expansion(seeds, depth, k);
    var view := new View(graphs);
    var reached := view.Expand(q);
    var resolvable := HitsIn(Installed(s), reached);
    exhausted := |resolvable| <= k && |reached| + |seeds| < 4 * k;
    hits := if |resolvable| > k then resolvable[..k] else resolvable;
    if exhausted {
      SeedsDoNotChooseArcs(graphs, seeds, depth, k);
      assert SeedSet(q) == SeedsIn(pool) by { SeedsAreListed(q); }
      ElementsCount(seeds);
      ListingIsWhole(Union(graphs, q), SeedsIn(pool), depth, Installed(s), reached);
    }
  }

  lemma NoSeedsNoArcs(graphs: seq<Index>, q: Query, seeds: set<string>, listed: seq<string>)
    requires graphs == [] || listed == []
    requires forall id :: id in listed <==> id in seeds
    ensures seeds == {} || Union(graphs, q) == iset{}
  {
    if listed == [] {
      assert forall id :: id !in seeds;
    }
  }

  lemma SeedsDoNotChooseArcs(graphs: seq<Index>, seeds: seq<string>, depth: nat, k: nat)
    ensures Union(graphs, Expansion(seeds, depth, k)) == Union(graphs, Expansion([], depth, k))
  {
    forall g | g in graphs
      ensures Arcs(g.edges, Expansion(seeds, depth, k)) == Arcs(g.edges, Expansion([], depth, k))
    {
      SameArcs(g.edges, Expansion(seeds, depth, k), Expansion([], depth, k));
    }
  }

  lemma SameArcs(edges: seq<Edge>, q: Query, r: Query)
    requires q.kinds == r.kinds && q.predicates == r.predicates && q.inbound == r.inbound && q.decay == r.decay
    ensures Arcs(edges, q) == Arcs(edges, r)
  {
    forall e: Edge
      ensures Orient(e, q) == Orient(e, r) && (Follows(q, e.kind, e.relation) <==> Follows(r, e.kind, e.relation))
    {
    }
  }

  // ---- A whole plan -----------------------------------------------------------------------

  datatype DateHit = DateHit(block: string, at: string)

  /** What a vector node searches: its module's rows, when there is an index and a probe could be made. */
  datatype Search = Search(
    probe: Option<VectorLookup.Probe>, k: int, exactly: bool, engine: Option<nat -> seq<nat>>)
  {
    /** The engine, if there is one, returns the true best of the space. */
    ghost predicate Sound() {
      probe.Some? ==>
        && probe.value.Valid()
        && (engine.Some? ==> forall pool: nat :: VectorLookup.TrueTop(probe.value, pool, engine.value(pool)))
    }
  }

  /** What a term scan asks, when there is an index and any text. */
  datatype Scan = Scan(probe: Option<TermLookup.Probe>, k: int) {
    ghost predicate Sound() {
      probe.Some? ==> probe.value.Valid()
    }
  }

  /**
    A generator node: an exact lookup or a sequential scan with what it answered over its module, a term scan, a vector
    search, an expansion, or a chronological scan.
  */
  datatype Node =
    | Generator(op: string, owner: nat, hits: seq<Hit>, exhausted: bool)
    | Terms(op: string, owner: nat, scan: Scan)
    | Vectors(op: string, owner: nat, search: Search)
    | Expand(depth: nat, k: nat)
    | Dates(dated: seq<DateHit>)

  /** A module's mask: `None` when it could not be evaluated, which is not the same as admitting nothing. */
  type Masks = seq<Option<set<string>>>

  predicate MaskAdmits(masks: Masks, i: nat, id: string) {
    i >= |masks| || masks[i].None? || id in masks[i].value
  }

  /** An expansion crosses modules: a block is admitted when one of its owners admits it. */
  predicate OwnerAdmits(s: Scope, masks: Masks, id: string) {
    exists i :: 0 <= i < |s.modules| && id in s.modules[i].members && MaskAdmits(masks, i, id)
  }

  predicate ByBlock(a: DateHit, b: DateHit) {
    StringLeq(a.block, b.block)
  }

  predicate Newer(a: DateHit, b: DateHit) {
    StringLeq(b.at, a.at)
  }

  /** Two stable sorts: newest first, equal timestamps by identity. */
  function Chronological(dated: seq<DateHit>): seq<DateHit> {
    Sort(Newer, Sort(ByBlock, dated))
  }

  function DateBatch(dated: seq<DateHit>): Batch {
    var order := Chronological(dated);
    Batch("DateScan", seq(|order|, i requires 0 <= i < |order| => Hit(order[i].block, 1.0)), 0, false)
  }

  ghost predicate IsSound(node: Node) {
    (node.Terms? ==> node.scan.Sound()) && (node.Vectors? ==> node.search.Sound())
  }

  /** What a node contributed, given what it found if it is a search or an expansion. */
  function BatchOf(s: Scope, masks: Masks, node: Node, reached: seq<Hit>): seq<Batch> {
    match node
    case Generator(op, owner, hits, _) =>
      [Batch(op, Filter((h: Hit) => MaskAdmits(masks, owner, h.block), hits), 0, op == EXACT_LOOKUP)]
    case Terms(op, owner, _) =>
      [Batch(op, Filter((h: Hit) => MaskAdmits(masks, owner, h.block), reached), 0, false)]
    case Vectors(op, owner, _) =>
      [Batch(op, Filter((h: Hit) => MaskAdmits(masks, owner, h.block), reached), 0, false)]
    case Expand(_, _) =>
      [Batch(GRAPH_EXPAND, Filter((h: Hit) => OwnerAdmits(s, masks, h.block), reached), 1, false)]
    case Dates(_) => []
  }

  /**
    A mask only takes hits away: what a node contributes are the hits it found that the mask of its module holds, or all
    of them where there is none; an expansion's hits pass with any module that holds them.
  */
  lemma MasksAdmitIff(s: Scope, masks: Masks, node: Node, reached: seq<Hit>, h: Hit)
    ensures |BatchOf(s, masks, node, reached)| == if node.Dates? then 0 else 1
    ensures node.Generator? || node.Terms? || node.Vectors? ==>
      (h in BatchOf(s, masks, node, reached)[0].hits <==>
         h in (if node.Generator? then node.hits else reached)
         && (node.owner < |masks| && masks[node.owner].Some? ==> h.block in masks[node.owner].value))
    ensures node.Expand? ==>
      (h in BatchOf(s, masks, node, reached)[0].hits <==>
         h in reached && exists i :: 0 <= i < |s.modules| && h.block in s.modules[i].members
                                     && (i < |masks| && masks[i].Some? ==> h.block in masks[i].value))
  {
    if node.Expand? {
      FilterHolds((g: Hit) => OwnerAdmits(s, masks, g.block), reached, h);
    } else if !node.Dates? {
      var hits := if node.Generator? then node.hits else reached;
      FilterHolds((g: Hit) => MaskAdmits(masks, node.owner, g.block), hits, h);
    }
  }

  function BatchesOf(s: Scope, masks: Masks, nodes: seq<Node>, reached: seq<seq<Hit>>): seq<Batch>
    requires |reached| == |nodes|
  {
    if nodes == [] then [] else
      var n := |nodes| - 1;
      BatchesOf(s, masks, nodes[..n], reached[..n]) + BatchOf(s, masks, nodes[n], reached[n])
  }

  function DatedIn(nodes: seq<Node>): seq<DateHit> {
    if nodes == [] then [] else
      var n := |nodes| - 1;
      DatedIn(nodes[..n]) + (if nodes[n].Dates? then nodes[n].dated else [])
  }

  function AllBatches(s: Scope, masks: Masks, nodes: seq<Node>, reached: seq<seq<Hit>>): seq<Batch>
    requires |reached| == |nodes|
  {
    BatchesOf(s, masks, nodes, reached) + (if DatedIn(nodes) != [] then [DateBatch(DatedIn(nodes))] else [])
  }

  /** The hits of a vector search, in the order of its results. */
  function HitsOf(results: seq<Entry<string>>): (hits: seq<Hit>)
    ensures |hits| == |results| && forall i :: 0 <= i < |hits| ==> hits[i] == Hit(results[i].node, results[i].score)
  {
    seq(|results|, i requires 0 <= i < |results| => Hit(results[i].node, results[i].score))
  }

  /** A search that ran found every block its mask allows; one without an index or a probe has nothing to find. */
  ghost predicate Searched(search: Search, hits: seq<Hit>)
    requires search.Sound()
  {
    search.probe.Some? ==>
      exists results :: hits == HitsOf(results) && VectorLookup.Complete(search.probe.value, results)
  }

  /** A term scan that ran found every block that matches; one without an index or any text has nothing to find. */
  ghost predicate Scanned(scan: Scan, hits: seq<Hit>)
    requires scan.Sound()
  {
    scan.probe.Some? ==> exists results :: hits == HitsOf(results) && TermLookup.Complete(scan.probe.value, results)
  }

  /** The term scan: without an index or any text it finds nothing, and says it is exhausted. */
  method Lexical(scan: Scan) returns (hits: seq<Hit>, exhausted: bool)
    requires scan.Sound()
    ensures exhausted ==> Scanned(scan, hits)
  {
    if scan.probe.None? {
      return [], true;
    }
    hide TermLookup.Complete;
    var results;
    results, exhausted := TermLookup.Lookup(scan.probe.value, scan.k);
    hits := HitsOf(results);
  }

  /** The vector probe: without an index or an embedder it drops out, and says it is exhausted. */
  method Semantic(search: Search) returns (hits: seq<Hit>, exhausted: bool)
    requires search.Sound()
    ensures exhausted ==> Searched(search, hits)
  {
    if search.probe.None? {
      return [], true;
    }
    hide VectorLookup.Complete;
    var results;
    results, exhausted := VectorLookup.Search(search.probe.value, search.k, search.exactly, search.engine);
    hits := HitsOf(results);
  }

  /** A node left nothing out of its domain; an expansion, relative to the pool it started from. */
  ghost predicate NodeWhole(
    graphs: seq<Index>, s: Scope, masks: Masks, nodes: seq<Node>, reached: seq<seq<Hit>>, i: nat)
    requires |reached| == |nodes| && i < |nodes|
    reads graphs
  {
    match nodes[i]
    case Generator(_, _, _, exhausted) => exhausted
    case Terms(_, _, scan) => scan.Sound() && Scanned(scan, reached[i])
    case Vectors(_, _, search) => search.Sound() && Searched(search, reached[i])
    case Expand(depth, k) =>
      Whole(Union(graphs, Expansion([], depth, k)),
            SeedsIn(HeardAll(map[], BatchesOf(s, masks, nodes[..i], reached[..i]))), depth, Installed(s), reached[i])
    case Dates(_) => true
  }

  lemma BatchesGrow(s: Scope, masks: Masks, nodes: seq<Node>, reached: seq<seq<Hit>>, i: nat, more: seq<Hit>)
    requires i < |nodes| && |reached| == i
    ensures BatchesOf(s, masks, nodes[..i + 1], reached + [more])
         == BatchesOf(s, masks, nodes[..i], reached) + BatchOf(s, masks, nodes[i], more)
    ensures DatedIn(nodes[..i + 1]) == DatedIn(nodes[..i]) + (if nodes[i].Dates? then nodes[i].dated else [])
  {
    assert nodes[..i + 1][..i] == nodes[..i];
    assert (reached + [more])[..i] == reached;
  }

  ghost predicate AllWhole(graphs: seq<Index>, s: Scope, masks: Masks, nodes: seq<Node>, reached: seq<seq<Hit>>)
    requires |reached| == |nodes|
    reads graphs
  {
    forall i :: 0 <= i < |nodes| ==> NodeWhole(graphs, s, masks, nodes, reached, i)
  }

  /** One more node: the earlier ones stay whole, and the new one is if its flag says so. */
  lemma AllWholeGrows(
    graphs: seq<Index>, s: Scope, masks: Masks, nodes: seq<Node>, reached: seq<seq<Hit>>, node: Node, hits: seq<Hit>)
    requires |reached| == |nodes| && AllWhole(graphs, s, masks, nodes, reached)
    requires node.Generator? ==> node.exhausted
    requires node.Terms? ==> node.scan.Sound() && Scanned(node.scan, hits)
    requires node.Vectors? ==> node.search.Sound() && Searched(node.search, hits)
    requires node.Expand? ==>
      Whole(Union(graphs, Expansion([], node.depth, node.k)),
            SeedsIn(HeardAll(map[], BatchesOf(s, masks, nodes, reached))), node.depth, Installed(s), hits)
    ensures AllWhole(graphs, s, masks, nodes + [node], reached + [hits])
  {
    hide Whole, Union, HeardAll, SeedsIn, Installed, BatchesOf, Scanned, Searched;
    var nodes', reached' := nodes + [node], reached + [hits];
    forall i | 0 <= i < |nodes'|
      ensures NodeWhole(graphs, s, masks, nodes', reached', i)
    {
      if i < |nodes| {
        assert NodeWhole(graphs, s, masks, nodes, reached, i);
        assert nodes'[..i] == nodes[..i] && reached'[..i] == reached[..i];
      } else {
        assert nodes'[..i] == nodes && reached'[..i] == reached;
      }
    }
  }

  lemma HeardAllGrows(batches: seq<Batch>, b: Batch)
    ensures HeardAll(map[], batches + [b]) == HeardFirst(HeardAll(map[], batches), b, |b.hits|)
  {
    assert (batches + [b])[..|batches|] == batches;
  }

  /** One node of the plan: its hits enter the pool, and its flag joins the others. */
  method Turn(s: Scope, graphs: seq<Index>, masks: Masks, node: Node, table: Table, ghost batches: seq<Batch>)
    returns (table': Table, exhausted: bool, ghost reached: seq<Hit>)
    requires Ready(graphs) && Separate(table) && PoolOf(table) == HeardAll(map[], batches)
    requires IsSound(node)
    modifies table.Values
    ensures Separate(table') && fresh(table'.Values - table.Values)
    ensures PoolOf(table') == HeardAll(map[], batches + BatchOf(s, masks, node, reached))
    ensures exhausted ==>
      && (node.Generator? ==> node.exhausted)
      && (node.Terms? ==> Scanned(node.scan, reached))
      && (node.Vectors? ==> Searched(node.search, reached))
    ensures exhausted && node.Expand? ==>
      Whole(Union(graphs, Expansion([], node.depth, node.k)), SeedsIn(HeardAll(map[], batches)), node.depth,
            Installed(s), reached)
  {
    hide Whole, Union, Ready, HeardAll, SeedsIn, Installed, Scanned, Searched;
    table', exhausted, reached := table, true, [];
    match node
    case Generator(op, owner, hits, whole) =>
      var admitted := Filter((h: Hit) => MaskAdmits(masks, owner, h.block), hits);
      HeardAllGrows(batches, Batch(op, admitted, 0, op == EXACT_LOOKUP));
      table' := Accumulate(table, Batch(op, admitted, 0, op == EXACT_LOOKUP));
      exhausted := whole;
    case Terms(op, owner, scan) =>
      var hits;
      hits, exhausted := Lexical(scan);
      reached := hits;
      var admitted := Filter((h: Hit) => MaskAdmits(masks, owner, h.block), hits);
      HeardAllGrows(batches, Batch(op, admitted, 0, false));
      table' := Accumulate(table, Batch(op, admitted, 0, false));
    case Vectors(op, owner, search) =>
      var hits;
      hits, exhausted := Semantic(search);
      reached := hits;
      var admitted := Filter((h: Hit) => MaskAdmits(masks, owner, h.block), hits);
      HeardAllGrows(batches, Batch(op, admitted, 0, false));
      table' := Accumulate(table, Batch(op, admitted, 0, false));
    case Expand(depth, k) =>
      var hits;
      hits, exhausted := Associate(graphs, s, PoolOf(table), depth, k);
      reached := hits;
      var admitted := Filter((h: Hit) => OwnerAdmits(s, masks, h.block), hits);
      HeardAllGrows(batches, Batch(GRAPH_EXPAND, admitted, 1, false));
      table' := Accumulate(table, Batch(GRAPH_EXPAND, admitted, 1, false));
    case Dates(_) =>
      assert batches + [] == batches;
  }

  /**
    Run a plan. When the bundle does not say it is truncated, every term scan and every vector search that ran found
    all there is, every expansion is whole, no other generator reported otherwise, and the matches are exactly the
    candidates that may be seen and that verify, in fused order.
  */
  method Run(tail: Tail, graphs: seq<Index>, masks: Masks, nodes: seq<Node>, residual: bool)
    returns (bundle: Evidences, ghost reached: seq<seq<Hit>>, ghost scored: seq<Scored>)
    requires Ready(graphs) && (residual ==> HasFilters(tail.scope.filters))
    requires forall node :: node in nodes ==> IsSound(node)
    modifies tail`degradations
    ensures |reached| == |nodes|
    ensures
      var pool := HeardAll(map[], AllBatches(tail.scope, masks, nodes, reached));
      && AllCredited(pool)
      && IsFused(scored, pool, tail.weights, tail.k, DECAY)
      && Blocks(bundle.matches) <= Kept(tail.scope, pool, scored)
      && |bundle.matches| <= (if tail.hint < 1 then 1 else tail.hint)
      && (!bundle.truncated ==> Blocks(bundle.matches) == Kept(tail.scope, pool, scored))
    ensures !bundle.truncated ==> AllWhole(graphs, tail.scope, masks, nodes, reached)
  {
    hide Whole, Union, Ready, HeardAll, BatchOf, BatchesOf, DatedIn, AllWhole, IsFused, AllCredited, Finalized, Kept;
    var s := tail.scope;
    var table: Table := map[];
    var exhausted := true;
    var dated: seq<DateHit> := [];
    reached := [];
    NothingRun(graphs, s, masks, nodes);
    for i := 0 to |nodes|
      invariant |reached| == i && Separate(table) && fresh(table.Values)
      invariant PoolOf(table) == HeardAll(map[], BatchesOf(s, masks, nodes[..i], reached))
      invariant dated == DatedIn(nodes[..i])
      invariant exhausted ==> AllWhole(graphs, s, masks, nodes[..i], reached)
    {
      ghost var batches := BatchesOf(s, masks, nodes[..i], reached);
      var whole;
      ghost var hits;
      assert nodes[i] in nodes;
      table, whole, hits := Turn(s, graphs, masks, nodes[i], table, batches);
      BatchesGrow(s, masks, nodes, reached, i, hits);
      if nodes[i].Dates? {
        dated := dated + nodes[i].dated;
      }
      exhausted := exhausted && whole;
      if exhausted {
        AllWholeGrows(graphs, s, masks, nodes[..i], reached, nodes[i], hits);
        assert nodes[..i + 1] == nodes[..i] + [nodes[i]];
      }
      reached := reached + [hits];
    }
    assert nodes[..|nodes|] == nodes;
    ghost var before := BatchesOf(s, masks, nodes, reached);
    if dated != [] {
      HeardAllGrows(before, DateBatch(dated));
      table := Accumulate(table, DateBatch(dated));
    } else {
      assert before + [] == before;
    }
    HeardAllIsCredited(AllBatches(s, masks, nodes, reached));
    bundle, scored := tail.Finalize(table, residual, exhausted);
    TruncatedIsHonest(s, residual, Limit(tail.hint), PoolOf(table), scored, exhausted, bundle);
  }

  lemma NothingRun(graphs: seq<Index>, s: Scope, masks: Masks, nodes: seq<Node>)
    ensures AllWhole(graphs, s, masks, nodes[..0], [])
    ensures BatchesOf(s, masks, nodes[..0], []) == [] && DatedIn(nodes[..0]) == [] && HeardAll(map[], []) == map[]
  {
  }
}
