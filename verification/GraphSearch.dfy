/**
  Bounded traversal of one module's graph: the loop of `GraphIndex.expand`, a first-in first-out relaxation
  over adjacency lists, and what it finds.

  Depths on the queue never decrease, and span at most two values; so whatever a relaxation skips is dominated by an
  entry with at least its score and at least its hops to spare. The measure is the sum over the queue of a power of the
  largest number of arcs out of a node.
*/
module GraphSearch {
  import opened Wrappers
  import opened Walks
  import opened Ordering
  import opened Ranking

  /** A typed, weighted edge; `relation` is the source's optional predicate name. */
  datatype Edge = Edge(source: string, target: string, kind: string, relation: Option<string>, weight: real)

  /** What `_kinds` keeps of an edge: everything but its ends. */
  datatype Label = Label(kind: string, relation: Option<string>, weight: real)

  /** No `kinds` means every kind, and no `predicates` means no restriction on predicates. */
  datatype Query = Query(
    seeds: seq<string>,
    depth: nat,
    kinds: set<string>,
    predicates: set<string>,
    inbound: bool,
    decay: real,
    maxNodes: nat)

  predicate Follows(q: Query, kind: string, relation: Option<string>) {
    && (q.kinds == {} || kind in q.kinds)
    && (q.predicates == {} || (relation.Some? && relation.value in q.predicates))
  }

  function Orient(e: Edge, q: Query): Arc<string> {
    if q.inbound then Arc(e.target, e.source, e.weight * q.decay) else Arc(e.source, e.target, e.weight * q.decay)
  }

  /** The hops a query may take, each with what it multiplies a score by. */
  ghost function Arcs(edges: seq<Edge>, q: Query): iset<Arc<string>> {
    iset e | e in edges && Follows(q, e.kind, e.relation) :: Orient(e, q)
  }

  /** The compiled graph as one query sees it: the adjacency is the transpose for an inbound query. */
  datatype Lens = Lens(
    nodes: seq<string>,
    adjacency: map<nat, seq<nat>>,
    kinds: map<(nat, nat), seq<Label>>,
    query: Query)
  {
    function Neighbours(u: nat): seq<nat> {
      if u in adjacency then adjacency[u] else []
    }

    function Labels(u: nat, v: nat): seq<Label> {
      var pair := if query.inbound then (v, u) else (u, v);
      if pair in kinds then kinds[pair] else []
    }

    predicate Takes(l: Label) {
      Follows(query, l.kind, l.relation)
    }

    function Hop(u: nat, v: nat, l: Label): Arc<string>
      requires u < |nodes| && v < |nodes|
    {
      Arc(nodes[u], nodes[v], l.weight * query.decay)
    }

    ghost predicate Offers(u: nat, v: nat, l: Label) {
      v in Neighbours(u) && l in Labels(u, v) && Takes(l)
    }

    /** The adjacency lists hold the given arcs, no more and no fewer. */
    ghost predicate Faithful(arcs: iset<Arc<string>>) {
      && (forall i, j :: 0 <= i < |nodes| && 0 <= j < |nodes| && nodes[i] == nodes[j] ==> i == j)
      && (forall u, v :: u in adjacency && v in adjacency[u] ==> v < |nodes|)
      && (forall u: nat, v: nat, l :: u < |nodes| && v < |nodes| && Offers(u, v, l) ==> Hop(u, v, l) in arcs)
      && (forall u: nat, a :: Leaves(u, a) && a in arcs ==>
            exists v: nat, l :: v < |nodes| && Offers(u, v, l) && Hop(u, v, l) == a)
    }

    predicate Leaves(u: nat, a: Arc<string>) {
      u < |nodes| && nodes[u] == a.from
    }
  }

  // ---- The state of the loop --------------------------------------------------

  datatype Search = Search(best: map<nat, (real, nat)>, pending: seq<Entry<nat>>)

  /** What the proof remembers: `best` by identity, and every entry ever put on the queue. */
  datatype Ledger = Ledger(named: map<string, (real, nat)>, pushed: set<Entry<string>>)

  function Named(nodes: seq<string>, e: Entry<nat>): Entry<string>
    requires e.node < |nodes|
  {
    Entry(nodes[e.node], e.score, e.depth)
  }

  ghost predicate Agree(nodes: seq<string>, best: map<nat, (real, nat)>, named: map<string, (real, nat)>) {
    && |best| == |named|
    && (forall p :: p in best ==> p < |nodes|)
    && (forall v :: v in named ==> v in nodes)
    && (forall p: nat :: p < |nodes| ==> (p in best <==> nodes[p] in named))
    && (forall p: nat :: p < |nodes| && p in best && nodes[p] in named ==> best[p] == named[nodes[p]])
  }

  /** First in, first out, so the depths on the queue never decrease and never span more than one hop. */
  ghost predicate Queued(nodes: seq<string>, pending: seq<Entry<nat>>, pushed: set<Entry<string>>, low: nat) {
    && (forall x :: x in pending ==> x.node < |nodes| && Named(nodes, x) in pushed && low <= x.depth <= low + 1)
    && (forall i, j :: 0 <= i <= j < |pending| ==> pending[i].depth <= pending[j].depth)
    && (forall e :: e in pushed ==> e.depth <= low + 1)
  }

  ghost predicate Waiting(nodes: seq<string>, pending: seq<Entry<nat>>, e: Entry<string>) {
    exists x :: x in pending && x.node < |nodes| && Named(nodes, x) == e
  }

  /** Every entry with a hop to spare has been relaxed, waits its turn, or is the one being relaxed now. */
  ghost predicate Accounted(arcs: iset<Arc<string>>, lens: Lens, current: set<Entry<string>>, s: Search, g: Ledger) {
    forall e :: e in g.pushed && e.depth < lens.query.depth && e !in current ==>
      Waiting(lens.nodes, s.pending, e) || Relaxed(arcs, g.pushed, e)
  }

  ghost predicate Searching(
    arcs: iset<Arc<string>>, seeds: set<string>, lens: Lens, current: set<Entry<string>>, low: nat, s: Search,
    g: Ledger)
  {
    && Sound(arcs, seeds, lens.query.depth, g.pushed)
    && Tracks(g.named, g.pushed)
    && (forall v :: v in seeds ==> Entry(v, 1.0, 0) in g.pushed)
    && Agree(lens.nodes, s.best, g.named)
    && Queued(lens.nodes, s.pending, g.pushed, low)
    && Accounted(arcs, lens, current, s, g)
  }

  // ---- Termination ------------------------------------------------------------

  /** How many labels lead out of a node: an upper bound on what one turn of the loop can push. */
  function Fan(lens: Lens, u: nat): nat {
    FanOf(lens, u, lens.Neighbours(u))
  }

  function FanOf(lens: Lens, u: nat, vs: seq<nat>): nat {
    if vs == [] then 0 else FanOf(lens, u, vs[..|vs| - 1]) + |lens.Labels(u, vs[|vs| - 1])|
  }

  function MaxFan(lens: Lens, n: nat): nat {
    if n == 0 then 0 else
      var rest := MaxFan(lens, n - 1);
      if Fan(lens, n - 1) > rest then Fan(lens, n - 1) else rest
  }

  lemma {:induction false} FanIsBounded(lens: Lens, n: nat, u: nat)
    requires u < n
    ensures Fan(lens, u) <= MaxFan(lens, n)
  {
    if u < n - 1 {
      FanIsBounded(lens, n - 1, u);
    }
  }

  /** The most turns an entry can cost when `hops` remain and no node has more than `fan` labels. */
  function Cost(fan: nat, hops: nat): nat {
    if hops == 0 then 1 else 1 + fan * Cost(fan, hops - 1)
  }

  function Hops(q: Query, depth: nat): nat {
    if depth < q.depth then q.depth - depth else 0
  }

  function Potential(fan: nat, q: Query, pending: seq<Entry<nat>>): nat {
    if pending == [] then 0
    else Potential(fan, q, pending[..|pending| - 1]) + Cost(fan, Hops(q, pending[|pending| - 1].depth))
  }

  lemma PotentialAppends(fan: nat, q: Query, pending: seq<Entry<nat>>, x: Entry<nat>)
    ensures Potential(fan, q, pending + [x]) == Potential(fan, q, pending) + Cost(fan, Hops(q, x.depth))
  {
    assert (pending + [x])[..|pending|] == pending;
  }

  lemma {:induction false} PotentialPops(fan: nat, q: Query, pending: seq<Entry<nat>>)
    requires pending != []
    ensures Potential(fan, q, pending) == Cost(fan, Hops(q, pending[0].depth)) + Potential(fan, q, pending[1..])
    decreases |pending|
  {
    var n := |pending| - 1;
    if n > 0 {
      PotentialPops(fan, q, pending[..n]);
      assert pending[..n][1..] == pending[1..][..n - 1];
      assert pending[1..][n - 1] == pending[n];
    } else {
      assert pending[..n] == [] && pending[1..] == [];
    }
  }

  lemma Multiply(a: nat, b: nat, c: nat)
    requires a <= b
    ensures a * c <= b * c
  {
  }

  // ---- One step ---------------------------------------------------------------

  /** The queue grew at its end only, by entries of one depth. */
  ghost predicate Grew(before: seq<Entry<nat>>, after: seq<Entry<nat>>, depth: nat) {
    && |before| <= |after|
    && after[..|before|] == before
    && forall i :: |before| <= i < |after| ==> after[i].depth == depth
  }

  lemma Associates(a: real, b: real, c: real)
    ensures a * b * c == a * (b * c)
  {
  }

  lemma RelaxedGrows(arcs: iset<Arc<string>>, pushed: set<Entry<string>>, more: set<Entry<string>>, e: Entry<string>)
    requires Relaxed(arcs, pushed, e) && pushed <= more
    ensures Relaxed(arcs, more, e)
  {
    forall a | a in arcs && a.from == e.node
      ensures Covered(more, a.to, e.score * a.factor, e.depth + 1)
    {
      assert Covered(pushed, a.to, e.score * a.factor, e.depth + 1);
    }
  }

  lemma WaitingGrows(nodes: seq<string>, pending: seq<Entry<nat>>, x: Entry<nat>, e: Entry<string>)
    requires Waiting(nodes, pending, e)
    ensures Waiting(nodes, pending + [x], e)
  {
    var y :| y in pending && y.node < |nodes| && Named(nodes, y) == e;
    assert y in pending + [x];
  }

  ghost function Record(g: Ledger, e: Entry<string>): Ledger {
    Ledger(g.named[e.node := (e.score, e.depth)], g.pushed + {e})
  }

  lemma AccountedGrows(
    arcs: iset<Arc<string>>, lens: Lens, current: set<Entry<string>>, s: Search, g: Ledger, x: Entry<nat>)
    requires x.node < |lens.nodes| && Accounted(arcs, lens, current, s, g)
    ensures Accounted(arcs, lens, current,
                      Search(s.best[x.node := (x.score, x.depth)], s.pending + [x]), Record(g, Named(lens.nodes, x)))
  {
    var g' := Record(g, Named(lens.nodes, x));
    forall e | e in g'.pushed && e.depth < lens.query.depth && e !in current
      ensures Waiting(lens.nodes, s.pending + [x], e) || Relaxed(arcs, g'.pushed, e)
    {
      if e in g.pushed {
        if Waiting(lens.nodes, s.pending, e) {
          WaitingGrows(lens.nodes, s.pending, x, e);
        } else {
          RelaxedGrows(arcs, g.pushed, g'.pushed, e);
        }
      } else {
        assert x in s.pending + [x];
      }
    }
  }

  lemma AgreeGrows(
    nodes: seq<string>, best: map<nat, (real, nat)>, named: map<string, (real, nat)>, p: nat, value: (real, nat))
    requires Agree(nodes, best, named) && p < |nodes|
    requires forall i, j :: 0 <= i < |nodes| && 0 <= j < |nodes| && nodes[i] == nodes[j] ==> i == j
    ensures Agree(nodes, best[p := value], named[nodes[p] := value])
  {
  }

  lemma TracksGrows(named: map<string, (real, nat)>, pushed: set<Entry<string>>, e: Entry<string>)
    requires Tracks(named, pushed) && e.depth >= 1
    requires e.node !in named || named[e.node].0 < e.score
    ensures Tracks(named[e.node := (e.score, e.depth)], pushed + {e})
  {
  }

  lemma QueuedGrows(
    nodes: seq<string>, pending: seq<Entry<nat>>, pushed: set<Entry<string>>, low: nat, x: Entry<nat>)
    requires Queued(nodes, pending, pushed, low) && x.node < |nodes| && x.depth == low + 1
    ensures Queued(nodes, pending + [x], pushed + {Named(nodes, x)}, low)
  {
    forall y | y in pending + [x]
      ensures y.node < |nodes| && Named(nodes, y) in pushed + {Named(nodes, x)} && low <= y.depth <= low + 1
    {
      assert y in pending || y == x;
    }
    forall i, j | 0 <= i <= j < |pending + [x]|
      ensures (pending + [x])[i].depth <= (pending + [x])[j].depth
    {
      assert i < |pending| ==> pending[i] in pending;
    }
  }

  /** The entry a hop leads to. */
  function Step(lens: Lens, current: Entry<nat>, v: nat, l: Label): Entry<nat> {
    Entry(v, current.score * l.weight * lens.query.decay, current.depth + 1)
  }

  /** A skipped relaxation loses nothing: what is held scores as much and has as many hops to spare. */
  lemma HeldCovers(
    arcs: iset<Arc<string>>, seeds: set<string>, lens: Lens, current: Entry<nat>, v: nat, l: Label, s: Search,
    g: Ledger,
    more: set<Entry<string>>)
    requires v < |lens.nodes| && Searching(arcs, seeds, lens, more, current.depth, s, g)
    requires v in s.best && s.best[v].0 >= Step(lens, current, v, l).score
    ensures Covered(g.pushed, lens.nodes[v], Step(lens, current, v, l).score, current.depth + 1)
  {
    assert Entry(lens.nodes[v], s.best[v].0, s.best[v].1) in g.pushed;
  }

  lemma PushKeeps(
    arcs: iset<Arc<string>>, seeds: set<string>, lens: Lens, current: Entry<nat>, v: nat, l: Label, s: Search,
    g: Ledger)
    requires lens.Faithful(arcs)
    requires current.node < |lens.nodes| && current.depth < lens.query.depth
    requires v < |lens.nodes| && lens.Offers(current.node, v, l)
    requires Named(lens.nodes, current) in g.pushed
    requires Searching(arcs, seeds, lens, {Named(lens.nodes, current)}, current.depth, s, g)
    requires v !in s.best || s.best[v].0 < Step(lens, current, v, l).score
    ensures
      var x := Step(lens, current, v, l);
      Searching(arcs, seeds, lens, {Named(lens.nodes, current)}, current.depth,
                Search(s.best[v := (x.score, x.depth)], s.pending + [x]), Record(g, Named(lens.nodes, x)))
  {
    hide Accounted, Queued;
    var x := Step(lens, current, v, l);
    Associates(current.score, l.weight, lens.query.decay);
    SoundGrows(arcs, seeds, lens, current, v, l, g.pushed);
    TracksGrows(g.named, g.pushed, Named(lens.nodes, x));
    AgreeGrows(lens.nodes, s.best, g.named, v, (x.score, x.depth));
    QueuedGrows(lens.nodes, s.pending, g.pushed, current.depth, x);
    AccountedGrows(arcs, lens, {Named(lens.nodes, current)}, s, g, x);
  }

  lemma SoundGrows(
    arcs: iset<Arc<string>>, seeds: set<string>, lens: Lens, current: Entry<nat>, v: nat, l: Label,
    pushed: set<Entry<string>>)
    requires lens.Faithful(arcs) && Sound(arcs, seeds, lens.query.depth, pushed)
    requires current.node < |lens.nodes| && current.depth < lens.query.depth && Named(lens.nodes, current) in pushed
    requires v < |lens.nodes| && lens.Offers(current.node, v, l)
    ensures Sound(arcs, seeds, lens.query.depth, pushed + {Named(lens.nodes, Step(lens, current, v, l))})
  {
    var hop := lens.Hop(current.node, v, l);
    assert hop in arcs;
    AttainedExtends(arcs, seeds, Named(lens.nodes, current), hop);
    Associates(current.score, l.weight, lens.query.decay);
    assert Entry(hop.to, current.score * hop.factor, current.depth + 1)
        == Named(lens.nodes, Step(lens, current, v, l));
  }

  /** The body of the innermost loop: one label of one neighbour. */
  method Relax(lens: Lens, current: Entry<nat>, v: nat, l: Label, s: Search,
               ghost arcs: iset<Arc<string>>, ghost seeds: set<string>, ghost g: Ledger, ghost fan: nat)
    returns (s': Search, ghost g': Ledger)
    requires lens.Faithful(arcs)
    requires current.node < |lens.nodes| && current.depth < lens.query.depth
    requires v < |lens.nodes| && lens.Offers(current.node, v, l)
    requires Named(lens.nodes, current) in g.pushed
    requires Searching(arcs, seeds, lens, {Named(lens.nodes, current)}, current.depth, s, g)
    ensures Searching(arcs, seeds, lens, {Named(lens.nodes, current)}, current.depth, s', g')
    ensures g.pushed <= g'.pushed
    ensures Covered(g'.pushed, lens.nodes[v], Step(lens, current, v, l).score, current.depth + 1)
    ensures Potential(fan, lens.query, s'.pending)
         <= Potential(fan, lens.query, s.pending) + Cost(fan, Hops(lens.query, current.depth + 1))
    ensures Grew(s.pending, s'.pending, current.depth + 1)
  {
    hide Searching, Cost, Potential, Hops, Lens.Faithful;
    var x := Step(lens, current, v, l);
    if v in s.best && s.best[v].0 >= x.score {
      HeldCovers(arcs, seeds, lens, current, v, l, s, g, {Named(lens.nodes, current)});
      s', g' := s, g;
      return;
    }
    PushKeeps(arcs, seeds, lens, current, v, l, s, g);
    PotentialAppends(fan, lens.query, s.pending, x);
    s' := Search(s.best[v := (x.score, x.depth)], s.pending + [x]);
    g' := Record(g, Named(lens.nodes, x));
    assert Named(lens.nodes, x) in g'.pushed;
  }

  /** The first `n` labels towards `v` have been dealt with. */
  ghost predicate Served(lens: Lens, current: Entry<nat>, pushed: set<Entry<string>>, v: nat, n: nat)
    requires v < |lens.nodes| && n <= |lens.Labels(current.node, v)|
  {
    forall j :: 0 <= j < n && lens.Takes(lens.Labels(current.node, v)[j]) ==>
      Covered(pushed, lens.nodes[v], Step(lens, current, v, lens.Labels(current.node, v)[j]).score, current.depth + 1)
  }

  lemma ServedGrows(
    lens: Lens, current: Entry<nat>, pushed: set<Entry<string>>, more: set<Entry<string>>, v: nat, n: nat)
    requires v < |lens.nodes| && n <= |lens.Labels(current.node, v)|
    requires Served(lens, current, pushed, v, n) && pushed <= more
    ensures Served(lens, current, more, v, n)
  {
  }

  lemma ServedNone(lens: Lens, current: Entry<nat>, pushed: set<Entry<string>>, v: nat)
    requires v < |lens.nodes|
    ensures Served(lens, current, pushed, v, 0)
  {
  }

  lemma ServedNext(lens: Lens, current: Entry<nat>, pushed: set<Entry<string>>, v: nat, n: nat)
    requires v < |lens.nodes| && n < |lens.Labels(current.node, v)| && Served(lens, current, pushed, v, n)
    requires
      var l := lens.Labels(current.node, v)[n];
      lens.Takes(l) ==> Covered(pushed, lens.nodes[v], Step(lens, current, v, l).score, current.depth + 1)
    ensures Served(lens, current, pushed, v, n + 1)
  {
  }

  /** The labels of one neighbour, in order. */
  method Serve(lens: Lens, current: Entry<nat>, v: nat, s: Search,
               ghost arcs: iset<Arc<string>>, ghost seeds: set<string>, ghost g: Ledger, ghost fan: nat)
    returns (s': Search, ghost g': Ledger)
    requires lens.Faithful(arcs)
    requires current.node < |lens.nodes| && current.depth < lens.query.depth
    requires v < |lens.nodes| && v in lens.Neighbours(current.node)
    requires Named(lens.nodes, current) in g.pushed
    requires Searching(arcs, seeds, lens, {Named(lens.nodes, current)}, current.depth, s, g)
    ensures Searching(arcs, seeds, lens, {Named(lens.nodes, current)}, current.depth, s', g')
    ensures g.pushed <= g'.pushed
    ensures Served(lens, current, g'.pushed, v, |lens.Labels(current.node, v)|)
    ensures Potential(fan, lens.query, s'.pending) <= Potential(fan, lens.query, s.pending)
              + |lens.Labels(current.node, v)| * Cost(fan, Hops(lens.query, current.depth + 1))
    ensures Grew(s.pending, s'.pending, current.depth + 1)
  {
    hide Searching, Cost, Potential, Hops, Served, Covered, Lens.Faithful;
    var labels := lens.Labels(current.node, v);
    ghost var each := Cost(fan, Hops(lens.query, current.depth + 1));
    s', g' := s, g;
    ServedNone(lens, current, g'.pushed, v);
    for j := 0 to |labels|
      invariant Searching(arcs, seeds, lens, {Named(lens.nodes, current)}, current.depth, s', g')
      invariant g.pushed <= g'.pushed
      invariant Served(lens, current, g'.pushed, v, j)
      invariant Potential(fan, lens.query, s'.pending) <= Potential(fan, lens.query, s.pending) + j * each
      invariant Grew(s.pending, s'.pending, current.depth + 1)
    {
      if lens.Takes(labels[j]) {
        ghost var before := g'.pushed;
        s', g' := Relax(lens, current, v, labels[j], s', arcs, seeds, g', fan);
        ServedGrows(lens, current, before, g'.pushed, v, j);
      }
      ServedNext(lens, current, g'.pushed, v, j);
      Distributes(j, 1, each);
    }
  }

  lemma ArcIsOffered(arcs: iset<Arc<string>>, lens: Lens, u: nat, a: Arc<string>) returns (v: nat, l: Label)
    requires lens.Faithful(arcs) && lens.Leaves(u, a) && a in arcs
    ensures v < |lens.nodes| && lens.Offers(u, v, l) && lens.Hop(u, v, l) == a
  {
    v, l :| v < |lens.nodes| && lens.Offers(u, v, l) && lens.Hop(u, v, l) == a;
  }

  lemma ServedIsRelaxed(arcs: iset<Arc<string>>, lens: Lens, current: Entry<nat>, pushed: set<Entry<string>>)
    requires lens.Faithful(arcs) && current.node < |lens.nodes|
    requires forall v: nat :: v in lens.Neighbours(current.node) && v < |lens.nodes| ==>
      Served(lens, current, pushed, v, |lens.Labels(current.node, v)|)
    ensures Relaxed(arcs, pushed, Named(lens.nodes, current))
  {
    hide Lens.Faithful;
    var e := Named(lens.nodes, current);
    forall a | a in arcs && a.from == e.node
      ensures Covered(pushed, a.to, e.score * a.factor, e.depth + 1)
    {
      var v, l := ArcIsOffered(arcs, lens, current.node, a);
      var labels := lens.Labels(current.node, v);
      var j :| 0 <= j < |labels| && labels[j] == l;
      assert Served(lens, current, pushed, v, |labels|);
      Associates(current.score, l.weight, lens.query.decay);
      assert Step(lens, current, v, l).score == current.score * a.factor;
    }
  }

  lemma FanIsLinear(lens: Lens, u: nat, vs: seq<nat>, i: nat)
    requires i < |vs|
    ensures FanOf(lens, u, vs[..i + 1]) == FanOf(lens, u, vs[..i]) + |lens.Labels(u, vs[i])|
  {
    assert vs[..i + 1][..i] == vs[..i];
  }

  lemma Distributes(a: nat, b: nat, c: nat)
    ensures (a + b) * c == a * c + b * c
  {
  }

  /** The head of the queue has been relaxed: it needs no further mention. */
  lemma CloseTurn(
    arcs: iset<Arc<string>>, seeds: set<string>, lens: Lens, current: Entry<nat>, s: Search, g: Ledger)
    requires current.node < |lens.nodes| && Relaxed(arcs, g.pushed, Named(lens.nodes, current))
    requires Searching(arcs, seeds, lens, {Named(lens.nodes, current)}, current.depth, s, g)
    ensures Searching(arcs, seeds, lens, {}, current.depth, s, g)
  {
    hide Sound, Tracks, Agree, Queued, Waiting, Relaxed;
  }

  lemma NeighboursAreNodes(lens: Lens, arcs: iset<Arc<string>>, u: nat)
    requires lens.Faithful(arcs)
    ensures forall k :: 0 <= k < |lens.Neighbours(u)| ==> lens.Neighbours(u)[k] < |lens.nodes|
  {
    forall k | 0 <= k < |lens.Neighbours(u)|
      ensures lens.Neighbours(u)[k] < |lens.nodes|
    {
      assert lens.Neighbours(u)[k] in lens.adjacency[u];
    }
  }

  lemma CostUnfolds(fan: nat, q: Query, depth: nat)
    requires depth < q.depth
    ensures Cost(fan, Hops(q, depth)) == 1 + fan * Cost(fan, Hops(q, depth + 1))
  {
  }

  /** One turn of the loop: every label of every neighbour of the entry at the head of the queue. */
  method Visit(lens: Lens, current: Entry<nat>, s: Search,
               ghost arcs: iset<Arc<string>>, ghost seeds: set<string>, ghost g: Ledger, ghost fan: nat)
    returns (s': Search, ghost g': Ledger)
    requires lens.Faithful(arcs)
    requires current.node < |lens.nodes| && current.depth < lens.query.depth && Fan(lens, current.node) <= fan
    requires Named(lens.nodes, current) in g.pushed
    requires Searching(arcs, seeds, lens, {Named(lens.nodes, current)}, current.depth, s, g)
    ensures Searching(arcs, seeds, lens, {}, current.depth, s', g')
    ensures g.pushed <= g'.pushed
    ensures Potential(fan, lens.query, s'.pending)
          < Potential(fan, lens.query, s.pending) + Cost(fan, Hops(lens.query, current.depth))
    ensures Grew(s.pending, s'.pending, current.depth + 1)
  {
    hide Searching, Cost, Potential, Hops, Served, Lens.Faithful;
    var vs := lens.Neighbours(current.node);
    NeighboursAreNodes(lens, arcs, current.node);
    ghost var each := Cost(fan, Hops(lens.query, current.depth + 1));
    CostUnfolds(fan, lens.query, current.depth);
    s', g' := s, g;
    for i := 0 to |vs|
      invariant Searching(arcs, seeds, lens, {Named(lens.nodes, current)}, current.depth, s', g')
      invariant g.pushed <= g'.pushed
      invariant forall k :: 0 <= k < i ==>
        Served(lens, current, g'.pushed, vs[k], |lens.Labels(current.node, vs[k])|)
      invariant Potential(fan, lens.query, s'.pending)
             <= Potential(fan, lens.query, s.pending) + FanOf(lens, current.node, vs[..i]) * each
      invariant Grew(s.pending, s'.pending, current.depth + 1)
    {
      ghost var before := g'.pushed;
      s', g' := Serve(lens, current, vs[i], s', arcs, seeds, g', fan);
      forall k | 0 <= k < i
        ensures Served(lens, current, g'.pushed, vs[k], |lens.Labels(current.node, vs[k])|)
      {
        ServedGrows(lens, current, before, g'.pushed, vs[k], |lens.Labels(current.node, vs[k])|);
      }
      FanIsLinear(lens, current.node, vs, i);
      Distributes(FanOf(lens, current.node, vs[..i]), |lens.Labels(current.node, vs[i])|, each);
    }
    assert vs[..|vs|] == vs;
    ServedIsRelaxed(arcs, lens, current, g'.pushed);
    CloseTurn(arcs, seeds, lens, current, s', g');
    Multiply(Fan(lens, current.node), fan, each);
  }

  // ---- The whole loop -----------------------------------------------------------

  lemma PopQueued(nodes: seq<string>, pending: seq<Entry<nat>>, pushed: set<Entry<string>>, low: nat)
    requires Queued(nodes, pending, pushed, low) && pending != []
    ensures pending[0].node < |nodes| && Named(nodes, pending[0]) in pushed
    ensures Queued(nodes, pending[1..], pushed, pending[0].depth)
  {
    var head, rest := pending[0], pending[1..];
    assert head in pending;
    forall i, j | 0 <= i <= j < |rest|
      ensures rest[i].depth <= rest[j].depth
    {
      assert pending[i + 1].depth <= pending[j + 1].depth;
    }
    forall x | x in rest
      ensures x in pending && head.depth <= x.depth
    {
      var i :| 0 <= i < |rest| && rest[i] == x;
      assert pending[0].depth <= pending[i + 1].depth;
    }
  }

  lemma PopAccounted(arcs: iset<Arc<string>>, lens: Lens, s: Search, g: Ledger)
    requires Accounted(arcs, lens, {}, s, g) && s.pending != [] && s.pending[0].node < |lens.nodes|
    ensures Accounted(arcs, lens, {Named(lens.nodes, s.pending[0])}, Search(s.best, s.pending[1..]), g)
  {
    hide Relaxed;
    var head, rest := s.pending[0], s.pending[1..];
    forall e | Waiting(lens.nodes, s.pending, e) && e != Named(lens.nodes, head)
      ensures Waiting(lens.nodes, rest, e)
    {
      var x :| x in s.pending && x.node < |lens.nodes| && Named(lens.nodes, x) == e;
      assert s.pending == [head] + rest;
      assert x in rest;
    }
  }

  lemma PopKeeps(arcs: iset<Arc<string>>, seeds: set<string>, lens: Lens, low: nat, s: Search, g: Ledger)
    requires Searching(arcs, seeds, lens, {}, low, s, g) && s.pending != []
    ensures s.pending[0].node < |lens.nodes| && Named(lens.nodes, s.pending[0]) in g.pushed
    ensures Searching(arcs, seeds, lens, {Named(lens.nodes, s.pending[0])}, s.pending[0].depth,
                      Search(s.best, s.pending[1..]), g)
  {
    hide Sound, Tracks, Agree, Relaxed, Queued, Accounted;
    PopQueued(lens.nodes, s.pending, g.pushed, low);
    PopAccounted(arcs, lens, s, g);
  }

  /** An entry with no hop to spare is dropped. */
  lemma DropKeeps(arcs: iset<Arc<string>>, seeds: set<string>, lens: Lens, current: Entry<nat>, s: Search, g: Ledger)
    requires current.node < |lens.nodes| && current.depth >= lens.query.depth
    requires Searching(arcs, seeds, lens, {Named(lens.nodes, current)}, current.depth, s, g)
    ensures Searching(arcs, seeds, lens, {}, current.depth, s, g)
  {
    hide Sound, Tracks, Agree, Queued, Waiting, Relaxed;
  }

  /** Once every entry left on the queue has no hop to spare, the search is exact. */
  lemma SpentIsExact(arcs: iset<Arc<string>>, seeds: set<string>, lens: Lens, low: nat, s: Search, g: Ledger)
    requires NonNegative(arcs) && Searching(arcs, seeds, lens, {}, low, s, g)
    requires forall x :: x in s.pending ==> x.depth >= lens.query.depth
    ensures Exact(arcs, seeds, lens.query.depth, g.named)
  {
    hide Sound, Tracks, Agree, Relaxed, Exact;
    SearchIsExact(arcs, seeds, lens.query.depth, g.pushed, g.named);
  }

  lemma SearchingIsReported(arcs: iset<Arc<string>>, seeds: set<string>, lens: Lens, low: nat, s: Search, g: Ledger)
    requires Searching(arcs, seeds, lens, {}, low, s, g)
    ensures Reported(arcs, seeds, lens.query.depth, g.named) && Agree(lens.nodes, s.best, g.named)
  {
    hide Attained, Agree, Queued, Accounted;
  }

  function Starts(starts: seq<nat>): (pending: seq<Entry<nat>>)
    ensures |pending| == |starts| && forall i :: 0 <= i < |starts| ==> pending[i] == Entry(starts[i], 1.0, 0)
  {
    seq(|starts|, i requires 0 <= i < |starts| => Entry(starts[i], 1.0, 0))
  }

  function SeedsOf(nodes: seq<string>, starts: seq<nat>): set<string>
    requires forall p :: p in starts ==> p < |nodes|
  {
    set p | p in starts :: nodes[p]
  }

  function Seeded(nodes: seq<string>, starts: seq<nat>): set<Entry<string>>
    requires forall p :: p in starts ==> p < |nodes|
  {
    set p | p in starts :: Entry(nodes[p], 1.0, 0)
  }

  lemma StartIsSearching(arcs: iset<Arc<string>>, lens: Lens, starts: seq<nat>)
    requires forall p :: p in starts ==> p < |lens.nodes|
    ensures Searching(arcs, SeedsOf(lens.nodes, starts), lens, {}, 0,
                      Search(map[], Starts(starts)), Ledger(map[], Seeded(lens.nodes, starts)))
  {
    var pending, pushed := Starts(starts), Seeded(lens.nodes, starts);
    forall e | e in pushed
      ensures Waiting(lens.nodes, pending, e)
    {
      var p :| p in starts && e == Entry(lens.nodes[p], 1.0, 0);
      var i :| 0 <= i < |starts| && starts[i] == p;
      assert pending[i] in pending;
    }
    forall x | x in pending
      ensures x.node < |lens.nodes| && x.depth == 0 && Named(lens.nodes, x) in pushed
    {
      var i :| 0 <= i < |pending| && pending[i] == x;
      assert starts[i] in starts;
    }
    forall v | v in SeedsOf(lens.nodes, starts)
      ensures Entry(v, 1.0, 0) in pushed
    {
      var p :| p in starts && v == lens.nodes[p];
      assert Entry(lens.nodes[p], 1.0, 0) in pushed;
    }
  }

  /** One start and at most one hop: the ceiling can only be met once everything has been relaxed. */
  ghost predicate OneHop(lens: Lens, starts: seq<nat>) {
    |starts| <= 1 && lens.query.depth <= 1 && lens.query.maxNodes >= 1
  }

  lemma GrewIsSpent(before: seq<Entry<nat>>, after: seq<Entry<nat>>, depth: nat)
    requires Grew(before, after, depth) && before == []
    ensures forall x :: x in after ==> x.depth == depth
  {
  }

  /**
    The loop of `expand`: everything it reports is a walk, and the answer is exact unless the ceiling was met.
  */
  method Explore(lens: Lens, starts: seq<nat>, ghost arcs: iset<Arc<string>>)
    returns (best: map<nat, (real, nat)>, ghost named: map<string, (real, nat)>)
    requires lens.Faithful(arcs) && NonNegative(arcs)
    requires forall p :: p in starts ==> p < |lens.nodes|
    ensures Agree(lens.nodes, best, named)
    ensures Reported(arcs, SeedsOf(lens.nodes, starts), lens.query.depth, named)
    ensures |best| < lens.query.maxNodes || OneHop(lens, starts) ==>
      Exact(arcs, SeedsOf(lens.nodes, starts), lens.query.depth, named)
  {
    hide Searching, Lens.Faithful, Potential, Cost, Hops, Exact, Reported, Agree, SeedsOf, Seeded;
    ghost var seeds := SeedsOf(lens.nodes, starts);
    ghost var fan := MaxFan(lens, |lens.nodes|);
    ghost var low: nat := 0;
    ghost var g := Ledger(map[], Seeded(lens.nodes, starts));
    var s := Search(map[], Starts(starts));
    StartIsSearching(arcs, lens, starts);
    while s.pending != [] && |s.best| < lens.query.maxNodes
      invariant Searching(arcs, seeds, lens, {}, low, s, g)
      invariant OneHop(lens, starts) ==>
        s == Search(map[], Starts(starts)) || forall x :: x in s.pending ==> x.depth >= lens.query.depth
      decreases Potential(fan, lens.query, s.pending)
    {
      PopKeeps(arcs, seeds, lens, low, s, g);
      PotentialPops(fan, lens.query, s.pending);
      var current := s.pending[0];
      s := Search(s.best, s.pending[1..]);
      low := current.depth;
      if current.depth >= lens.query.depth {
        DropKeeps(arcs, seeds, lens, current, s, g);
        CostIsPositive(fan, Hops(lens.query, current.depth));
        continue;
      }
      FanIsBounded(lens, |lens.nodes|, current.node);
      ghost var before := s.pending;
      s, g := Visit(lens, current, s, arcs, seeds, g, fan);
      if OneHop(lens, starts) {
        GrewIsSpent(before, s.pending, current.depth + 1);
      }
    }
    SearchingIsReported(arcs, seeds, lens, low, s, g);
    if s.pending == [] || OneHop(lens, starts) {
      SpentIsExact(arcs, seeds, lens, low, s, g);
    }
    best, named := s.best, g.named;
  }

  lemma CostIsPositive(fan: nat, hops: nat)
    ensures Cost(fan, hops) >= 1
  {
  }

  // ---- Reporting ------------------------------------------------------------------

  /** What the listing loop has copied so far: the entries of every node that is neither to do nor a seed. */
  ghost predicate Copied(
    nodes: seq<string>, best: map<nat, (real, nat)>, origin: set<nat>, todo: set<nat>, found: seq<Entry<string>>)
  {
    && Distinct(found)
    && (forall p :: p in best && p < |nodes| && p !in todo && p !in origin ==>
          Entry(nodes[p], best[p].0, best[p].1) in found)
    && (forall e :: e in found ==> exists p: nat ::
          p < |nodes| && p in best && p !in todo && p !in origin && e == Entry(nodes[p], best[p].0, best[p].1))
  }

  lemma CopiedGrows(
    nodes: seq<string>, best: map<nat, (real, nat)>, origin: set<nat>, todo: set<nat>, found: seq<Entry<string>>,
    p: nat)
    requires Copied(nodes, best, origin, todo, found) && p in todo && p in best && p < |nodes| && p !in origin
    requires forall i, j :: 0 <= i < |nodes| && 0 <= j < |nodes| && nodes[i] == nodes[j] ==> i == j
    ensures Copied(nodes, best, origin, todo - {p}, found + [Entry(nodes[p], best[p].0, best[p].1)])
  {
    var x := Entry(nodes[p], best[p].0, best[p].1);
    assert x !in found;
    DistinctGrows(found, x);
  }

  lemma CopiedSkips(
    nodes: seq<string>, best: map<nat, (real, nat)>, origin: set<nat>, todo: set<nat>, found: seq<Entry<string>>,
    p: nat)
    requires Copied(nodes, best, origin, todo, found) && p in todo && p in origin
    ensures Copied(nodes, best, origin, todo - {p}, found)
  {
    forall e | e in found
      ensures exists x: nat ::
        x < |nodes| && x in best && x !in todo - {p} && x !in origin && e == Entry(nodes[x], best[x].0, best[x].1)
    {
      var x: nat :| x < |nodes| && x in best && x !in todo && x !in origin
        && e == Entry(nodes[x], best[x].0, best[x].1);
      assert x !in todo - {p};
    }
  }

  lemma CopiedIsReport(
    nodes: seq<string>, best: map<nat, (real, nat)>, origin: set<nat>, found: seq<Entry<string>>,
    named: map<string, (real, nat)>, seeds: set<string>, e: Entry<string>)
    requires Copied(nodes, best, origin, {}, found) && Agree(nodes, best, named)
    requires forall p: nat :: p < |nodes| ==> (p in origin <==> nodes[p] in seeds)
    ensures e in found <==> e.node in named && e.node !in seeds && named[e.node] == (e.score, e.depth)
  {
    if e.node in named {
      var p: nat :| p < |nodes| && nodes[p] == e.node;
      assert p in best && best[p] == named[e.node];
    }
  }

  /** The comprehension at the end of `expand`, in whatever order the table yields its items. */
  method Copy(nodes: seq<string>, best: map<nat, (real, nat)>, origin: set<nat>) returns (found: seq<Entry<string>>)
    requires forall p :: p in best ==> p < |nodes|
    requires forall i, j :: 0 <= i < |nodes| && 0 <= j < |nodes| && nodes[i] == nodes[j] ==> i == j
    ensures Copied(nodes, best, origin, {}, found)
    ensures |best| <= |found| + |origin|
  {
    hide Copied;
    found := [];
    var todo := best.Keys;
    ghost var skipped: set<nat> := {};
    NothingCopied(nodes, best, origin);
    while todo != {}
      invariant todo <= best.Keys
      invariant Copied(nodes, best, origin, todo, found)
      invariant skipped <= origin - todo && |best| == |todo| + |found| + |skipped|
      decreases |todo|
    {
      var p :| p in todo;
      if p in origin {
        CopiedSkips(nodes, best, origin, todo, found, p);
        skipped := skipped + {p};
      } else {
        CopiedGrows(nodes, best, origin, todo, found, p);
        found := found + [Entry(nodes[p], best[p].0, best[p].1)];
      }
      todo := todo - {p};
    }
    SubsetIsSmaller(skipped, origin);
  }

  /** The report at the end of `expand`. */
  method Report(nodes: seq<string>, best: map<nat, (real, nat)>, origin: set<nat>,
                ghost named: map<string, (real, nat)>, ghost seeds: set<string>)
    returns (results: seq<Entry<string>>)
    requires Agree(nodes, best, named)
    requires forall i, j :: 0 <= i < |nodes| && 0 <= j < |nodes| && nodes[i] == nodes[j] ==> i == j
    requires forall p: nat :: p < |nodes| ==> (p in origin <==> nodes[p] in seeds)
    ensures IsListing(results, named, seeds)
    ensures |best| <= |results| + |origin|
  {
    hide Copied, IsListing;
    var found := Copy(nodes, best, origin);
    forall e
      ensures e in found <==> e.node in named && e.node !in seeds && named[e.node] == (e.score, e.depth)
    {
      CopiedIsReport(nodes, best, origin, found, named, seeds, e);
    }
    CopiedIsDistinct(nodes, best, origin, {}, found);
    SortIsListing(found, named, seeds);
    results := Sort(Better, found);
  }

  lemma CopiedIsDistinct(
    nodes: seq<string>, best: map<nat, (real, nat)>, origin: set<nat>, todo: set<nat>, found: seq<Entry<string>>)
    requires Copied(nodes, best, origin, todo, found)
    ensures Distinct(found)
  {
  }

  lemma NothingCopied(nodes: seq<string>, best: map<nat, (real, nat)>, origin: set<nat>)
    ensures Copied(nodes, best, origin, best.Keys, [])
  {
  }
}
