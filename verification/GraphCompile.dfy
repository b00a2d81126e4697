/**
  The compiled form of one module's graph: canonical node numbering, adjacency lists with their transpose, and the
  labels between each pair of nodes.
*/
module GraphCompile {
  import opened Wrappers
  import opened Walks
  import opened Grouping
  import opened Ordering
  import opened GraphSearch

  datatype Compiled = Compiled(
    nodes: seq<string>,
    position: map<string, nat>,
    out: map<nat, seq<nat>>,
    into: map<nat, seq<nat>>,
    kinds: map<(nat, nat), seq<Label>>,
    external: set<nat>)

  function LabelOf(e: Edge): Label {
    Label(e.kind, e.relation, e.weight)
  }

  /** The labels of the edges from `s` to `t`, in the order the edges were collected. */
  function Between(edges: seq<Edge>, s: string, t: string): seq<Label> {
    if edges == [] then [] else
      var rest, e := Between(edges[..|edges| - 1], s, t), edges[|edges| - 1];
      if e.source == s && e.target == t then rest + [LabelOf(e)] else rest
  }

  /** Every identity an edge mentions. */
  function Ends(edges: seq<Edge>): seq<string> {
    if edges == [] then [] else Ends(edges[..|edges| - 1]) + [edges[|edges| - 1].source, edges[|edges| - 1].target]
  }

  function Bare(relation: Option<string>): string {
    if relation.Some? then relation.value else ""
  }

  /** The sort key `(kind, predicate or "", weight)`: a missing predicate and an empty one are not told apart. */
  predicate LabelLeq(a: Label, b: Label) {
    if a.kind != b.kind then StringLeq(a.kind, b.kind)
    else if Bare(a.relation) != Bare(b.relation) then StringLeq(Bare(a.relation), Bare(b.relation))
    else a.weight <= b.weight
  }

  function Pair(u: nat, v: nat, inbound: bool): (nat, nat) {
    if inbound then (v, u) else (u, v)
  }

  ghost predicate Numbers(nodes: seq<string>, position: map<string, nat>) {
    && (forall v :: v in position <==> v in nodes)
    && (forall v :: v in position ==> position[v] < |nodes| && nodes[position[v]] == v)
    && (forall p: nat :: p < |nodes| ==> nodes[p] in position && position[nodes[p]] == p)
  }

  /** Each pair of nodes with an edge has exactly the labels of its edges, in sorted order. */
  ghost predicate Collects(nodes: seq<string>, kinds: map<(nat, nat), seq<Label>>, edges: seq<Edge>) {
    && (forall pair :: pair in kinds ==> pair.0 < |nodes| && pair.1 < |nodes|)
    && (forall u: nat, v: nat :: u < |nodes| && v < |nodes| ==>
          var labels := Between(edges, nodes[u], nodes[v]);
          ((u, v) in kinds <==> labels != []) && ((u, v) in kinds ==> kinds[(u, v)] == Sort(LabelLeq, labels)))
  }

  /** The adjacency lists name exactly the pairs that have labels, each list in order and without repetition. */
  ghost predicate Lists(adjacency: map<nat, seq<nat>>, kinds: map<(nat, nat), seq<Label>>, inbound: bool) {
    && (forall u :: u in adjacency ==> adjacency[u] != [] && Sorted(NatLeq, adjacency[u]) && Distinct(adjacency[u]))
    && (forall u: nat, v: nat :: (u in adjacency && v in adjacency[u]) <==> Pair(u, v, inbound) in kinds)
  }

  ghost predicate Compiles(c: Compiled, members: seq<string>, edges: seq<Edge>) {
    && c.nodes == SortedSet(StringLeq, members + Ends(edges))
    && Numbers(c.nodes, c.position)
    && Collects(c.nodes, c.kinds, edges)
    && Lists(c.out, c.kinds, false)
    && Lists(c.into, c.kinds, true)
    && c.external == set p | 0 <= p < |c.nodes| && c.nodes[p] !in members
  }

  // ---- Compiling ----------------------------------------------------------------

  /** What the loop over the edges has built, before anything is sorted. */
  ghost predicate Raw(nodes: seq<string>, kinds: map<(nat, nat), seq<Label>>, edges: seq<Edge>) {
    && (forall pair :: pair in kinds ==> pair.0 < |nodes| && pair.1 < |nodes|)
    && (forall u: nat, v: nat :: u < |nodes| && v < |nodes| ==>
          var labels := Between(edges, nodes[u], nodes[v]);
          ((u, v) in kinds <==> labels != []) && ((u, v) in kinds ==> kinds[(u, v)] == labels))
  }

  ghost predicate Mirrors(adjacency: map<nat, seq<nat>>, kinds: map<(nat, nat), seq<Label>>, inbound: bool) {
    && (forall u :: u in adjacency ==> adjacency[u] != [])
    && (forall u: nat, v: nat :: (u in adjacency && v in adjacency[u]) <==> Pair(u, v, inbound) in kinds)
  }

  lemma RawGrows(nodes: seq<string>, kinds: map<(nat, nat), seq<Label>>, edges: seq<Edge>, i: nat, u: nat, v: nat)
    requires i < |edges| && Raw(nodes, kinds, edges[..i])
    requires u < |nodes| && v < |nodes| && nodes[u] == edges[i].source && nodes[v] == edges[i].target
    requires forall j, k :: 0 <= j < |nodes| && 0 <= k < |nodes| && nodes[j] == nodes[k] ==> j == k
    ensures Raw(nodes, Add(kinds, (u, v), LabelOf(edges[i])), edges[..i + 1])
  {
    assert edges[..i + 1][..i] == edges[..i];
    var more := Add(kinds, (u, v), LabelOf(edges[i]));
    forall x: nat, y: nat | x < |nodes| && y < |nodes|
      ensures
        var labels := Between(edges[..i + 1], nodes[x], nodes[y]);
        ((x, y) in more <==> labels != []) && ((x, y) in more ==> more[(x, y)] == labels)
    {
      assert (nodes[x] == edges[i].source && nodes[y] == edges[i].target) <==> (x == u && y == v);
    }
  }

  lemma MirrorsGrows(
    adjacency: map<nat, seq<nat>>, kinds: map<(nat, nat), seq<Label>>, inbound: bool, u: nat, v: nat, l: Label)
    requires Mirrors(adjacency, kinds, inbound)
    ensures Mirrors(Add(adjacency, u, v), Add(kinds, Pair(u, v, inbound), l), inbound)
  {
  }

  lemma EndsHold(edges: seq<Edge>, e: Edge)
    requires e in edges
    ensures e.source in Ends(edges) && e.target in Ends(edges)
  {
    if e != edges[|edges| - 1] {
      EndsHold(edges[..|edges| - 1], e);
    }
  }

  /** The last loop: `sorted(set(...))` over each list. */
  lemma MirrorsIsListed(adjacency: map<nat, seq<nat>>, kinds: map<(nat, nat), seq<Label>>, inbound: bool)
    requires Mirrors(adjacency, kinds, inbound)
    ensures Lists(map u | u in adjacency :: SortedSet(NatLeq, adjacency[u]), kinds, inbound)
  {
    var listed := map u | u in adjacency :: SortedSet(NatLeq, adjacency[u]);
    forall u | u in adjacency
      ensures listed[u] != [] && Sorted(NatLeq, listed[u]) && Distinct(listed[u])
      ensures forall v :: v in listed[u] <==> v in adjacency[u]
    {
      SortedSetHolds(NatLeq, adjacency[u]);
      SortSorts(NatLeq, Dedup(adjacency[u]));
      assert adjacency[u][0] in listed[u];
    }
  }

  lemma RawIsCollected(nodes: seq<string>, kinds: map<(nat, nat), seq<Label>>, edges: seq<Edge>)
    requires Raw(nodes, kinds, edges)
    ensures Collects(nodes, map pair | pair in kinds :: Sort(LabelLeq, kinds[pair]), edges)
  {
  }

  lemma ListsIgnoresLabels(
    adjacency: map<nat, seq<nat>>, kinds: map<(nat, nat), seq<Label>>, other: map<(nat, nat), seq<Label>>,
    inbound: bool)
    requires Lists(adjacency, kinds, inbound) && kinds.Keys == other.Keys
    ensures Lists(adjacency, other, inbound)
  {
    forall u: nat, v: nat
      ensures Pair(u, v, inbound) in kinds <==> Pair(u, v, inbound) in other
    {
      assert Pair(u, v, inbound) in kinds.Keys <==> Pair(u, v, inbound) in other.Keys;
    }
  }

  function Number(nodes: seq<string>): (position: map<string, nat>)
    requires Distinct(nodes)
    ensures Numbers(nodes, position)
  {
    EntriesDiffer(nodes);
    map p: nat | 0 <= p < |nodes| :: nodes[p] := p
  }

  lemma EntriesDiffer(nodes: seq<string>)
    requires Distinct(nodes)
    ensures forall i, j :: 0 <= i < |nodes| && 0 <= j < |nodes| && nodes[i] == nodes[j] ==> i == j
  {
    forall i, j | 0 <= i < |nodes| && 0 <= j < |nodes| && nodes[i] == nodes[j]
      ensures i == j
    {
      if i < j { DistinctIndices(nodes, i, j); } else if j < i { DistinctIndices(nodes, j, i); }
    }
  }

  lemma EdgeIsNumbered(members: seq<string>, edges: seq<Edge>, nodes: seq<string>, position: map<string, nat>, e: Edge)
    requires nodes == SortedSet(StringLeq, members + Ends(edges)) && Numbers(nodes, position) && e in edges
    ensures e.source in position && e.target in position
  {
    EndsHold(edges, e);
    SortedSetHolds(StringLeq, members + Ends(edges));
  }

  /** `_on_build_end`: number the nodes, file every edge under its pair, then put each list in order. */
  method Compile(members: seq<string>, edges: seq<Edge>) returns (c: Compiled)
    ensures Compiles(c, members, edges)
  {
    hide Raw, Mirrors, Lists, Collects, Distinct, Sort, SortedSet;
    var nodes := SortedSet(StringLeq, members + Ends(edges));
    SortedSetHolds(StringLeq, members + Ends(edges));
    var position := Number(nodes);
    var external := set p | 0 <= p < |nodes| && nodes[p] !in members;

    var out: map<nat, seq<nat>>, into: map<nat, seq<nat>> := map[], map[];
    var kinds: map<(nat, nat), seq<Label>> := map[];
    NothingYet(nodes, edges);
    for i := 0 to |edges|
      invariant Raw(nodes, kinds, edges[..i]) && Mirrors(out, kinds, false) && Mirrors(into, kinds, true)
    {
      EdgeIsNumbered(members, edges, nodes, position, edges[i]);
      var tail, head := position[edges[i].source], position[edges[i].target];
      RawGrows(nodes, kinds, edges, i, tail, head);
      MirrorsGrows(out, kinds, false, tail, head, LabelOf(edges[i]));
      MirrorsGrows(into, kinds, true, head, tail, LabelOf(edges[i]));
      out := Add(out, tail, head);
      into := Add(into, head, tail);
      kinds := Add(kinds, (tail, head), LabelOf(edges[i]));
    }
    assert edges[..|edges|] == edges;
    RawIsCollected(nodes, kinds, edges);
    MirrorsIsListed(out, kinds, false);
    MirrorsIsListed(into, kinds, true);
    var sorted := map pair | pair in kinds :: Sort(LabelLeq, kinds[pair]);
    out := map u | u in out :: SortedSet(NatLeq, out[u]);
    into := map u | u in into :: SortedSet(NatLeq, into[u]);
    ListsIgnoresLabels(out, kinds, sorted, false);
    ListsIgnoresLabels(into, kinds, sorted, true);
    c := Compiled(nodes, position, out, into, sorted, external);
  }

  lemma NothingYet(nodes: seq<string>, edges: seq<Edge>)
    ensures Raw(nodes, map[], edges[..0]) && Mirrors(map[], map[], false) && Mirrors(map[], map[], true)
  {
  }

  // ---- Canonical form -------------------------------------------------------------

  lemma LabelsCompare()
    ensures Comparison(LabelLeq)
  {
    StringsAreOrdered();
    hide StringLeq;
    forall a: Label, b: Label
      ensures LabelLeq(a, b) || LabelLeq(b, a)
    {
    }
    forall a: Label, b: Label, c: Label | LabelLeq(a, b) && LabelLeq(b, c)
      ensures LabelLeq(a, c)
    {
      if a.kind != b.kind || b.kind != c.kind {
        StringsTransit(a.kind, b.kind, c.kind);
      } else if Bare(a.relation) != Bare(b.relation) || Bare(b.relation) != Bare(c.relation) {
        StringsTransit(Bare(a.relation), Bare(b.relation), Bare(c.relation));
      }
    }
  }

  lemma {:induction false} BetweenCounts(edges: seq<Edge>, s: string, t: string, l: Label)
    ensures multiset(Between(edges, s, t))[l] == multiset(edges)[Edge(s, t, l.kind, l.relation, l.weight)]
  {
    if edges != [] {
      var n := |edges| - 1;
      BetweenCounts(edges[..n], s, t, l);
      assert edges == edges[..n] + [edges[n]];
    }
  }

  lemma {:induction false} EndsAre(edges: seq<Edge>, v: string)
    ensures v in Ends(edges) <==> exists e :: e in edges && (e.source == v || e.target == v)
  {
    if edges != [] {
      var n := |edges| - 1;
      EndsAre(edges[..n], v);
      assert edges == edges[..n] + [edges[n]];
    }
  }

  lemma NodesForgetOrder(members: seq<string>, p: seq<Edge>, q: seq<Edge>)
    requires multiset(p) == multiset(q)
    ensures SortedSet(StringLeq, members + Ends(p)) == SortedSet(StringLeq, members + Ends(q))
  {
    StringsAreOrdered();
    forall v
      ensures v in members + Ends(p) <==> v in members + Ends(q)
    {
      EndsAre(p, v);
      EndsAre(q, v);
      forall e ensures e in p <==> e in q { assert e in multiset(p) <==> e in multiset(q); }
    }
    SortedSetForgets(StringLeq, members + Ends(p), members + Ends(q));
  }

  /** Between any two nodes the labels come out of the sort alike. */
  ghost predicate LabelAlike(p: seq<Edge>, q: seq<Edge>) {
    forall s, t :: Sort(LabelLeq, Between(p, s, t)) == Sort(LabelLeq, Between(q, s, t))
  }

  lemma SortOfNothing(s: seq<Label>)
    ensures Sort(LabelLeq, s) == [] <==> s == []
  {
    SortPermutes(LabelLeq, s);
    assert |multiset(Sort(LabelLeq, s))| == |multiset(s)|;
  }

  lemma KindsAreCanonical(
    nodes: seq<string>, a: map<(nat, nat), seq<Label>>, p: seq<Edge>, b: map<(nat, nat), seq<Label>>, q: seq<Edge>)
    requires Collects(nodes, a, p) && Collects(nodes, b, q) && LabelAlike(p, q)
    ensures a == b
  {
    hide Between, Sort;
    forall pair: (nat, nat)
      ensures pair in a <==> pair in b
      ensures pair in a && pair in b ==> a[pair] == b[pair]
    {
      if pair.0 < |nodes| && pair.1 < |nodes| {
        SortOfNothing(Between(p, nodes[pair.0], nodes[pair.1]));
        SortOfNothing(Between(q, nodes[pair.0], nodes[pair.1]));
      }
    }
  }

  /** No edge joins what was not numbered. */
  lemma StrangersHaveNoLabels(members: seq<string>, edges: seq<Edge>, s: string, t: string)
    requires var nodes := SortedSet(StringLeq, members + Ends(edges)); s !in nodes || t !in nodes
    ensures Between(edges, s, t) == []
  {
    if Between(edges, s, t) != [] {
      var l := Between(edges, s, t)[0];
      BetweenHolds(edges, s, t, l);
      EndsHold(edges, Edge(s, t, l.kind, l.relation, l.weight));
      SortedSetHolds(StringLeq, members + Ends(edges));
    }
  }

  lemma KindsDecideLabels(
    members: seq<string>, nodes: seq<string>, kinds: map<(nat, nat), seq<Label>>, p: seq<Edge>, q: seq<Edge>)
    requires nodes == SortedSet(StringLeq, members + Ends(p)) && nodes == SortedSet(StringLeq, members + Ends(q))
    requires Collects(nodes, kinds, p) && Collects(nodes, kinds, q)
    ensures LabelAlike(p, q)
  {
    hide Between, Sort, SortedSet, Ends;
    forall s, t
      ensures Sort(LabelLeq, Between(p, s, t)) == Sort(LabelLeq, Between(q, s, t))
    {
      if s in nodes && t in nodes {
        var u: nat :| u < |nodes| && nodes[u] == s;
        var v: nat :| v < |nodes| && nodes[v] == t;
        assert (u, v) in kinds <==> Between(p, s, t) != [];
        assert (u, v) in kinds <==> Between(q, s, t) != [];
      } else {
        StrangersHaveNoLabels(members, p, s, t);
        StrangersHaveNoLabels(members, q, s, t);
      }
    }
  }

  lemma ListsAreCanonical(
    a: map<nat, seq<nat>>, b: map<nat, seq<nat>>, kinds: map<(nat, nat), seq<Label>>, inbound: bool)
    requires Lists(a, kinds, inbound) && Lists(b, kinds, inbound)
    ensures a == b
  {
    forall u: nat
      ensures u in a <==> u in b
      ensures u in a && u in b ==> a[u] == b[u]
    {
      if u in a {
        assert a[u][0] in a[u];
        assert Pair(u, a[u][0], inbound) in kinds;
      }
      if u in b {
        assert b[u][0] in b[u];
        assert Pair(u, b[u][0], inbound) in kinds;
      }
      if u in a && u in b {
        forall v ensures v in a[u] <==> v in b[u] {
          assert v in a[u] <==> Pair(u, v, inbound) in kinds;
        }
        SortedSetIsUnique(NatLeq, a[u], b[u]);
      }
    }
  }

  lemma NumbersAreCanonical(nodes: seq<string>, a: map<string, nat>, b: map<string, nat>)
    requires Numbers(nodes, a) && Numbers(nodes, b)
    ensures a == b
  {
    forall v
      ensures v in a <==> v in b
      ensures v in a && v in b ==> a[v] == b[v]
    {
    }
  }

  /** The same bag of edges compiles to the same arrays exactly when the labels come out of the sort alike. */
  lemma CompiledAlikeIff(c: Compiled, p: seq<Edge>, d: Compiled, q: seq<Edge>, members: seq<string>)
    requires Compiles(c, members, p) && Compiles(d, members, q) && multiset(p) == multiset(q)
    ensures c == d <==> LabelAlike(p, q)
  {
    hide Numbers, Collects, Lists, LabelAlike;
    NodesForgetOrder(members, p, q);
    NumbersAreCanonical(c.nodes, c.position, d.position);
    if LabelAlike(p, q) {
      KindsAreCanonical(c.nodes, c.kinds, p, d.kinds, q);
      ListsAreCanonical(c.out, d.out, c.kinds, false);
      ListsAreCanonical(c.into, d.into, c.kinds, true);
    }
    if c == d {
      KindsDecideLabels(members, c.nodes, c.kinds, p, q);
    }
  }

  // ---- What a traversal sees -------------------------------------------------------

  /** The compiled graph offers a query exactly the arcs of the edges. */
  lemma CompiledIsFaithful(c: Compiled, members: seq<string>, edges: seq<Edge>, q: Query)
    requires Compiles(c, members, edges)
    ensures LensOf(c, q).Faithful(Arcs(edges, q))
  {
    var lens := LensOf(c, q);
    forall u, v | u in lens.adjacency && v in lens.adjacency[u]
      ensures v < |c.nodes|
    {
      assert Pair(u, v, q.inbound) in c.kinds;
    }
    forall u: nat, v: nat, l | u < |c.nodes| && v < |c.nodes| && lens.Offers(u, v, l)
      ensures lens.Hop(u, v, l) in Arcs(edges, q)
    {
      OfferIsArc(c, members, edges, q, u, v, l);
    }
    forall u: nat, a | lens.Leaves(u, a) && a in Arcs(edges, q)
      ensures exists v: nat, l :: v < |c.nodes| && lens.Offers(u, v, l) && lens.Hop(u, v, l) == a
    {
      var v, l := ArcIsOffer(c, members, edges, q, u, a);
    }
  }

  function LensOf(c: Compiled, q: Query): Lens {
    Lens(c.nodes, if q.inbound then c.into else c.out, c.kinds, q)
  }

  lemma {:induction false} BetweenHolds(edges: seq<Edge>, s: string, t: string, l: Label)
    ensures l in Between(edges, s, t) <==> Edge(s, t, l.kind, l.relation, l.weight) in edges
  {
    BetweenCounts(edges, s, t, l);
    assert l in Between(edges, s, t) <==> multiset(Between(edges, s, t))[l] > 0;
    assert Edge(s, t, l.kind, l.relation, l.weight) in edges
      <==> multiset(edges)[Edge(s, t, l.kind, l.relation, l.weight)] > 0;
  }

  lemma KindsHold(nodes: seq<string>, kinds: map<(nat, nat), seq<Label>>, edges: seq<Edge>, u: nat, v: nat, l: Label)
    requires Collects(nodes, kinds, edges) && u < |nodes| && v < |nodes|
    ensures Edge(nodes[u], nodes[v], l.kind, l.relation, l.weight) in edges
       <==> (u, v) in kinds && l in kinds[(u, v)]
  {
    hide Between, Sort;
    BetweenHolds(edges, nodes[u], nodes[v], l);
    SortHolds(LabelLeq, Between(edges, nodes[u], nodes[v]), l);
  }

  lemma OfferIsArc(c: Compiled, members: seq<string>, edges: seq<Edge>, q: Query, u: nat, v: nat, l: Label)
    requires Compiles(c, members, edges) && u < |c.nodes| && v < |c.nodes| && LensOf(c, q).Offers(u, v, l)
    ensures LensOf(c, q).Hop(u, v, l) in Arcs(edges, q)
  {
    hide Lists, Numbers, Collects;
    var pair := Pair(u, v, q.inbound);
    KindsHold(c.nodes, c.kinds, edges, pair.0, pair.1, l);
    var e := Edge(c.nodes[pair.0], c.nodes[pair.1], l.kind, l.relation, l.weight);
    assert Orient(e, q) == LensOf(c, q).Hop(u, v, l);
  }

  lemma ArcIsOffer(c: Compiled, members: seq<string>, edges: seq<Edge>, q: Query, u: nat, a: Arc<string>)
    returns (v: nat, l: Label)
    requires Compiles(c, members, edges) && LensOf(c, q).Leaves(u, a) && a in Arcs(edges, q)
    ensures v < |c.nodes| && LensOf(c, q).Offers(u, v, l) && LensOf(c, q).Hop(u, v, l) == a
  {
    hide Collects, SortedSet;
    var e :| e in edges && Follows(q, e.kind, e.relation) && Orient(e, q) == a;
    EdgeIsNumbered(members, edges, c.nodes, c.position, e);
    v := c.position[if q.inbound then e.source else e.target];
    l := LabelOf(e);
    assert u == c.position[c.nodes[u]];
    hide Numbers;
    var pair := Pair(u, v, q.inbound);
    KindsHold(c.nodes, c.kinds, edges, pair.0, pair.1, l);
  }
}
