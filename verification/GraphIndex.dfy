/**
  The graph index of one module, as the object the planner holds: built from blocks, persisted and reloaded, and
  asked to expand a set of seeds.
*/
module GraphIndex {
  import opened Wrappers
  import opened Walks
  import opened Ordering
  import opened Ranking
  import opened GraphSearch
  import opened GraphCompile
  import opened GraphBody

  function SeedSet(q: Query): set<string> {
    Elements(q.seeds)
  }

  class Index {
    var table: seq<string>
    var edges: seq<Edge>
    var nodes: seq<string>
    var position: map<string, nat>
    var out: map<nat, seq<nat>>
    var into: map<nat, seq<nat>>
    var kinds: map<(nat, nat), seq<Label>>
    var external: set<nat>

    ghost function State(): Compiled
      reads this
    {
      Compiled(nodes, position, out, into, kinds, external)
    }

    ghost predicate Valid()
      reads this
    {
      Compiles(State(), table, edges) && Quantized(edges)
    }

    /** The seeds that are nodes of this graph. */
    ghost function KnownSeeds(q: Query): set<string>
      reads `nodes
    {
      set v | v in q.seeds && v in nodes
    }

    constructor ()
      ensures table == [] && edges == [] && State() == Compiled([], map[], map[], map[], map[], {})
    {
      table, edges, nodes, position := [], [], [], map[];
      out, into, kinds, external := map[], map[], map[], {};
    }

    method Reset()
      modifies this
      ensures table == old(table) && edges == [] && State() == Compiled([], map[], map[], map[], map[], {})
    {
      edges, nodes, position := [], [], map[];
      out, into, kinds, external := map[], map[], map[], {};
    }

    /** Collect one block's outgoing edges. */
    method Apply(b: Block)
      modifies `edges
      ensures edges == old(edges) + EdgesFrom(b.id, b.edges)
    {
      edges := edges + EdgesFrom(b.id, b.edges);
    }

    method OnBuildEnd()
      requires Quantized(edges)
      modifies `nodes, `position, `out, `into, `kinds, `external
      ensures Valid()
    {
      var c := Compile(table, edges);
      nodes, position, out, into, kinds, external := c.nodes, c.position, c.out, c.into, c.kinds, c.external;
    }

    /** A build over a set of blocks whose membership changed. */
    method Build(blocks: seq<Block>)
      modifies this
      ensures Valid() && table == SortedSet(StringLeq, Ids(blocks)) && edges == Collected(blocks)
    {
      Reset();
      table := SortedSet(StringLeq, Ids(blocks));
      for i := 0 to |blocks|
        invariant table == SortedSet(StringLeq, Ids(blocks)) && edges == Collected(blocks[..i])
      {
        CollectedUnfolds(blocks[..i], blocks[i]);
        assert blocks[..i + 1] == blocks[..i] + [blocks[i]];
        Apply(blocks[i]);
      }
      assert blocks[..|blocks|] == blocks;
      CollectedIsQuantized(blocks);
      OnBuildEnd();
    }

    function Dump(): (body: Body)
      reads this
      ensures Valid() ==> body == DumpOf(table, edges)
    {
      Body(table, nodes, Sort(RowLeq, Rows(edges)))
    }

    /** Restore a dumped body. */
    method Load(body: Body)
      modifies this
      ensures Valid() && table == SortedSet(StringLeq, body.identities) && edges == Edges(body.edges)
    {
      Reset();
      edges := Edges(body.edges);
      table := SortedSet(StringLeq, body.identities);
      OnBuildEnd();
    }

    /**
      Expand a set of seeds. Everything reported is a walk; the report is exact when fewer nodes were reached than the
      ceiling allows, and always for a single seed and a single hop.
    */
    method Expand(q: Query) returns (results: seq<Entry<string>>)
      requires Valid() && q.decay >= 0.0 && forall e :: e in edges ==> e.weight >= 0.0
      ensures Reports(results, Arcs(edges, q), SeedSet(q), q.depth,
        |results| + |KnownSeeds(q)| < q.maxNodes || (|q.seeds| == 1 && q.depth <= 1 <= q.maxNodes))
    {
      hide Compiles, Numbers, Lens.Faithful, Exact, Reported, Agree, IsListing, SeedsOf, SeedSet;
      ghost var arcs := Arcs(edges, q);
      CompiledIsFaithful(State(), table, edges, q);
      CompiledIsNumbered(State(), table, edges);
      var starts := Locate(nodes, position, q.seeds);
      var lens := Lens(nodes, if q.inbound then into else out, kinds, q);
      var reached;
      ghost var best;
      reached, best := Explore(lens, starts, arcs);
      var origin := Elements(starts);
      SeedsAreListed(q);
      StartsCount(nodes, starts, KnownSeeds(q));
      results := Report(nodes, reached, origin, best, SeedSet(q));
      StartsAreSeeds(State(), table, edges, q, starts);
      IdleSeedsDoNotMatter(arcs, SeedsOf(nodes, starts), SeedSet(q), q.depth, best);
    }
  }

  /** The positions of the seeds the index knows. */
  method Locate(nodes: seq<string>, position: map<string, nat>, seeds: seq<string>) returns (starts: seq<nat>)
    requires Numbers(nodes, position)
    ensures forall p: nat :: p in starts <==> p < |nodes| && nodes[p] in seeds
    ensures |starts| <= |seeds|
  {
    starts := [];
    for i := 0 to |seeds|
      invariant |starts| <= i
      invariant forall p: nat :: p in starts <==> p < |nodes| && nodes[p] in seeds[..i]
    {
      if seeds[i] in position {
        starts := starts + [position[seeds[i]]];
      }
      assert seeds[..i + 1] == seeds[..i] + [seeds[i]];
    }
    assert seeds[..|seeds|] == seeds;
  }

  lemma CompiledIsNumbered(c: Compiled, members: seq<string>, edges: seq<Edge>)
    requires Compiles(c, members, edges)
    ensures Numbers(c.nodes, c.position)
    ensures forall i, j :: 0 <= i < |c.nodes| && 0 <= j < |c.nodes| && c.nodes[i] == c.nodes[j] ==> i == j
  {
  }

  /** No more starts than seeds that are known. */
  lemma {:induction false} StartsCount(nodes: seq<string>, starts: seq<nat>, known: set<string>)
    requires forall p :: p in starts ==> p < |nodes| && nodes[p] in known
    requires forall i, j :: 0 <= i < |nodes| && 0 <= j < |nodes| && nodes[i] == nodes[j] ==> i == j
    ensures |Elements(starts)| <= |known|
    decreases |starts|
  {
    if starts == [] {
      assert Elements(starts) == {};
    } else {
      var p, rest := starts[0], starts[1..];
      assert starts == [p] + rest && p in starts && forall x :: x in rest ==> x in starts;
      if p in rest {
        StartsCount(nodes, rest, known);
        assert Elements(starts) == Elements(rest);
      } else {
        StartsCount(nodes, rest, known - {nodes[p]});
        assert Elements(starts) == Elements(rest) + {p};
      }
    }
  }

  lemma SeedsAreListed(q: Query)
    ensures forall v :: v in SeedSet(q) <==> v in q.seeds
  {
  }

  /** The positions the loop collected are the seeds any arc could leave. */
  lemma StartsAreSeeds(c: Compiled, members: seq<string>, edges: seq<Edge>, q: Query, starts: seq<nat>)
    requires Compiles(c, members, edges)
    requires forall p: nat :: p in starts <==> p < |c.nodes| && c.nodes[p] in q.seeds
    ensures forall a :: a in Arcs(edges, q) ==> (a.from in SeedsOf(c.nodes, starts) <==> a.from in SeedSet(q))
  {
    forall a | a in Arcs(edges, q)
      ensures a.from in SeedsOf(c.nodes, starts) <==> a.from in SeedSet(q)
    {
      var e :| e in edges && Follows(q, e.kind, e.relation) && Orient(e, q) == a;
      EdgeIsNumbered(members, edges, c.nodes, c.position, e);
      var p := c.position[a.from];
      assert c.nodes[p] == a.from;
      assert a.from in SeedSet(q) ==> p in starts;
    }
  }

  // ---- What the answers are ---------------------------------------------------------

  /** The inbound answer over a graph is the outbound answer over its reverse. */
  lemma InboundAnswerIsReversed(
    edges: seq<Edge>, q: Query, a: seq<Entry<string>>, b: seq<Entry<string>>)
    requires Reports(a, Arcs(edges, q), SeedSet(q), q.depth, true)
    requires Reports(b, Arcs(Reversed(edges), q.(inbound := !q.inbound)), SeedSet(q), q.depth, true)
    ensures a == b
  {
    hide Reports, Arcs;
    InboundIsReversed(edges, q);
    ExactReportIsUnique(a, b, Arcs(edges, q), SeedSet(q), q.depth);
  }

  /** Exact answers do not depend on the order in which edges were collected. */
  lemma AnswerForgetsOrder(
    p: seq<Edge>, r: seq<Edge>, q: Query, a: seq<Entry<string>>, b: seq<Entry<string>>)
    requires multiset(p) == multiset(r)
    requires Reports(a, Arcs(p, q), SeedSet(q), q.depth, true) && Reports(b, Arcs(r, q), SeedSet(q), q.depth, true)
    ensures a == b
  {
    hide Reports, Arcs;
    ArcsForgetOrder(p, r, q);
    ExactReportIsUnique(a, b, Arcs(p, q), SeedSet(q), q.depth);
  }

  lemma ArcsForgetOrder(p: seq<Edge>, r: seq<Edge>, q: Query)
    requires multiset(p) == multiset(r)
    ensures Arcs(p, q) == Arcs(r, q)
  {
    forall e
      ensures e in p <==> e in r
    {
      assert e in multiset(p) <==> e in multiset(r);
    }
  }

  lemma IdsPermute(p: seq<Block>, q: seq<Block>)
    requires multiset(p) == multiset(q)
    ensures SortedSet(StringLeq, Ids(p)) == SortedSet(StringLeq, Ids(q))
  {
    StringsAreOrdered();
    forall v
      ensures v in Ids(p) <==> v in Ids(q)
    {
      IdsHold(p, v);
      IdsHold(q, v);
      forall b ensures b in p <==> b in q { assert b in multiset(p) <==> b in multiset(q); }
    }
    SortedSetForgets(StringLeq, Ids(p), Ids(q));
  }

  lemma IdsHold(blocks: seq<Block>, v: string)
    ensures v in Ids(blocks) <==> exists b :: b in blocks && b.id == v
  {
    if v in Ids(blocks) {
      var i :| 0 <= i < |blocks| && Ids(blocks)[i] == v;
      assert blocks[i] in blocks;
    }
    if b :| b in blocks && b.id == v {
      var i :| 0 <= i < |blocks| && blocks[i] == b;
      assert Ids(blocks)[i] == v;
    }
  }

  /**
    An index is a function of its set of blocks: built from them in any order, it is compiled to the same arrays and
    dumps the same body.
  */
  lemma BuildIsCanonical(p: seq<Block>, q: seq<Block>, c: Compiled, d: Compiled)
    requires Identified(p) && multiset(p) == multiset(q)
    requires Compiles(c, SortedSet(StringLeq, Ids(p)), Collected(p))
    requires Compiles(d, SortedSet(StringLeq, Ids(q)), Collected(q))
    ensures c == d
    ensures DumpOf(SortedSet(StringLeq, Ids(p)), Collected(p)) == DumpOf(SortedSet(StringLeq, Ids(q)), Collected(q))
  {
    hide Collected, SortedSet, Compiles, DumpOf, Identified, TieAlike, LabelAlike, Ids;
    var members := SortedSet(StringLeq, Ids(p));
    IdsPermute(p, q);
    CollectedForgetsOrder(p, q);
    CollectedIsQuantized(p);
    CollectedIsQuantized(q);
    BlocksTieAlike(p, q);
    RowsDecideLabels(Collected(p), Collected(q));
    CompiledAlikeIff(c, Collected(p), d, Collected(q), members);
    DumpsAlikeIff(members, Collected(p), Collected(q));
  }

  /** Reloading a dumped index recompiles it to the same arrays. */
  lemma LoadIsCanonical(table: seq<string>, edges: seq<Edge>, c: Compiled, d: Compiled)
    requires Quantized(edges)
    requires Compiles(c, table, edges) && Compiles(d, table, Edges(DumpOf(table, edges).edges))
    ensures c == d
  {
    hide Compiles, DumpOf, TieAlike, LabelAlike;
    LoadRestoresEdges(table, edges);
    LoadIsQuantized(table, edges);
    LoadTiesAlike(table, edges);
    RowsDecideLabels(Edges(DumpOf(table, edges).edges), edges);
    CompiledAlikeIff(d, Edges(DumpOf(table, edges).edges), c, edges, table);
  }

  lemma LoadIsQuantized(table: seq<string>, edges: seq<Edge>)
    requires Quantized(edges)
    ensures Quantized(Edges(DumpOf(table, edges).edges))
  {
    LoadRestoresEdges(table, edges);
    forall e | e in Edges(DumpOf(table, edges).edges)
      ensures e in edges
    {
      assert e in multiset(edges);
    }
  }
}
