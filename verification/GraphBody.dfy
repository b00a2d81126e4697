/**
  What a graph index collects from blocks and what it persists: quantized edges, and a body whose rows are in
  canonical order.
*/
module GraphBody {
  import opened Wrappers
  import opened Walks
  import opened Ordering
  import opened Ranking
  import opened GraphSearch
  import opened GraphCompile

  /** An edge as a block's projection offers it: the weight is not yet quantized. */
  datatype Projected = Projected(target: string, kind: string, relation: Option<string>, weight: real)

  datatype Block = Block(id: string, edges: seq<Projected>)

  const WEIGHT_SCALE := 1000.0

  /** Python's `round`: to the nearest integer, halves to even. */
  function Round(x: real): int {
    var f := x.Floor;
    var rest := x - f as real;
    if rest < 0.5 then f else if rest > 0.5 then f + 1 else if f % 2 == 0 then f else f + 1
  }

  function Quantize(weight: real): real {
    Round(weight * WEIGHT_SCALE) as real / WEIGHT_SCALE
  }

  function EdgeFrom(id: string, p: Projected): Edge {
    Edge(id, p.target, p.kind, p.relation, Quantize(p.weight))
  }

  function EdgesFrom(id: string, ps: seq<Projected>): (edges: seq<Edge>)
    ensures |edges| == |ps| && forall i :: 0 <= i < |ps| ==> edges[i] == EdgeFrom(id, ps[i])
  {
    seq(|ps|, i requires 0 <= i < |ps| => EdgeFrom(id, ps[i]))
  }

  /** What a build collects from a list of blocks. */
  function Collected(blocks: seq<Block>): seq<Edge> {
    if blocks == [] then [] else
      var b := blocks[|blocks| - 1];
      Collected(blocks[..|blocks| - 1]) + EdgesFrom(b.id, b.edges)
  }

  function Ids(blocks: seq<Block>): (ids: seq<string>)
    ensures |ids| == |blocks| && forall i :: 0 <= i < |blocks| ==> ids[i] == blocks[i].id
  {
    seq(|blocks|, i requires 0 <= i < |blocks| => blocks[i].id)
  }

  // ---- The serialized body ---------------------------------------------------------

  datatype Row = Row(source: string, target: string, kind: string, relation: Option<string>, thousandths: int)

  datatype Body = Body(identities: seq<string>, nodes: seq<string>, edges: seq<Row>)

  function RowOf(e: Edge): Row {
    Row(e.source, e.target, e.kind, e.relation, Round(e.weight * WEIGHT_SCALE))
  }

  function EdgeOf(r: Row): Edge {
    Edge(r.source, r.target, r.kind, r.relation, r.thousandths as real / WEIGHT_SCALE)
  }

  function Rows(edges: seq<Edge>): (rows: seq<Row>)
    ensures |rows| == |edges| && forall i :: 0 <= i < |edges| ==> rows[i] == RowOf(edges[i])
  {
    seq(|edges|, i requires 0 <= i < |edges| => RowOf(edges[i]))
  }

  function Edges(rows: seq<Row>): (edges: seq<Edge>)
    ensures |edges| == |rows| && forall i :: 0 <= i < |rows| ==> edges[i] == EdgeOf(rows[i])
  {
    seq(|rows|, i requires 0 <= i < |rows| => EdgeOf(rows[i]))
  }

  /** The sort key of a row: source, target, kind, `predicate or ""`, thousandths. */
  predicate RowLeq(a: Row, b: Row) {
    if a.source != b.source then StringLeq(a.source, b.source)
    else if a.target != b.target then StringLeq(a.target, b.target)
    else if a.kind != b.kind then StringLeq(a.kind, b.kind)
    else if Bare(a.relation) != Bare(b.relation) then StringLeq(Bare(a.relation), Bare(b.relation))
    else a.thousandths <= b.thousandths
  }

  function DumpOf(table: seq<string>, edges: seq<Edge>): Body {
    Body(table, SortedSet(StringLeq, table + Ends(edges)), Sort(RowLeq, Rows(edges)))
  }

  lemma RowsCompare()
    ensures Comparison(RowLeq)
  {
    StringsAreOrdered();
    hide StringLeq;
    forall a: Row, b: Row
      ensures RowLeq(a, b) || RowLeq(b, a)
    {
    }
    forall a: Row, b: Row, c: Row | RowLeq(a, b) && RowLeq(b, c)
      ensures RowLeq(a, c)
    {
      RowsTransit(a, b, c);
    }
  }

  lemma RowsTransit(a: Row, b: Row, c: Row)
    requires RowLeq(a, b) && RowLeq(b, c)
    ensures RowLeq(a, c)
  {
    hide StringLeq;
    if a.source != b.source || b.source != c.source {
      StringsTransit(a.source, b.source, c.source);
    } else if a.target != b.target || b.target != c.target {
      StringsTransit(a.target, b.target, c.target);
    } else if a.kind != b.kind || b.kind != c.kind {
      StringsTransit(a.kind, b.kind, c.kind);
    } else if Bare(a.relation) != Bare(b.relation) || Bare(b.relation) != Bare(c.relation) {
      StringsTransit(Bare(a.relation), Bare(b.relation), Bare(c.relation));
    }
  }

  /** Rows that differ tie only when one has no predicate and the other an empty one. */
  lemma RowsTieOnNothing(a: Row, b: Row)
    ensures Tied(RowLeq, a, b) && a != b <==>
      a != b && b == a.(relation := b.relation) && Bare(a.relation) == "" && Bare(b.relation) == ""
  {
    if Tied(RowLeq, a, b) {
      if a.source != b.source { StringAntisymmetric(a.source, b.source); }
      if a.target != b.target { StringAntisymmetric(a.target, b.target); }
      if a.kind != b.kind { StringAntisymmetric(a.kind, b.kind); }
      if Bare(a.relation) != Bare(b.relation) { StringAntisymmetric(Bare(a.relation), Bare(b.relation)); }
    }
  }

  // ---- Dumps that agree --------------------------------------------------------------

  lemma {:induction false} EndsOfRows(edges: seq<Edge>)
    ensures Ends(Edges(Rows(edges))) == Ends(edges)
    decreases |edges|
  {
    if edges != [] {
      var n := |edges| - 1;
      EndsOfRows(edges[..n]);
      assert Edges(Rows(edges))[..n] == Edges(Rows(edges[..n]));
    }
  }

  /**
    Two lists of edges dump alike exactly when their rows agree on ties: rows that differ only in having no predicate or
    an empty one must come in the same order.
  */
  lemma DumpsAlikeIff(table: seq<string>, p: seq<Edge>, q: seq<Edge>)
    ensures DumpOf(table, p) == DumpOf(table, q) <==> TieAlike(RowLeq, Rows(p), Rows(q))
  {
    hide Sort, SortedSet, TieAlike, Ends;
    RowsCompare();
    SortsAlikeIff(RowLeq, Rows(p), Rows(q));
    if TieAlike(RowLeq, Rows(p), Rows(q)) {
      TieAlikePermutes(RowLeq, Rows(p), Rows(q));
      EdgesPermute(Rows(p), Rows(q));
      NodesForgetOrder(table, Edges(Rows(p)), Edges(Rows(q)));
      EndsOfRows(p);
      EndsOfRows(q);
    }
  }

  // ---- One block, one source ---------------------------------------------------------

  /** Blocks as a module holds them: none twice, and each under an identity of its own. */
  ghost predicate Identified(blocks: seq<Block>) {
    Distinct(blocks) && forall b, c :: b in blocks && c in blocks && b.id == c.id ==> b == c
  }

  lemma IdentifiedPermutes(p: seq<Block>, q: seq<Block>)
    requires Identified(p) && multiset(p) == multiset(q)
    ensures Identified(q)
  {
    forall b | b in q
      ensures b in p && multiset(q)[b] == 1
    {
      assert b in multiset(p);
      DistinctCounts(p, b);
    }
    CountsDistinct(q);
  }

  lemma TiedRowsShareTheirSource(a: Row, b: Row)
    requires Tied(RowLeq, a, b)
    ensures a.source == b.source
  {
    if a.source != b.source { StringAntisymmetric(a.source, b.source); }
  }

  lemma {:induction false} SourcesAreIds(blocks: seq<Block>, e: Edge)
    requires e in Collected(blocks)
    ensures exists b :: b in blocks && b.id == e.source
    decreases |blocks|
  {
    var last := blocks[|blocks| - 1];
    if e in Collected(blocks[..|blocks| - 1]) {
      SourcesAreIds(blocks[..|blocks| - 1], e);
    } else {
      assert last in blocks;
    }
  }

  /** The rows of other blocks never tie with a row. */
  lemma TiesElsewhere(blocks: seq<Block>, a: Row)
    requires forall b :: b in blocks ==> b.id != a.source
    ensures Ties(RowLeq, a, Rows(Collected(blocks))) == []
  {
    forall r | r in Rows(Collected(blocks))
      ensures !Tied(RowLeq, a, r)
    {
      var i :| 0 <= i < |Collected(blocks)| && r == RowOf(Collected(blocks)[i]);
      SourcesAreIds(blocks, Collected(blocks)[i]);
      if Tied(RowLeq, a, r) { TiedRowsShareTheirSource(a, r); }
    }
    TiesOfNone(RowLeq, a, Rows(Collected(blocks)));
  }

  lemma RowsAppend(p: seq<Edge>, q: seq<Edge>)
    ensures Rows(p + q) == Rows(p) + Rows(q)
  {
  }

  /** So the rows that tie with one another all come from one block, in that block's order. */
  lemma TiesAreOfOneBlock(blocks: seq<Block>, k: nat, a: Row)
    requires k < |blocks| && Identified(blocks) && a.source == blocks[k].id
    ensures Ties(RowLeq, a, Rows(Collected(blocks))) == Ties(RowLeq, a, Rows(EdgesFrom(blocks[k].id, blocks[k].edges)))
  {
    hide Collected, EdgesFrom, Ties;
    var before, b, after := blocks[..k], blocks[k], blocks[k + 1..];
    assert blocks == before + ([b] + after);
    CollectedAppends(before, [b] + after);
    CollectedAppends([b], after);
    CollectedOne(b);
    RowsAppend(Collected(before), Collected([b] + after));
    RowsAppend(Collected([b]), Collected(after));
    TiesAppend(RowLeq, a, Rows(Collected(before)), Rows(Collected([b] + after)));
    TiesAppend(RowLeq, a, Rows(Collected([b])), Rows(Collected(after)));
    forall c | c in before || c in after
      ensures c.id != a.source
    {
      var i :| 0 <= i < |blocks| && i != k && blocks[i] == c;
      DistinctIndices(blocks, if i < k then i else k, if i < k then k else i);
    }
    TiesElsewhere(before, a);
    TiesElsewhere(after, a);
  }

  /** In whatever order blocks arrive, their rows agree on ties. */
  lemma BlocksTieAlike(p: seq<Block>, q: seq<Block>)
    requires Identified(p) && multiset(p) == multiset(q)
    ensures TieAlike(RowLeq, Rows(Collected(p)), Rows(Collected(q)))
  {
    hide Collected, EdgesFrom, Ties, Identified;
    IdentifiedPermutes(p, q);
    forall b
      ensures b in p <==> b in q
    {
      assert b in multiset(p) <==> b in multiset(q);
    }
    forall a
      ensures Ties(RowLeq, a, Rows(Collected(p))) == Ties(RowLeq, a, Rows(Collected(q)))
    {
      if b :| b in p && b.id == a.source {
        var i :| 0 <= i < |p| && p[i] == b;
        var j :| 0 <= j < |q| && q[j] == b;
        TiesAreOfOneBlock(p, i, a);
        TiesAreOfOneBlock(q, j, a);
      } else {
        TiesElsewhere(p, a);
        TiesElsewhere(q, a);
      }
    }
  }

  // ---- Permuting and reloading ------------------------------------------------------

  lemma CollectedOne(b: Block)
    ensures Collected([b]) == EdgesFrom(b.id, b.edges)
  {
    assert [b][..0] == [];
  }

  lemma CollectedAround(before: seq<Block>, b: Block, after: seq<Block>)
    ensures Collected(before + ([b] + after)) == Collected(before) + (EdgesFrom(b.id, b.edges) + Collected(after))
    ensures Collected(before + after) == Collected(before) + Collected(after)
  {
    hide Collected, EdgesFrom;
    CollectedAppends(before, [b] + after);
    CollectedAppends([b], after);
    CollectedOne(b);
    CollectedAppends(before, after);
  }

  lemma CollectedPicks(blocks: seq<Block>, i: nat)
    requires i < |blocks|
    ensures multiset(Collected(blocks))
         == multiset(EdgesFrom(blocks[i].id, blocks[i].edges)) + multiset(Collected(Without(blocks, i)))
  {
    hide Collected, EdgesFrom;
    var b := blocks[i];
    assert blocks == blocks[..i] + ([b] + blocks[i + 1..]);
    CollectedAround(blocks[..i], b, blocks[i + 1..]);
    MiddleOut(Collected(blocks[..i]), EdgesFrom(b.id, b.edges), Collected(blocks[i + 1..]));
  }

  lemma CollectedUnfolds(blocks: seq<Block>, b: Block)
    ensures Collected(blocks + [b]) == Collected(blocks) + EdgesFrom(b.id, b.edges)
  {
    assert (blocks + [b])[..|blocks|] == blocks;
  }

  lemma CollectedStops()
    ensures Collected([]) == []
  {
  }

  lemma {:induction false} CollectedAppends(p: seq<Block>, q: seq<Block>)
    ensures Collected(p + q) == Collected(p) + Collected(q)
    decreases |q|
  {
    hide Collected, EdgesFrom;
    if q == [] {
      CollectedStops();
      assert p + q == p;
    } else {
      var init, last := q[..|q| - 1], q[|q| - 1];
      assert q == init + [last];
      assert p + (init + [last]) == (p + init) + [last];
      CollectedAppends(p, init);
      CollectedUnfolds(p + init, last);
      CollectedUnfolds(init, last);
    }
  }

  /** Blocks in any order give the same bag of edges. */
  lemma {:induction false} CollectedForgetsOrder(p: seq<Block>, q: seq<Block>)
    requires multiset(p) == multiset(q)
    ensures multiset(Collected(p)) == multiset(Collected(q))
    decreases |p|
  {
    assert |multiset(p)| == |multiset(q)|;
    if p != [] {
      var i := FindHead(p, q);
      hide Collected;
      CollectedPicks(p, 0);
      CollectedPicks(q, i);
      assert Without(p, 0) == p[1..];
      CollectedForgetsOrder(p[1..], Without(q, i));
    }
  }

  /** A quantized weight survives the trip through integer thousandths. */
  lemma QuantizedReturns(weight: real)
    ensures Quantize(Quantize(weight)) == Quantize(weight)
    ensures Round(Quantize(weight) * WEIGHT_SCALE) as real / WEIGHT_SCALE == Quantize(weight)
  {
    var n := Round(weight * WEIGHT_SCALE);
    assert Quantize(weight) * WEIGHT_SCALE == n as real;
  }

  ghost predicate Quantized(edges: seq<Edge>) {
    forall e :: e in edges ==> e.weight == Quantize(e.weight)
  }

  lemma {:induction false} CollectedIsQuantized(blocks: seq<Block>)
    ensures Quantized(Collected(blocks))
  {
    if blocks != [] {
      CollectedIsQuantized(blocks[..|blocks| - 1]);
      var b := blocks[|blocks| - 1];
      forall e | e in EdgesFrom(b.id, b.edges)
        ensures e.weight == Quantize(e.weight)
      {
        var i :| 0 <= i < |b.edges| && e == EdgeFrom(b.id, b.edges[i]);
        QuantizedReturns(b.edges[i].weight);
      }
    }
  }

  /** Reading back the rows of quantized edges gives the edges. */
  lemma EdgesReturn(edges: seq<Edge>)
    requires Quantized(edges)
    ensures Edges(Rows(edges)) == edges
  {
    forall i | 0 <= i < |edges|
      ensures EdgeOf(RowOf(edges[i])) == edges[i]
    {
      assert edges[i] in edges;
      QuantizedReturns(edges[i].weight);
    }
  }

  lemma RowsReturn(rows: seq<Row>)
    ensures Rows(Edges(rows)) == rows
  {
    forall i | 0 <= i < |rows|
      ensures RowOf(EdgeOf(rows[i])) == rows[i]
    {
      assert rows[i].thousandths as real / WEIGHT_SCALE * WEIGHT_SCALE == rows[i].thousandths as real;
    }
  }

  lemma {:induction false} EdgesPermute(s: seq<Row>, t: seq<Row>)
    requires multiset(s) == multiset(t)
    ensures multiset(Edges(s)) == multiset(Edges(t))
    decreases |s|
  {
    assert |multiset(s)| == |multiset(t)|;
    if s != [] {
      var i := FindHead(s, t);
      EdgesPermute(s[1..], Without(t, i));
      SplitHead(Edges(s));
      PicksOut(Edges(t), i);
      assert Edges(s)[1..] == Edges(s[1..]);
      assert Without(Edges(t), i) == Edges(Without(t, i));
    }
  }

  /** What is loaded from a dump is the bag of edges that was dumped. */
  lemma LoadRestoresEdges(table: seq<string>, edges: seq<Edge>)
    requires Quantized(edges)
    ensures multiset(Edges(DumpOf(table, edges).edges)) == multiset(edges)
  {
    SortPermutes(RowLeq, Rows(edges));
    EdgesPermute(Sort(RowLeq, Rows(edges)), Rows(edges));
    EdgesReturn(edges);
  }

  /** Dumping what was loaded from a dump gives the same dump, for every graph. */
  lemma DumpOfLoadIsDump(table: seq<string>, edges: seq<Edge>)
    requires Quantized(edges)
    ensures DumpOf(table, Edges(DumpOf(table, edges).edges)) == DumpOf(table, edges)
  {
    var rows := Sort(RowLeq, Rows(edges));
    LoadRestoresEdges(table, edges);
    NodesForgetOrder(table, Edges(rows), edges);
    RowsReturn(rows);
    RowsCompare();
    SortSorts(RowLeq, Rows(edges));
    SortOfSorted(RowLeq, rows);
  }

  // ---- Labels follow rows ------------------------------------------------------------

  function Labels(rows: seq<Row>): (labels: seq<Label>)
    ensures |labels| == |rows| && forall i :: 0 <= i < |rows| ==> labels[i] == LabelOf(EdgeOf(rows[i]))
  {
    seq(|rows|, i requires 0 <= i < |rows| => LabelOf(EdgeOf(rows[i])))
  }

  lemma LabelTiesAsRow(e: Edge, s: string, t: string, l: Label)
    requires e.weight == Quantize(e.weight) && l.weight == Quantize(l.weight)
    ensures LabelOf(EdgeOf(RowOf(e))) == LabelOf(e)
    ensures Tied(RowLeq, RowOf(Edge(s, t, l.kind, l.relation, l.weight)), RowOf(e))
       <==> e.source == s && e.target == t && Tied(LabelLeq, l, LabelOf(e))
  {
    hide StringLeq;
    QuantizedReturns(e.weight);
    QuantizedReturns(l.weight);
    RowsTieOnNothing(RowOf(Edge(s, t, l.kind, l.relation, l.weight)), RowOf(e));
    if Tied(LabelLeq, l, LabelOf(e)) { TiedLabels(l, LabelOf(e)); }
  }

  lemma TiedLabels(l: Label, m: Label)
    requires Tied(LabelLeq, l, m)
    ensures l.kind == m.kind && Bare(l.relation) == Bare(m.relation) && l.weight == m.weight
  {
    if l.kind != m.kind { StringAntisymmetric(l.kind, m.kind); }
    if Bare(l.relation) != Bare(m.relation) { StringAntisymmetric(Bare(l.relation), Bare(m.relation)); }
  }

  lemma LabelsAppend(p: seq<Row>, q: seq<Row>)
    ensures Labels(p + q) == Labels(p) + Labels(q)
  {
  }

  lemma BetweenAppends(edges: seq<Edge>, e: Edge, s: string, t: string)
    ensures Between(edges + [e], s, t) == Between(edges, s, t) + Between([e], s, t)
  {
    assert (edges + [e])[..|edges|] == edges && [e][..0] == [];
    assert Between([e], s, t) == if e.source == s && e.target == t then [LabelOf(e)] else [];
  }

  lemma TiesOfLabel(e: Edge, s: string, t: string, l: Label)
    requires e.weight == Quantize(e.weight) && l.weight == Quantize(l.weight)
    ensures Ties(LabelLeq, l, Between([e], s, t))
         == Labels(Ties(RowLeq, RowOf(Edge(s, t, l.kind, l.relation, l.weight)), Rows([e])))
  {
    LabelTiesAsRow(e, s, t, l);
    hide RowLeq, LabelLeq, Quantize, RowOf;
    assert Rows([e]) == [RowOf(e)] && [e][..0] == [];
    assert Between([e], s, t) == if e.source == s && e.target == t then [LabelOf(e)] else [];
    TiesUnfold(RowLeq, RowOf(Edge(s, t, l.kind, l.relation, l.weight)), RowOf(e), []);
    TiesUnfold(LabelLeq, l, LabelOf(e), []);
    assert [RowOf(e)] + [] == [RowOf(e)] && [LabelOf(e)] + [] == [LabelOf(e)];
  }

  /** The labels that tie between two nodes are those of the rows that tie, in the same order. */
  lemma {:induction false} TiesOfLabels(edges: seq<Edge>, s: string, t: string, l: Label)
    requires Quantized(edges) && l.weight == Quantize(l.weight)
    ensures Ties(LabelLeq, l, Between(edges, s, t))
         == Labels(Ties(RowLeq, RowOf(Edge(s, t, l.kind, l.relation, l.weight)), Rows(edges)))
    decreases |edges|
  {
    if edges != [] {
      var r := RowOf(Edge(s, t, l.kind, l.relation, l.weight));
      var init, e := edges[..|edges| - 1], edges[|edges| - 1];
      assert e in edges && Quantized(init);
      TiesOfLabels(init, s, t, l);
      TiesOfLabel(e, s, t, l);
      RowsAppend(init, [e]);
      assert edges == init + [e];
      BetweenAppends(init, e, s, t);
      LabelsAppend(Ties(RowLeq, r, Rows(init)), Ties(RowLeq, r, Rows([e])));
      hide RowLeq, LabelLeq, Quantize, RowOf, Ties, Between, Labels, Rows;
      TiesAppend(RowLeq, r, Rows(init), Rows([e]));
      TiesAppend(LabelLeq, l, Between(init, s, t), Between([e], s, t));
    }
  }

  /** Rows that agree on ties have labels that come out of the sort alike. */
  lemma RowsDecideLabels(p: seq<Edge>, q: seq<Edge>)
    requires Quantized(p) && Quantized(q) && TieAlike(RowLeq, Rows(p), Rows(q))
    ensures LabelAlike(p, q)
  {
    hide Between, Quantize, Ties, Sort, LabelLeq, RowLeq;
    LabelsCompare();
    forall s, t
      ensures Sort(LabelLeq, Between(p, s, t)) == Sort(LabelLeq, Between(q, s, t))
    {
      forall l
        ensures Ties(LabelLeq, l, Between(p, s, t)) == Ties(LabelLeq, l, Between(q, s, t))
      {
        if l.weight == Quantize(l.weight) {
          TiesOfLabels(p, s, t, l);
          TiesOfLabels(q, s, t, l);
        } else {
          UnquantizedTiesNothing(p, s, t, l);
          UnquantizedTiesNothing(q, s, t, l);
        }
      }
      SortsAlikeIff(LabelLeq, Between(p, s, t), Between(q, s, t));
    }
  }

  lemma UnquantizedTiesNothing(edges: seq<Edge>, s: string, t: string, l: Label)
    requires Quantized(edges) && l.weight != Quantize(l.weight)
    ensures Ties(LabelLeq, l, Between(edges, s, t)) == []
  {
    forall m | m in Between(edges, s, t)
      ensures !Tied(LabelLeq, l, m)
    {
      BetweenHolds(edges, s, t, m);
      if Tied(LabelLeq, l, m) { TiedLabels(l, m); }
    }
    TiesOfNone(LabelLeq, l, Between(edges, s, t));
  }

  /** What is loaded from a dump agrees on ties with what was dumped. */
  lemma LoadTiesAlike(table: seq<string>, edges: seq<Edge>)
    ensures TieAlike(RowLeq, Rows(Edges(DumpOf(table, edges).edges)), Rows(edges))
  {
    RowsCompare();
    RowsReturn(Sort(RowLeq, Rows(edges)));
    forall a
      ensures Ties(RowLeq, a, Sort(RowLeq, Rows(edges))) == Ties(RowLeq, a, Rows(edges))
    {
      SortIsStable(RowLeq, a, Rows(edges));
    }
  }

  // ---- Direction -------------------------------------------------------------------

  function Flip(e: Edge): Edge {
    e.(source := e.target, target := e.source)
  }

  function Reversed(edges: seq<Edge>): (flipped: seq<Edge>)
    ensures |flipped| == |edges| && forall i :: 0 <= i < |edges| ==> flipped[i] == Flip(edges[i])
  {
    seq(|edges|, i requires 0 <= i < |edges| => Flip(edges[i]))
  }

  lemma ArcFlips(edges: seq<Edge>, q: Query, a: Arc<string>)
    requires a in Arcs(edges, q)
    ensures a in Arcs(Reversed(edges), q.(inbound := !q.inbound))
  {
    var e :| e in edges && Follows(q, e.kind, e.relation) && Orient(e, q) == a;
    var i :| 0 <= i < |edges| && edges[i] == e;
    assert Reversed(edges)[i] == Flip(e);
    assert Orient(Flip(e), q.(inbound := !q.inbound)) == a;
  }

  /** An inbound traversal is an outbound traversal of the reversed graph. */
  lemma InboundIsReversed(edges: seq<Edge>, q: Query)
    ensures Arcs(edges, q) == Arcs(Reversed(edges), q.(inbound := !q.inbound))
  {
    hide Arcs;
    var flipped, other := Reversed(edges), q.(inbound := !q.inbound);
    assert Reversed(flipped) == edges && other.(inbound := !other.inbound) == q;
    forall a | a in Arcs(edges, q)
      ensures a in Arcs(flipped, other)
    {
      ArcFlips(edges, q, a);
    }
    forall a | a in Arcs(flipped, other)
      ensures a in Arcs(edges, q)
    {
      ArcFlips(flipped, other, a);
    }
  }

  // ---- Seeds the module does not know ------------------------------------------------

  lemma {:induction false} IdleSeeds(arcs: iset<Arc<string>>, s: set<string>, t: set<string>, path: seq<Arc<string>>)
    requires forall a :: a in arcs ==> (a.from in s <==> a.from in t)
    ensures IsWalk(arcs, s, path) <==> IsWalk(arcs, t, path)
    decreases |path|
  {
    if |path| > 1 {
      IdleSeeds(arcs, s, t, Init(path));
    }
  }

  /** A seed no arc leaves makes no difference. */
  lemma IdleSeedsDoNotMatter(
    arcs: iset<Arc<string>>, s: set<string>, t: set<string>, depth: nat, best: map<string, (real, nat)>)
    requires forall a :: a in arcs ==> (a.from in s <==> a.from in t)
    ensures Reported(arcs, s, depth, best) ==> Reported(arcs, t, depth, best)
    ensures Exact(arcs, s, depth, best) ==> Exact(arcs, t, depth, best)
  {
    forall path
      ensures IsWalk(arcs, s, path) <==> IsWalk(arcs, t, path)
    {
      IdleSeeds(arcs, s, t, path);
    }
    hide IsWalk;
    forall d: nat, v, path
      ensures WalksTo(arcs, s, d, v, path) <==> WalksTo(arcs, t, d, v, path)
    {
    }
    hide WalksTo, Score;
    forall e: Entry<string> | e.depth >= 1
      ensures Attained(arcs, s, e) <==> Attained(arcs, t, e)
    {
    }
  }
}
