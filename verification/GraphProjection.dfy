/** What a build makes of the edges its blocks project: each is carried, to within half a thousandth, and no other. */
module GraphProjection {
  import opened Arithmetic
  import opened Walks
  import opened GraphSearch
  import opened GraphBody

  // ---- Rounding ------------------------------------------------------------------------------

  /** Rounding goes to a nearest integer; half way between two, to the even one. */
  lemma RoundIsNearest(x: real)
    ensures -0.5 <= Round(x) as real - x <= 0.5
    ensures Round(x) as real - x == 0.5 || Round(x) as real - x == -0.5 ==> Round(x) % 2 == 0
    ensures x == x.Floor as real ==> Round(x) as real == x
  {
  }

  predicate WholeThousandths(weight: real) {
    (weight * WEIGHT_SCALE).Floor as real == weight * WEIGHT_SCALE
  }

  /** A quantized weight is within half a thousandth, and is the weight itself if that is whole thousandths. */
  lemma QuantizedIsNear(weight: real)
    ensures -0.0005 <= Quantize(weight) - weight <= 0.0005
    ensures WholeThousandths(weight) ==> Quantize(weight) == weight
  {
    RoundIsNearest(weight * WEIGHT_SCALE);
    hide Round;
    assert weight * WEIGHT_SCALE / WEIGHT_SCALE == weight;
  }

  // ---- The edges of a build --------------------------------------------------------------------

  lemma {:induction false} CollectedIff(blocks: seq<Block>, e: Edge)
    ensures e in Collected(blocks) <==> exists b, p :: b in blocks && p in b.edges && e == EdgeFrom(b.id, p)
  {
    if blocks != [] {
      var n := |blocks| - 1;
      CollectedIff(blocks[..n], e);
      EdgesFromIff(blocks[n].id, blocks[n].edges, e);
      hide EdgesFrom, EdgeFrom;
      assert blocks == blocks[..n] + [blocks[n]];
      assert forall b :: b in blocks <==> b in blocks[..n] || b == blocks[n];
    }
  }

  lemma EdgesFromIff(id: string, ps: seq<Projected>, e: Edge)
    ensures e in EdgesFrom(id, ps) <==> exists p :: p in ps && e == EdgeFrom(id, p)
  {
    if e in EdgesFrom(id, ps) {
      var i :| 0 <= i < |ps| && EdgesFrom(id, ps)[i] == e;
      assert ps[i] in ps;
    }
    if p :| p in ps && e == EdgeFrom(id, p) {
      var i :| 0 <= i < |ps| && ps[i] == p;
      assert EdgesFrom(id, ps)[i] == e;
    }
  }

  // ---- The arcs of a build ------------------------------------------------------------------------

  /** What a query asks of an edge: one of its kinds, if it names any, and one of its predicates, if it names any. */
  predicate Asked(q: Query, p: Projected) {
    && (q.kinds != {} ==> p.kind in q.kinds)
    && (q.predicates != {} ==> p.relation.Some? && p.relation.value in q.predicates)
  }

  /**
    The arc carries the projected edge: between its block and its target, in the query's direction, and multiplying by
    its weight times the decay, to within half a thousandth of the weight and exactly for whole thousandths.
  */
  predicate Carries(a: Arc<string>, q: Query, id: string, p: Projected) {
    && a.from == (if q.inbound then p.target else id)
    && a.to == (if q.inbound then id else p.target)
    && Near(a.factor, p.weight * q.decay, 0.0005 * q.decay)
    && (WholeThousandths(p.weight) ==> a.factor == p.weight * q.decay)
  }

  predicate Near(x: real, y: real, bound: real) {
    x - y <= bound && y - x <= bound
  }

  lemma ArcCarries(q: Query, id: string, p: Projected)
    requires q.decay >= 0.0
    ensures Carries(Orient(EdgeFrom(id, p), q), q, id, p)
    ensures Follows(q, p.kind, p.relation) <==> Asked(q, p)
  {
    QuantizedIsNear(p.weight);
    var w := Quantize(p.weight);
    NearFactor(p.weight, w, q.decay);
    hide Quantize, WholeThousandths, Near;
    var a := Orient(EdgeFrom(id, p), q);
    assert a.factor == w * q.decay;
    assert Near(a.factor, p.weight * q.decay, 0.0005 * q.decay);
    if WholeThousandths(p.weight) { assert w == p.weight; assert a.factor == p.weight * q.decay; }
    assert a.from == (if q.inbound then p.target else id);
  }

  lemma NearFactor(weight: real, w: real, decay: real)
    requires -0.0005 <= w - weight <= 0.0005 && decay >= 0.0
    ensures Near(w * decay, weight * decay, 0.0005 * decay)
  {
    assert w * decay - weight * decay == (w - weight) * decay;
    assert weight * decay - w * decay == (weight - w) * decay;
    TimesKeepsOrder(w - weight, 0.0005, decay);
    TimesKeepsOrder(weight - w, 0.0005, decay);
  }

  /** Every edge a block projects and a query asks for is carried by an arc, and every arc carries one. */
  lemma BuildCarriesItsBlocks(blocks: seq<Block>, q: Query)
    requires q.decay >= 0.0
    ensures forall b, p :: b in blocks && p in b.edges && Asked(q, p) ==>
      exists a :: a in Arcs(Collected(blocks), q) && Carries(a, q, b.id, p)
    ensures forall a :: a in Arcs(Collected(blocks), q) ==>
      exists b, p :: b in blocks && p in b.edges && Asked(q, p) && Carries(a, q, b.id, p)
  {
    hide Follows, Asked, Carries, Collected, EdgeFrom;
    forall b, p | b in blocks && p in b.edges && Asked(q, p)
      ensures exists a :: a in Arcs(Collected(blocks), q) && Carries(a, q, b.id, p)
    {
      var e := EdgeFrom(b.id, p);
      CollectedIff(blocks, e);
      ArcCarries(q, b.id, p);
      FromProjected(b.id, p);
      assert Orient(e, q) in Arcs(Collected(blocks), q);
    }
    forall a | a in Arcs(Collected(blocks), q)
      ensures exists b, p :: b in blocks && p in b.edges && Asked(q, p) && Carries(a, q, b.id, p)
    {
      var e :| e in Collected(blocks) && Follows(q, e.kind, e.relation) && Orient(e, q) == a;
      CollectedIff(blocks, e);
      var b, p :| b in blocks && p in b.edges && e == EdgeFrom(b.id, p);
      ArcCarries(q, b.id, p);
      FromProjected(b.id, p);
    }
  }

  lemma FromProjected(id: string, p: Projected)
    ensures EdgeFrom(id, p).kind == p.kind && EdgeFrom(id, p).relation == p.relation
  {
  }
}
