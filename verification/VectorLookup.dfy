/**
  Vector lookup: grouping chunk hits into blocks, over the whole space or over a pool that grows until enough blocks
  survive the mask.
*/
module VectorLookup {
  import opened Wrappers
  import opened Arithmetic
  import opened Ordering
  import opened Walks
  import opened Ranking

  const OVERSAMPLE := 4

  /** One embedded chunk: its block, the space it lives in, and its position in the block. */
  datatype Row = Row(block: string, space: string, position: nat)

  /** What one query sees: the rows, each row's dot product with the probe, and the mask over block ordinals. */
  datatype Probe = Probe(
    rows: map<nat, Row>,
    dot: map<nat, real>,
    space: string,
    ordinals: map<string, nat>,
    allow: Option<set<nat>>)
  {
    predicate Valid() {
      forall k :: k in rows ==> k in dot
    }

    predicate InSpace(k: nat) {
      k in rows && rows[k].space == space
    }

    predicate Allows(block: string) {
      allow.None? || (block in ordinals && ordinals[block] in allow.value)
    }

    function Score(k: nat): real
      requires k in dot
    {
      if dot[k] > 0.0 then dot[k] else 0.0
    }
  }

  /** `best` is the best score of each allowed block over a set of keys, and a chunk that attains it. */
  ghost predicate Collected(p: Probe, keys: set<nat>, best: Best)
    requires p.Valid()
  {
    && (forall b :: b in best ==> p.Allows(b) && exists k :: k in keys && Attains(p, k, b, best[b]))
    && (forall k :: k in keys && k in p.rows && p.Allows(p.rows[k].block) ==>
          p.rows[k].block in best && p.Score(k) <= best[p.rows[k].block].0)
  }

  ghost predicate Attains(p: Probe, k: nat, b: string, entry: (real, nat))
    requires p.Valid()
  {
    k in p.rows && p.rows[k].block == b && p.Score(k) == entry.0 && p.rows[k].position == entry.1
  }

  /** Every key of the query's space. */
  function Space(p: Probe): set<nat> {
    set k | k in p.rows && p.InSpace(k)
  }

  /** No key left out scores more than a key taken in. */
  ghost predicate Uppermost(p: Probe, keys: set<nat>)
    requires p.Valid()
  {
    keys <= Space(p) && forall j, k :: j in keys && k in Space(p) && k !in keys ==> p.dot[k] <= p.dot[j]
  }

  /** What the engine owes: the best `pool` keys of the space, without repetition, fewer only when there are no more. */
  ghost predicate TrueTop(p: Probe, pool: nat, keys: seq<nat>)
    requires p.Valid()
  {
    && Distinct(keys) && |keys| <= pool
    && Uppermost(p, Elements(keys))
    && (|keys| < pool ==> forall k :: k in Space(p) ==> k in keys)
  }

  // ---- Folding chunks into blocks ------------------------------------------------------

  /** One key of the loop in `collect`. */
  function Fold(p: Probe, best: Best, k: nat): Best
    requires p.Valid()
  {
    if k !in p.rows || !p.Allows(p.rows[k].block) then best
    else
      var row := p.rows[k];
      if row.block !in best || p.Score(k) > best[row.block].0 then best[row.block := (p.Score(k), row.position)]
      else best
  }

  lemma FoldCollects(p: Probe, keys: set<nat>, best: Best, k: nat)
    requires p.Valid() && Collected(p, keys, best)
    ensures Collected(p, keys + {k}, Fold(p, best, k))
  {
    var best' := Fold(p, best, k);
    forall b | b in best'
      ensures p.Allows(b) && exists j :: j in keys + {k} && Attains(p, j, b, best'[b])
    {
      if b in best && best'[b] == best[b] {
        var j :| j in keys && Attains(p, j, b, best[b]);
        assert j in keys + {k};
      } else {
        assert Attains(p, k, b, best'[b]);
      }
    }
  }

  /** Fold candidate chunks into their owning blocks. */
  method Collect(p: Probe, keys: seq<nat>, best: Best, ghost done: set<nat>) returns (best': Best)
    requires p.Valid() && Collected(p, done, best)
    ensures Collected(p, done + Elements(keys), best')
  {
    hide Collected, Fold;
    best' := best;
    assert done == done + Elements(keys[..0]);
    for i := 0 to |keys|
      invariant Collected(p, done + Elements(keys[..i]), best')
    {
      FoldCollects(p, done + Elements(keys[..i]), best', keys[i]);
      best' := Fold(p, best', keys[i]);
      assert (done + Elements(keys[..i])) + {keys[i]} == done + Elements(keys[..i + 1]);
    }
    assert keys[..|keys|] == keys;
  }

  // ---- The two paths --------------------------------------------------------------------

  /** Every key of the space, in whatever order the table yields its rows. */
  method KeysOfSpace(p: Probe) returns (keys: seq<nat>)
    ensures forall k :: k in keys <==> k in Space(p)
  {
    keys := [];
    var todo := Space(p);
    while todo != {}
      invariant todo <= Space(p)
      invariant forall k :: k in keys <==> k in Space(p) && k !in todo
      decreases |todo|
    {
      var k :| k in todo;
      keys := keys + [k];
      todo := todo - {k};
    }
  }

  method ExactPath(p: Probe) returns (best: Best)
    requires p.Valid()
    ensures Collected(p, Space(p), best)
  {
    var keys := KeysOfSpace(p);
    best := Collect(p, keys, map[], {});
    assert {} + Elements(keys) == Space(p);
  }

  function FilterFresh(keys: seq<nat>, seen: set<nat>): seq<nat> {
    if keys == [] then [] else
      var n := |keys| - 1;
      FilterFresh(keys[..n], seen) + (if keys[n] !in seen then [keys[n]] else [])
  }

  lemma {:induction false} FreshHolds(keys: seq<nat>, seen: set<nat>, k: nat)
    ensures k in FilterFresh(keys, seen) <==> k in keys && k !in seen
  {
    if keys != [] {
      var n := |keys| - 1;
      FreshHolds(keys[..n], seen, k);
      assert keys == keys[..n] + [keys[n]];
    }
  }

  /** Two sets from which nothing better was left out leave nothing better out together. */
  lemma UppermostJoin(p: Probe, a: set<nat>, b: set<nat>)
    requires p.Valid() && Uppermost(p, a) && Uppermost(p, b)
    ensures Uppermost(p, a + b)
  {
  }

  /** A pool as large as the table holds the whole space. */
  lemma FullPoolIsSpace(p: Probe, pool: nat, keys: seq<nat>)
    requires p.Valid() && TrueTop(p, pool, keys) && pool >= |p.rows|
    ensures Elements(keys) == Space(p)
  {
    var taken := Elements(keys);
    ElementsCount(keys);
    assert Space(p) <= p.rows.Keys;
    SubsetIsSmaller(Space(p), p.rows.Keys);
    if taken != Space(p) {
      assert taken < Space(p);
      StrictlySmaller(taken, Space(p));
    }
  }

  lemma StrictlySmaller(a: set<nat>, b: set<nat>)
    requires a < b
    ensures |a| < |b|
  {
    assert exists x :: x in b && x !in a;
    var x :| x in b && x !in a;
    SubsetIsSmaller(a, b - {x});
  }

  /**
    Grow the pool until enough blocks survive or the space is used up. The keys seen are uppermost, and they are the
    whole space unless enough blocks were found.
  */
  method PooledPath(p: Probe, limit: nat, engine: nat -> seq<nat>) returns (best: Best, ghost seen: set<nat>)
    requires p.Valid() && limit > 0 && forall pool: nat :: TrueTop(p, pool, engine(pool))
    ensures Collected(p, seen, best) && Uppermost(p, seen)
    ensures |best| >= limit || seen == Space(p)
  {
    hide Collected, Uppermost;
    best, seen := map[], {};
    NothingCollected(p);
    if |p.rows| == 0 {
      assert Space(p) == {};
      return;
    }
    var ceiling := |p.rows|;
    var pool := Min(ceiling, limit * OVERSAMPLE);
    var visited: set<nat> := {};
    while true
      invariant 0 < pool <= ceiling
      invariant visited == seen && Collected(p, seen, best) && Uppermost(p, seen)
      decreases ceiling - pool
    {
      var keys := engine(pool);
      assert TrueTop(p, pool, keys);
      var unseen := FilterFresh(keys, visited);
      forall k ensures k in unseen <==> k in keys && k !in visited { FreshHolds(keys, visited, k); }
      best := Collect(p, unseen, best, seen);
      UppermostJoin(p, seen, Elements(keys));
      assert seen + Elements(unseen) == seen + Elements(keys);
      seen := seen + Elements(keys);
      visited := visited + Elements(keys);
      if |best| >= limit {
        break;
      }
      if pool >= ceiling {
        FullPoolIsSpace(p, pool, keys);
        break;
      }
      if |keys| < pool {
        assert seen == Space(p);
        break;
      }
      pool := Min(ceiling, pool * 2);
    }
  }

  lemma NothingCollected(p: Probe)
    requires p.Valid()
    ensures Collected(p, {}, map[]) && Uppermost(p, {})
  {
  }

  // ---- What a lookup answers ------------------------------------------------------------

  ghost predicate Descends(results: seq<Entry<string>>) {
    forall i, j :: 0 <= i < j < |results| ==>
      results[i].node != results[j].node && results[j].score <= results[i].score
  }

  ghost predicate Truthful(results: seq<Entry<string>>, exact: Best) {
    forall r :: r in results ==> r.node in exact && exact[r.node].0 == r.score
  }

  ghost predicate Unsurpassed(results: seq<Entry<string>>, exact: Best) {
    forall b, r :: b in exact && r in results && b !in NodesOf(results) ==> exact[b].0 <= r.score
  }

  /** The best `limit` blocks: listed best first with their own scores, and no block left out scores more. */
  ghost predicate IsTop(results: seq<Entry<string>>, exact: Best, limit: nat) {
    && |results| == Min(limit, |exact|)
    && Descends(results) && Truthful(results, exact) && Unsurpassed(results, exact)
  }

  function NodesOf(results: seq<Entry<string>>): set<string> {
    set r | r in results :: r.node
  }

  lemma Witness(p: Probe, keys: set<nat>, best: Best, b: string) returns (k: nat)
    requires p.Valid() && Collected(p, keys, best) && b in best
    ensures k in keys && Attains(p, k, b, best[b]) && p.Allows(b)
  {
    k :| k in keys && Attains(p, k, b, best[b]);
  }

  lemma Bound(p: Probe, keys: set<nat>, best: Best, k: nat)
    requires p.Valid() && Collected(p, keys, best) && k in keys && k in p.rows && p.Allows(p.rows[k].block)
    ensures p.rows[k].block in best && p.Score(k) <= best[p.rows[k].block].0
  {
  }

  /** A block found among uppermost keys has its true score. */
  lemma FoundIsExact(p: Probe, seen: set<nat>, best: Best, exact: Best, b: string)
    requires p.Valid() && Uppermost(p, seen) && Collected(p, seen, best) && Collected(p, Space(p), exact) && b in best
    ensures b in exact && best[b].0 == exact[b].0
  {
    hide Collected;
    var k := Witness(p, seen, best, b);
    Bound(p, Space(p), exact, k);
    var m := Witness(p, Space(p), exact, b);
    if m in seen {
      Bound(p, seen, best, m);
    } else {
      assert p.dot[m] <= p.dot[k];
    }
  }

  /** A block not found scores no more than any found. */
  lemma MissedIsLower(p: Probe, seen: set<nat>, best: Best, exact: Best, b: string, c: string)
    requires p.Valid() && Uppermost(p, seen) && Collected(p, seen, best) && Collected(p, Space(p), exact)
    requires b in exact && b !in best && c in best
    ensures exact[b].0 <= best[c].0
  {
    hide Collected;
    var m := Witness(p, Space(p), exact, b);
    if m in seen {
      Bound(p, seen, best, m);
    }
    var k := Witness(p, seen, best, c);
    assert p.dot[m] <= p.dot[k];
  }

  /** Fewer blocks were found than exist, unless the whole space was seen. */
  lemma CountBlocks(p: Probe, seen: set<nat>, best: Best, exact: Best)
    requires p.Valid() && Uppermost(p, seen) && Collected(p, seen, best) && Collected(p, Space(p), exact)
    ensures |best| <= |exact|
    ensures seen == Space(p) ==> |best| == |exact|
  {
    hide Collected, Uppermost;
    forall b | b in best
      ensures b in exact
    {
      FoundIsExact(p, seen, best, exact, b);
    }
    assert best.Keys <= exact.Keys;
    SubsetIsSmaller(best.Keys, exact.Keys);
    if seen == Space(p) {
      forall b | b in exact
        ensures b in best
      {
        FoundIsExact(p, seen, exact, best, b);
      }
      assert best.Keys == exact.Keys;
    }
  }

  lemma ListingCounts(ranked: seq<Entry<string>>, best: Best)
    requires IsListing(ranked, best, {})
    ensures |ranked| == |best|
    ensures Descends(ranked)
  {
    forall i, j | 0 <= i < j < |ranked|
      ensures ranked[i].node != ranked[j].node && ranked[j].score <= ranked[i].score
    {
      DistinctIndices(ranked, i, j);
      SortedPair(Better, ranked, i, j);
      assert ranked[i] in ranked && ranked[j] in ranked;
    }
    NodesCount(ranked);
    assert NodesOf(ranked) == best.Keys by {
      forall b | b in best.Keys
        ensures b in NodesOf(ranked)
      {
        assert Entry(b, best[b].0, best[b].1) in ranked;
      }
    }
  }

  lemma NodesGrow(ranked: seq<Entry<string>>, e: Entry<string>)
    ensures NodesOf(ranked + [e]) == NodesOf(ranked) + {e.node}
  {
    assert e in ranked + [e];
    assert forall r :: r in ranked + [e] <==> r in ranked || r == e;
  }

  lemma LastIsNew(ranked: seq<Entry<string>>, last: Entry<string>)
    requires Descends(ranked + [last])
    ensures last.node !in NodesOf(ranked)
  {
    var whole := ranked + [last];
    forall r | r in ranked
      ensures r.node != last.node
    {
      var i :| 0 <= i < |ranked| && ranked[i] == r;
      assert whole[i] == r && whole[|ranked|] == last;
    }
  }

  lemma DescendsBefore(ranked: seq<Entry<string>>, last: Entry<string>)
    requires Descends(ranked + [last])
    ensures Descends(ranked)
  {
    var whole := ranked + [last];
    forall i, j | 0 <= i < j < |ranked|
      ensures ranked[i].node != ranked[j].node && ranked[j].score <= ranked[i].score
    {
      assert whole[i] == ranked[i] && whole[j] == ranked[j];
    }
  }

  lemma {:induction false} NodesCount(ranked: seq<Entry<string>>)
    requires Descends(ranked)
    ensures |NodesOf(ranked)| == |ranked|
    decreases |ranked|
  {
    if ranked == [] {
      assert NodesOf(ranked) == {};
    } else {
      hide Descends, NodesOf;
      var init, last := ranked[..|ranked| - 1], ranked[|ranked| - 1];
      assert ranked == init + [last];
      DescendsBefore(init, last);
      NodesCount(init);
      NodesGrow(init, last);
      LastIsNew(init, last);
    }
  }

  lemma CutIsTruthful(p: Probe, seen: set<nat>, best: Best, exact: Best, ranked: seq<Entry<string>>, n: nat)
    requires p.Valid() && Uppermost(p, seen) && Collected(p, seen, best) && Collected(p, Space(p), exact)
    requires IsListing(ranked, best, {}) && n <= |ranked|
    ensures Truthful(ranked[..n], exact)
  {
    hide Collected, Uppermost, IsListing;
    forall r | r in ranked[..n]
      ensures r.node in exact && exact[r.node].0 == r.score
    {
      ListedIsBest(ranked, best, r);
      FoundIsExact(p, seen, best, exact, r.node);
    }
  }

  lemma CutIsUnsurpassed(p: Probe, seen: set<nat>, best: Best, exact: Best, ranked: seq<Entry<string>>, n: nat)
    requires p.Valid() && Uppermost(p, seen) && Collected(p, seen, best) && Collected(p, Space(p), exact)
    requires IsListing(ranked, best, {}) && n <= |ranked|
    ensures Unsurpassed(ranked[..n], exact)
  {
    hide Collected, Uppermost, IsListing, NodesOf;
    forall b, r | b in exact && r in ranked[..n] && b !in NodesOf(ranked[..n])
      ensures exact[b].0 <= r.score
    {
      ListedIsBest(ranked, best, r);
      if b in best {
        FoundIsExact(p, seen, best, exact, b);
        LeftOutIsLower(ranked, best, b, r, n);
      } else {
        MissedIsLower(p, seen, best, exact, b, r.node);
      }
    }
  }

  /** Cutting the listing of what was found to the limit gives the top of the exact answer. */
  lemma CutIsTop(p: Probe, seen: set<nat>, best: Best, exact: Best, ranked: seq<Entry<string>>, limit: nat)
    requires p.Valid() && Uppermost(p, seen) && Collected(p, seen, best) && Collected(p, Space(p), exact)
    requires |best| >= limit || seen == Space(p)
    requires IsListing(ranked, best, {})
    ensures IsTop(ranked[..Min(limit, |ranked|)], exact, limit)
  {
    hide Collected, Uppermost, IsListing, Truthful, Unsurpassed;
    ListingCounts(ranked, best);
    CountBlocks(p, seen, best, exact);
    CutIsTruthful(p, seen, best, exact, ranked, Min(limit, |ranked|));
    CutIsUnsurpassed(p, seen, best, exact, ranked, Min(limit, |ranked|));
  }

  lemma ListedIsBest(ranked: seq<Entry<string>>, best: Best, r: Entry<string>)
    requires IsListing(ranked, best, {}) && r in ranked
    ensures r.node in best && best[r.node].0 == r.score
  {
  }

  lemma LeftOutIsLower(ranked: seq<Entry<string>>, best: Best, b: string, r: Entry<string>, n: nat)
    requires IsListing(ranked, best, {}) && n <= |ranked| && r in ranked[..n] && b in best
    requires b !in NodesOf(ranked[..n])
    ensures best[b].0 <= r.score
  {
    var e := Entry(b, best[b].0, best[b].1);
    assert e in ranked && e !in ranked[..n] && ranked == ranked[..n] + ranked[n..];
    var j :| 0 <= j < |ranked[n..]| && ranked[n..][j] == e;
    var i :| 0 <= i < n && ranked[..n][i] == r;
    SortedPair(Better, ranked, i, n + j);
  }

  /** Two tops of the same answer have the same scores, place by place: only blocks that tie may differ. */
  lemma TopsScoreAlike(r: seq<Entry<string>>, s: seq<Entry<string>>, exact: Best, limit: nat, i: nat)
    requires IsTop(r, exact, limit) && IsTop(s, exact, limit)
    requires i < |r|
    ensures |r| == |s| && r[i].score == s[i].score
  {
    TopIsNoLower(r, s, exact, limit, i);
    TopIsNoLower(s, r, exact, limit, i);
  }

  /** A block that scores more than place `i` of a top is ahead of that place. */
  lemma HigherIsAhead(s: seq<Entry<string>>, exact: Best, limit: nat, i: nat, b: string)
    requires IsTop(s, exact, limit) && i < |s| && b in exact && exact[b].0 > s[i].score
    ensures b in NodesOf(s[..i])
  {
    assert s[i] in s;
    var y :| y in s && y.node == b;
    var k :| 0 <= k < |s| && s[k] == y;
    assert k < i && s[..i][k] == y;
  }

  lemma AheadIsHigher(r: seq<Entry<string>>, exact: Best, limit: nat, i: nat, b: string)
    requires IsTop(r, exact, limit) && i < |r| && b in NodesOf(r[..i + 1])
    ensures b in exact && exact[b].0 >= r[i].score
  {
    var x :| x in r[..i + 1] && x.node == b;
    var j :| 0 <= j < i + 1 && r[..i + 1][j] == x;
    assert r[j] in r && r[i].score <= x.score;
  }

  lemma TopNodesCount(r: seq<Entry<string>>, exact: Best, limit: nat, n: nat)
    requires IsTop(r, exact, limit) && n <= |r|
    ensures |NodesOf(r[..n])| == n
  {
    NodesCount(r[..n]);
  }

  lemma TopIsNoLower(r: seq<Entry<string>>, s: seq<Entry<string>>, exact: Best, limit: nat, i: nat)
    requires IsTop(r, exact, limit) && IsTop(s, exact, limit) && i < |r| == |s|
    ensures r[i].score <= s[i].score
  {
    hide IsTop, NodesOf;
    TopNodesCount(r, exact, limit, i + 1);
    TopNodesCount(s, exact, limit, i);
    if r[i].score > s[i].score {
      forall b | b in NodesOf(r[..i + 1])
        ensures b in NodesOf(s[..i])
      {
        AheadIsHigher(r, exact, limit, i, b);
        HigherIsAhead(s, exact, limit, i, b);
      }
      SubsetIsSmaller(NodesOf(r[..i + 1]), NodesOf(s[..i]));
    }
  }

  /**
    Look up the best blocks. Whichever path answers, the result is the top of the exact answer under the same mask, so
    fewer than `limit` blocks come back only when fewer allowed blocks exist.
  */
  method Lookup(p: Probe, limit: int, exactly: bool, engine: Option<nat -> seq<nat>>)
    returns (results: seq<Entry<string>>)
    requires p.Valid() && (engine.Some? ==> forall pool: nat :: TrueTop(p, pool, engine.value(pool)))
    ensures forall exact :: Collected(p, Space(p), exact) ==> IsTop(results, exact, if limit < 0 then 0 else limit)
  {
    hide Collected, Uppermost, IsTop, IsListing;
    if limit <= 0 || p.allow == Some({}) {
      results := [];
      forall exact | Collected(p, Space(p), exact)
        ensures IsTop(results, exact, if limit < 0 then 0 else limit)
      {
        NothingIsTop(p, exact, if limit < 0 then 0 else limit);
      }
      return;
    }
    var best: Best;
    ghost var seen;
    if exactly || engine.None? {
      best := ExactPath(p);
      seen := Space(p);
      SpaceIsUppermost(p);
    } else {
      best, seen := PooledPath(p, limit, engine.value);
    }
    var ranked := Rank(best, {});
    results := ranked[..Min(limit, |ranked|)];
    forall exact | Collected(p, Space(p), exact)
      ensures IsTop(results, exact, limit)
    {
      CutIsTop(p, seen, best, exact, ranked, limit);
    }
  }

  lemma SpaceIsUppermost(p: Probe)
    requires p.Valid()
    ensures Uppermost(p, Space(p))
  {
  }

  lemma NothingIsTop(p: Probe, exact: Best, limit: nat)
    requires p.Valid() && Collected(p, Space(p), exact) && (limit == 0 || p.allow == Some({}))
    ensures IsTop([], exact, limit)
  {
    if p.allow == Some({}) {
      assert forall b :: b !in exact;
      assert exact == map[];
    }
  }

  /** The row is a chunk of the block in the space of the query. */
  predicate ChunkOf(p: Probe, k: nat, b: string) {
    k in p.rows && p.rows[k].block == b && p.rows[k].space == p.space
  }

  predicate InMask(p: Probe, b: string) {
    p.allow.None? || (b in p.ordinals && p.ordinals[b] in p.allow.value)
  }

  /** The score is the largest similarity of any chunk of the block, or zero where none is positive. */
  ghost predicate BestSimilarity(p: Probe, b: string, score: real)
    requires p.Valid()
  {
    && score >= 0.0
    && (forall k :: ChunkOf(p, k, b) ==> p.dot[k] <= score)
    && (exists k :: ChunkOf(p, k, b) && (p.dot[k] == score || (score == 0.0 && p.dot[k] <= 0.0)))
  }

  /** The exact answer holds the blocks of the mask that have a chunk in the space, each with its best similarity. */
  lemma ExactAnswerIff(p: Probe, exact: Best, b: string)
    requires p.Valid() && Collected(p, Space(p), exact)
    ensures b in exact <==> InMask(p, b) && exists k :: ChunkOf(p, k, b)
    ensures b in exact ==> BestSimilarity(p, b, exact[b].0)
  {
    if b in exact {
      var k := Witness(p, Space(p), exact, b);
      assert ChunkOf(p, k, b) && p.Score(k) == exact[b].0;
    }
    forall k | ChunkOf(p, k, b) && InMask(p, b)
      ensures b in exact && p.dot[k] <= exact[b].0
    {
      assert k in Space(p) && p.Allows(b);
      Bound(p, Space(p), exact, k);
    }
  }

  // ---- When nothing is missing ----------------------------------------------------------------

  /** There always is an exact answer. */
  lemma {:induction false} CollectAll(p: Probe, keys: set<nat>) returns (best: Best)
    requires p.Valid()
    ensures Collected(p, keys, best)
  {
    hide Collected, Fold;
    best := map[];
    NothingCollected(p);
    if keys != {} {
      var k :| k in keys;
      var before := CollectAll(p, keys - {k});
      FoldCollects(p, keys - {k}, before, k);
      assert keys - {k} + {k} == keys;
      best := Fold(p, before, k);
    }
  }

  /** The results are every block that is allowed and has a chunk in the space, each with its best score. */
  ghost predicate Complete(p: Probe, results: seq<Entry<string>>)
    requires p.Valid()
  {
    exists exact :: Collected(p, Space(p), exact) && Lists(results, exact)
  }

  ghost predicate Lists(results: seq<Entry<string>>, exact: Best) {
    && (forall r :: r in results ==> r.node in exact && exact[r.node].0 == r.score)
    && (forall b :: b in exact ==> exists r :: r in results && r.node == b)
  }

  /** A top shorter than its limit is the whole answer. */
  lemma ShortTopIsWhole(results: seq<Entry<string>>, exact: Best, limit: nat)
    requires IsTop(results, exact, limit) && |results| < limit
    ensures Lists(results, exact)
  {
    TopNodesCount(results, exact, limit, |results|);
    assert results[..|results|] == results;
    var missing := exact.Keys - NodesOf(results);
    assert NodesOf(results) <= exact.Keys;
    assert |exact.Keys| == |NodesOf(results)| + |missing|;
    assert missing == {};
    forall b | b in exact
      ensures exists r :: r in results && r.node == b
    {
      assert b in NodesOf(results);
    }
  }

  /** One vector probe: the best blocks, and whether they are all there are. */
  method Search(p: Probe, limit: int, exactly: bool, engine: Option<nat -> seq<nat>>)
    returns (results: seq<Entry<string>>, exhausted: bool)
    requires p.Valid() && (engine.Some? ==> forall pool: nat :: TrueTop(p, pool, engine.value(pool)))
    ensures exhausted ==> Complete(p, results)
    ensures exhausted <==> |results| < limit
  {
    hide IsTop, Lists, Collected;
    results := Lookup(p, limit, exactly, engine);
    exhausted := |results| < limit;
    if exhausted {
      var exact := CollectAll(p, Space(p));
      ShortTopIsWhole(results, exact, limit);
    }
  }
}
