/**
  Walks in a graph of weighted arcs, and what it means for a search to have found the best of them.
*/
module Walks {

  datatype Arc<N> = Arc(from: N, to: N, factor: real)

  /** What a search recorded about a node: a score, and the number of hops of a walk that attains it. */
  datatype Entry<N> = Entry(node: N, score: real, depth: nat)

  function End<N>(path: seq<Arc<N>>): N
    requires path != []
  {
    path[|path| - 1].to
  }

  function Init<N>(path: seq<Arc<N>>): seq<Arc<N>>
    requires path != []
  {
    path[..|path| - 1]
  }

  /** A walk of at least one hop that starts at a seed. */
  ghost predicate IsWalk<N(!new)>(arcs: iset<Arc<N>>, seeds: set<N>, path: seq<Arc<N>>)
    decreases |path|
  {
    && path != []
    && path[|path| - 1] in arcs
    && if |path| == 1 then path[0].from in seeds
       else IsWalk(arcs, seeds, Init(path)) && End(Init(path)) == path[|path| - 1].from
  }

  /** What reaches the far end of an arc. */
  function Pass<N>(score: real, a: Arc<N>): real {
    score * a.factor
  }

  /** The product of the factors along the walk; a seed itself scores 1. */
  function Score<N>(path: seq<Arc<N>>): real
    decreases |path|
  {
    if path == [] then 1.0 else Pass(Score(Init(path)), path[|path| - 1])
  }

  ghost predicate WalksTo<N(!new)>(arcs: iset<Arc<N>>, seeds: set<N>, depth: nat, v: N, path: seq<Arc<N>>) {
    IsWalk(arcs, seeds, path) && |path| <= depth && End(path) == v
  }

  /** Some walk of exactly that many hops has exactly that score; at zero hops, the seed itself. */
  ghost predicate Attained<N(!new)>(arcs: iset<Arc<N>>, seeds: set<N>, e: Entry<N>) {
    if e.depth == 0 then e.node in seeds && e.score == 1.0
    else exists path :: WalksTo(arcs, seeds, e.depth, e.node, path) && |path| == e.depth && Score(path) == e.score
  }

  /** No walk of at most `depth` hops beats the score, and none that attains it is shorter. */
  ghost predicate Unbeaten<N(!new)>(arcs: iset<Arc<N>>, seeds: set<N>, depth: nat, e: Entry<N>) {
    forall path :: WalksTo(arcs, seeds, depth, e.node, path) ==>
      Score(path) <= e.score && (Score(path) == e.score ==> e.depth <= |path|)
  }

  /** `best` holds exactly the nodes a walk of 1 to `depth` hops reaches, with the best score and its least length. */
  ghost predicate Exact<N(!new)>(arcs: iset<Arc<N>>, seeds: set<N>, depth: nat, best: map<N, (real, nat)>) {
    && (forall v :: v in best ==>
          var e := Entry(v, best[v].0, best[v].1);
          1 <= e.depth <= depth && Attained(arcs, seeds, e) && Unbeaten(arcs, seeds, depth, e))
    && (forall path :: IsWalk(arcs, seeds, path) && |path| <= depth ==> End(path) in best)
  }

  /** There is only one such answer. */
  lemma ExactIsUnique<N(!new)>(
    arcs: iset<Arc<N>>, seeds: set<N>, depth: nat, a: map<N, (real, nat)>, b: map<N, (real, nat)>)
    requires Exact(arcs, seeds, depth, a) && Exact(arcs, seeds, depth, b)
    ensures a == b
  {
    forall v | v in a || v in b
      ensures v in a && v in b && a[v] == b[v]
    {
      if v in a { ExactDominates(arcs, seeds, depth, a, b, v); }
      if v in b { ExactDominates(arcs, seeds, depth, b, a, v); }
    }
  }

  lemma ExactDominates<N(!new)>(
    arcs: iset<Arc<N>>, seeds: set<N>, depth: nat, a: map<N, (real, nat)>, b: map<N, (real, nat)>, v: N)
    requires Exact(arcs, seeds, depth, a) && Exact(arcs, seeds, depth, b) && v in a
    ensures v in b && b[v].0 >= a[v].0 && (b[v].0 == a[v].0 ==> b[v].1 <= a[v].1)
  {
    var e := Entry(v, a[v].0, a[v].1);
    assert Attained(arcs, seeds, e);
    var path :| WalksTo(arcs, seeds, e.depth, v, path) && |path| == e.depth && Score(path) == e.score;
    assert WalksTo(arcs, seeds, depth, v, path);
  }

  // ---- Relaxation ------------------------------------------------------------

  /** Some recorded entry at `v` is at least as good and has at least as many hops to spare. */
  ghost predicate Covered<N(!new)>(pushed: set<Entry<N>>, v: N, score: real, depth: nat) {
    exists e :: e in pushed && e.node == v && e.score >= score && 1 <= e.depth <= depth
  }

  ghost predicate Relaxed<N(!new)>(arcs: iset<Arc<N>>, pushed: set<Entry<N>>, e: Entry<N>) {
    forall a :: a in arcs && a.from == e.node ==> Covered(pushed, a.to, e.score * a.factor, e.depth + 1)
  }

  ghost predicate Sound<N(!new)>(arcs: iset<Arc<N>>, seeds: set<N>, depth: nat, pushed: set<Entry<N>>) {
    forall e :: e in pushed ==> e.depth <= depth && Attained(arcs, seeds, e)
  }

  /** `best` keeps the last, and therefore the best, entry recorded at each node. */
  ghost predicate Tracks<N(!new)>(best: map<N, (real, nat)>, pushed: set<Entry<N>>) {
    && (forall v :: v in best ==> best[v].1 >= 1 && Entry(v, best[v].0, best[v].1) in pushed)
    && (forall e :: e in pushed && e.depth >= 1 ==>
          e.node in best && (e.score < best[e.node].0 || (e.score == best[e.node].0 && e.depth == best[e.node].1)))
  }

  ghost predicate NonNegative<N(!new)>(arcs: iset<Arc<N>>) {
    forall a :: a in arcs ==> a.factor >= 0.0
  }

  lemma Scale(a: real, b: real, factor: real)
    requires a >= b && factor >= 0.0
    ensures a * factor >= b * factor
  {
  }

  lemma ScoreOfOneMore<N>(path: seq<Arc<N>>, a: Arc<N>)
    ensures Init(path + [a]) == path && Score(path + [a]) == Score(path) * a.factor
  {
    assert Init(path + [a]) == path;
  }

  lemma WalkOfOneMore<N(!new)>(arcs: iset<Arc<N>>, seeds: set<N>, path: seq<Arc<N>>, a: Arc<N>)
    requires a in arcs
    requires if path == [] then a.from in seeds else IsWalk(arcs, seeds, path) && End(path) == a.from
    ensures IsWalk(arcs, seeds, path + [a]) && End(path + [a]) == a.to
  {
    assert Init(path + [a]) == path;
  }

  /** One more hop from where an entry stands. */
  lemma AttainedExtends<N(!new)>(arcs: iset<Arc<N>>, seeds: set<N>, e: Entry<N>, a: Arc<N>)
    requires Attained(arcs, seeds, e) && a in arcs && a.from == e.node
    ensures Attained(arcs, seeds, Entry(a.to, e.score * a.factor, e.depth + 1))
  {
    ghost var path: seq<Arc<N>> := [];
    if e.depth > 0 {
      path :| WalksTo(arcs, seeds, e.depth, e.node, path) && |path| == e.depth && Score(path) == e.score;
    }
    WalkOfOneMore(arcs, seeds, path, a);
    ScoreOfOneMore(path, a);
    AttainedBy(arcs, seeds, path + [a], Entry(a.to, e.score * a.factor, e.depth + 1));
  }

  lemma AttainedBy<N(!new)>(arcs: iset<Arc<N>>, seeds: set<N>, path: seq<Arc<N>>, e: Entry<N>)
    requires IsWalk(arcs, seeds, path) && End(path) == e.node && |path| == e.depth && Score(path) == e.score
    ensures Attained(arcs, seeds, e)
  {
    assert WalksTo(arcs, seeds, e.depth, e.node, path);
  }

  /** Every walk is dominated by a recorded entry, once every entry with a hop to spare has been relaxed. */
  lemma {:induction false} WalksAreCovered<N(!new)>(
    arcs: iset<Arc<N>>, seeds: set<N>, depth: nat, pushed: set<Entry<N>>, path: seq<Arc<N>>)
    requires NonNegative(arcs)
    requires forall s :: s in seeds ==> Entry(s, 1.0, 0) in pushed
    requires forall e :: e in pushed && e.depth < depth ==> Relaxed(arcs, pushed, e)
    requires IsWalk(arcs, seeds, path) && |path| <= depth
    ensures Covered(pushed, End(path), Score(path), |path|)
    decreases |path|
  {
    var a := path[|path| - 1];
    var e := Entry(a.from, 1.0, 0);
    if |path| > 1 {
      WalksAreCovered(arcs, seeds, depth, pushed, Init(path));
      e :| e in pushed && e.node == a.from && e.score >= Score(Init(path)) && 1 <= e.depth <= |path| - 1;
    } else {
      assert Init(path) == [];
    }
    assert Relaxed(arcs, pushed, e);
    Scale(e.score, Score(Init(path)), a.factor);
    var f :| f in pushed && f.node == a.to && f.score >= e.score * a.factor && 1 <= f.depth <= e.depth + 1;
    assert f.score >= Score(path);
  }

  /** A search that has relaxed everything it recorded is exact. */
  lemma SearchIsExact<N(!new)>(
    arcs: iset<Arc<N>>, seeds: set<N>, depth: nat, pushed: set<Entry<N>>, best: map<N, (real, nat)>)
    requires NonNegative(arcs) && Sound(arcs, seeds, depth, pushed) && Tracks(best, pushed)
    requires forall s :: s in seeds ==> Entry(s, 1.0, 0) in pushed
    requires forall e :: e in pushed && e.depth < depth ==> Relaxed(arcs, pushed, e)
    ensures Exact(arcs, seeds, depth, best)
  {
    forall path | IsWalk(arcs, seeds, path) && |path| <= depth
      ensures
        var v := End(path);
        v in best && Score(path) <= best[v].0 && (Score(path) == best[v].0 ==> best[v].1 <= |path|)
    {
      WalksAreCovered(arcs, seeds, depth, pushed, path);
      var e :| e in pushed && e.node == End(path) && e.score >= Score(path) && 1 <= e.depth <= |path|;
    }
    forall v | v in best
      ensures Attained(arcs, seeds, Entry(v, best[v].0, best[v].1)) && best[v].1 <= depth
    {
      assert Entry(v, best[v].0, best[v].1) in pushed;
    }
  }
}
