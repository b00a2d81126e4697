/**
  When two traversals of one graph agree on depths too: exactly when no walk of one hop more can score higher.
*/
module DepthAgreement {
  import opened Wrappers
  import opened Arithmetic
  import opened Walks
  import opened Ordering
  import opened Ranking
  import opened GraphSearch
  import opened GraphIndex
  import opened FederatedGraph

  /** Every hop multiplies a score by something between `lo` and `hi`. */
  ghost predicate Between(arcs: iset<Arc<string>>, lo: real, hi: real) {
    forall a :: a in arcs ==> lo <= a.factor <= hi
  }

  /** The weakest walk scores no less than the strongest of one hop more, for every length that matters. */
  ghost predicate Steep(lo: real, hi: real, depth: nat) {
    forall n: nat :: 1 <= n < depth ==> Power(lo, n) >= Power(hi, n + 1)
  }

  /** The best walk to a node is also among its shortest, and both traversals say so. */
  ghost predicate SameDepth(exact: Best, best: Best, v: string) {
    v in exact && v in best && best[v] == exact[v]
  }

  /** On every graph and for every query whose hops have such factors, the two answers are the same. */
  ghost predicate AlwaysAgree(lo: real, hi: real, depth: nat) {
    forall edges, q: Query, exact: Best, best: Best, v ::
      q.depth == depth && Between(Arcs(edges, q), lo, hi) &&
      Exact(Arcs(edges, q), SeedSet(q), depth, exact) && Federated(Arcs(edges, q), SeedSet(q), depth, best) &&
      v in exact && v !in SeedSet(q) ==>
        SameDepth(exact, best, v)
  }

  lemma Multiply(x: real, a: real, b: real)
    requires 0.0 <= x && a <= b
    ensures x * a <= x * b
  {
  }

  lemma PassIsBetween(x: real, a: Arc<string>, lo: real, hi: real, low: real, high: real)
    requires 0.0 < lo <= a.factor <= hi && 0.0 < low <= x <= high
    ensures lo * low <= Pass(x, a) <= hi * high
  {
    Multiply(x, a.factor, hi);
    Multiply(hi, x, high);
    Multiply(a.factor, low, x);
    Multiply(low, lo, a.factor);
  }

  lemma {:induction false} ScoreIsBetween(
    arcs: iset<Arc<string>>, seeds: set<string>, path: seq<Arc<string>>, lo: real, hi: real)
    requires IsWalk(arcs, seeds, path) && Between(arcs, lo, hi) && 0.0 < lo <= hi
    ensures Power(lo, |path|) <= Score(path) <= Power(hi, |path|)
    decreases |path|
  {
    hide Pass;
    var k := |path| - 1;
    if k == 0 {
      assert Init(path) == [] && Power(lo, 0) == 1.0 && Power(hi, 0) == 1.0;
    } else {
      ScoreIsBetween(arcs, seeds, Init(path), lo, hi);
    }
    PowerIsPositive(lo, k);
    PassIsBetween(Score(Init(path)), path[k], lo, hi, Power(lo, k), Power(hi, k));
  }

  /** A longer walk scores no more than a shorter one. */
  lemma ShorterIsAsGood(
    arcs: iset<Arc<string>>, seeds: set<string>, depth: nat, lo: real, hi: real,
    short: seq<Arc<string>>, long: seq<Arc<string>>)
    requires 0.0 < lo <= hi <= 1.0 && Steep(lo, hi, depth) && Between(arcs, lo, hi)
    requires IsWalk(arcs, seeds, short) && IsWalk(arcs, seeds, long) && |short| < |long| <= depth
    ensures Score(long) <= Score(short)
  {
    hide Power, Score, IsWalk;
    assert short != [] by { WalkHasHops(arcs, seeds, short); }
    ScoreIsBetween(arcs, seeds, long, lo, hi);
    ScoreIsBetween(arcs, seeds, short, lo, hi);
    PowerFalls(hi, |short| + 1, |long|);
  }

  lemma WalkHasHops(arcs: iset<Arc<string>>, seeds: set<string>, path: seq<Arc<string>>)
    requires IsWalk(arcs, seeds, path)
    ensures path != []
  {
  }

  lemma SteepAgrees(
    arcs: iset<Arc<string>>, seeds: set<string>, depth: nat, lo: real, hi: real, exact: Best, best: Best, v: string)
    requires 0.0 < lo <= hi <= 1.0 && Steep(lo, hi, depth) && Between(arcs, lo, hi)
    requires Exact(arcs, seeds, depth, exact) && Federated(arcs, seeds, depth, best) && v in exact && v !in seeds
    ensures SameDepth(exact, best, v)
  {
    hide Steep, Between, IsWalk, Score, AllDominated;
    ScoresAgree(arcs, seeds, depth, exact, best, v);
    var e := Entry(v, exact[v].0, exact[v].1);
    var h := best[v].1;
    assert Attained(arcs, seeds, e) && Unbeaten(arcs, seeds, depth, e) && Witnessed(arcs, seeds, depth, v, best[v]);
    hide Exact, Federated;
    if h < e.depth {
      var long :| WalksTo(arcs, seeds, e.depth, v, long) && |long| == e.depth && Score(long) == e.score;
      var score :| Attained(arcs, seeds, Entry(v, score, h));
      var short :| WalksTo(arcs, seeds, h, v, short) && |short| == h && Score(short) == score;
      assert WalksTo(arcs, seeds, depth, v, short);
      ShorterIsAsGood(arcs, seeds, depth, lo, hi, short, long);
    }
  }

  // ---- Two ways round -----------------------------------------------------------------

  /** `n` weak hops, and `n + 1` strong ones, from the same node to the same node. */
  function Name(c: char, i: nat, n: nat): string {
    if i == 0 then "s" else if i == n then "v" else seq(i, _ => c)
  }

  function Weak(n: nat, i: nat, lo: real): Arc<string> {
    Arc(Name('a', i, n), Name('a', i + 1, n), lo)
  }

  function Strong(n: nat, i: nat, hi: real): Arc<string> {
    Arc(Name('b', i, n + 1), Name('b', i + 1, n + 1), hi)
  }

  ghost predicate IsWeak(n: nat, lo: real, a: Arc<string>) {
    exists i: nat :: i < n && a == Weak(n, i, lo)
  }

  ghost predicate IsStrong(n: nat, hi: real, a: Arc<string>) {
    exists i: nat :: i <= n && a == Strong(n, i, hi)
  }

  ghost function Loop(n: nat, lo: real, hi: real): iset<Arc<string>> {
    iset a: Arc<string> | IsWeak(n, lo, a) || IsStrong(n, hi, a)
  }

  lemma NamesDiffer(i: nat, m: nat, j: nat, n: nat)
    requires i <= m && j <= n && m >= 1 && n >= 1
    ensures Name('a', i, m) == Name('b', j, n) ==> (i == 0 && j == 0) || (i == m && j == n)
    ensures forall c, k: nat :: k <= m && (c == 'a' || c == 'b') && Name(c, i, m) == Name(c, k, m) ==> i == k
  {
    forall c, k: nat | k <= m && (c == 'a' || c == 'b') && Name(c, i, m) == Name(c, k, m)
      ensures i == k
    {
      assert 0 < i < m ==> Name(c, i, m)[0] == c && |Name(c, i, m)| == i;
      assert 0 < k < m ==> Name(c, k, m)[0] == c && |Name(c, k, m)| == k;
    }
    assert 0 < i < m ==> Name('a', i, m)[0] == 'a';
    assert 0 < j < n ==> Name('b', j, n)[0] == 'b';
  }

  ghost predicate WeakWalk(n: nat, lo: real, path: seq<Arc<string>>) {
    1 <= |path| <= n && End(path) == Name('a', |path|, n) && Score(path) == Power(lo, |path|)
  }

  ghost predicate StrongWalk(n: nat, hi: real, path: seq<Arc<string>>) {
    1 <= |path| <= n + 1 && End(path) == Name('b', |path|, n + 1) && Score(path) == Power(hi, |path|)
  }

  /** Nobody goes round but by one of the two ways. */
  lemma {:induction false} LoopWalks(n: nat, lo: real, hi: real, path: seq<Arc<string>>)
    requires n >= 1 && IsWalk(Loop(n, lo, hi), {"s"}, path)
    ensures WeakWalk(n, lo, path) || StrongWalk(n, hi, path)
    decreases |path|
  {
    var k := |path| - 1;
    var last := path[k];
    assert IsWeak(n, lo, last) || IsStrong(n, hi, last);
    if k == 0 {
      assert Init(path) == [] && last.from == Name('a', 0, n) && last.from == Name('b', 0, n + 1);
    } else {
      LoopWalks(n, lo, hi, Init(path));
    }
    assert Score(path) == Pass(Score(Init(path)), last);
    hide IsWalk, Loop, IsWeak, IsStrong, Power, Pass;
    NextIs(n, lo, hi, last, k);
    PowerPasses(lo, last, k);
    PowerPasses(hi, last, k);
  }

  lemma PowerPasses(x: real, a: Arc<string>, k: nat)
    ensures a.factor == x ==> Pass(Power(x, k), a) == Power(x, k + 1)
    ensures Power(x, 0) == 1.0
  {
  }

  /** The arc that leaves a place on one of the ways is the next one there. */
  lemma NextIs(n: nat, lo: real, hi: real, a: Arc<string>, k: nat)
    requires n >= 1 && (IsWeak(n, lo, a) || IsStrong(n, hi, a))
    ensures k <= n && a.from == Name('a', k, n) && (k > 0 || IsWeak(n, lo, a)) ==> k < n && a == Weak(n, k, lo)
    ensures k <= n + 1 && a.from == Name('b', k, n + 1) && (k > 0 || IsStrong(n, hi, a)) ==>
      k <= n && a == Strong(n, k, hi)
  {
    if IsWeak(n, lo, a) {
      var i: nat :| i < n && a == Weak(n, i, lo);
      NamesDiffer(i, n, if k <= n then k else 0, n);
      if k <= n + 1 { NamesDiffer(i, n, k, n + 1); }
    }
    if IsStrong(n, hi, a) {
      var i: nat :| i <= n && a == Strong(n, i, hi);
      if k <= n { NamesDiffer(k, n, i, n + 1); }
      if k <= n + 1 { NamesDiffer(i, n + 1, k, n + 1); }
    }
  }

  function WeakPath(n: nat, i: nat, lo: real): seq<Arc<string>> {
    if i == 0 then [] else WeakPath(n, i - 1, lo) + [Weak(n, i - 1, lo)]
  }

  function StrongPath(n: nat, i: nat, hi: real): seq<Arc<string>> {
    if i == 0 then [] else StrongPath(n, i - 1, hi) + [Strong(n, i - 1, hi)]
  }

  lemma {:induction false} WeakPathWalks(n: nat, i: nat, lo: real, hi: real)
    requires 1 <= i <= n
    ensures IsWalk(Loop(n, lo, hi), {"s"}, WeakPath(n, i, lo)) && |WeakPath(n, i, lo)| == i
    ensures WeakWalk(n, lo, WeakPath(n, i, lo))
    decreases i
  {
    var path := WeakPath(n, i, lo);
    assert IsWeak(n, lo, Weak(n, i - 1, lo));
    PowerPasses(lo, Weak(n, i - 1, lo), i - 1);
    hide Power, Pass, IsWeak, IsStrong;
    if i > 1 {
      WeakPathWalks(n, i - 1, lo, hi);
    }
    assert Init(path) == WeakPath(n, i - 1, lo) && Score(Init(path)) == Power(lo, i - 1);
    assert Score(path) == Pass(Score(Init(path)), path[i - 1]);
  }

  lemma {:induction false} StrongPathWalks(n: nat, i: nat, lo: real, hi: real)
    requires 1 <= i <= n + 1
    ensures IsWalk(Loop(n, lo, hi), {"s"}, StrongPath(n, i, hi)) && |StrongPath(n, i, hi)| == i
    ensures StrongWalk(n, hi, StrongPath(n, i, hi))
    decreases i
  {
    var path := StrongPath(n, i, hi);
    assert IsStrong(n, hi, Strong(n, i - 1, hi));
    PowerPasses(hi, Strong(n, i - 1, hi), i - 1);
    hide Power, Pass, IsWeak, IsStrong;
    if i > 1 {
      StrongPathWalks(n, i - 1, lo, hi);
    }
    assert Init(path) == StrongPath(n, i - 1, hi) && Score(Init(path)) == Power(hi, i - 1);
    assert Score(path) == Pass(Score(Init(path)), path[i - 1]);
  }

  // ---- What the traversals answer there ---------------------------------------------------

  function Chain(c: char, m: nat): set<string> {
    set i: nat | 0 < i <= m :: Name(c, i, m)
  }

  function Names(n: nat): set<string> {
    Chain('a', n) + Chain('b', n + 1)
  }

  /** Each node in between is reached in one way; `v` is best reached the strong way, and recorded at depth `d`. */
  function ValueOf(n: nat, lo: real, hi: real, d: nat, u: string): (real, nat) {
    if u == "v" then (Power(hi, n + 1), d)
    else if u != [] && u[0] == 'a' then (Power(lo, |u|), |u|)
    else (Power(hi, |u|), |u|)
  }

  function Answer(n: nat, lo: real, hi: real, d: nat): Best {
    map u | u in Names(n) :: ValueOf(n, lo, hi, d, u)
  }

  lemma ChainHolds(c: char, m: nat)
    ensures forall i: nat :: 0 < i <= m ==> Name(c, i, m) in Chain(c, m)
    ensures forall u :: u in Chain(c, m) ==> exists i: nat :: 0 < i <= m && u == Name(c, i, m)
  {
  }

  /** What any walk scores, and how long it is, by where it ends. */
  lemma WalkIsAnswered(n: nat, lo: real, hi: real, d: nat, path: seq<Arc<string>>)
    requires n >= 1 && IsWalk(Loop(n, lo, hi), {"s"}, path)
    ensures path != [] && End(path) in Names(n)
    ensures End(path) == "v" ==>
      (|path| == n && Score(path) == Power(lo, n)) || (|path| == n + 1 && Score(path) == Power(hi, n + 1))
    ensures End(path) != "v" ==> ValueOf(n, lo, hi, d, End(path)) == (Score(path), |path|)
  {
    hide Score, Loop, Chain, Power;
    LoopWalks(n, lo, hi, path);
    hide IsWalk;
    ChainHolds('a', n);
    ChainHolds('b', n + 1);
    var k := |path|;
    if WeakWalk(n, lo, path) {
      NamesDiffer(k, n, n, n);
      assert 0 < k < n ==> Name('a', k, n)[0] == 'a' && |Name('a', k, n)| == k;
    } else {
      NamesDiffer(0, n, k, n + 1);
      assert 0 < k < n + 1 ==> Name('b', k, n + 1)[0] == 'b' && |Name('b', k, n + 1)| == k;
    }
  }

  lemma VIsReached(n: nat, lo: real, hi: real)
    requires n >= 1
    ensures
      var arcs := Loop(n, lo, hi);
      && Attained(arcs, {"s"}, Entry("v", Power(lo, n), n))
      && Attained(arcs, {"s"}, Entry("v", Power(hi, n + 1), n + 1))
  {
    WeakPathWalks(n, n, lo, hi);
    StrongPathWalks(n, n + 1, lo, hi);
    hide IsWalk, Score, Power, Loop;
    assert WalksTo(Loop(n, lo, hi), {"s"}, n, "v", WeakPath(n, n, lo));
    assert WalksTo(Loop(n, lo, hi), {"s"}, n + 1, "v", StrongPath(n, n + 1, hi));
  }

  lemma NamedIsReached(n: nat, lo: real, hi: real, d: nat, u: string)
    requires n >= 1 && u in Names(n) && u != "v"
    ensures
      var value := ValueOf(n, lo, hi, d, u);
      1 <= value.1 <= n && Attained(Loop(n, lo, hi), {"s"}, Entry(u, value.0, value.1))
  {
    hide Chain, IsWalk, Score, Power, Loop;
    ChainHolds('a', n);
    ChainHolds('b', n + 1);
    if u in Chain('a', n) {
      var i: nat :| 0 < i <= n && u == Name('a', i, n);
      WeakPathWalks(n, i, lo, hi);
      assert Name('a', i, n)[0] == 'a' && |Name('a', i, n)| == i;
      assert WalksTo(Loop(n, lo, hi), {"s"}, i, u, WeakPath(n, i, lo));
    } else {
      var i: nat :| 0 < i <= n + 1 && u == Name('b', i, n + 1);
      StrongPathWalks(n, i, lo, hi);
      assert Name('b', i, n + 1)[0] == 'b' && |Name('b', i, n + 1)| == i;
      assert WalksTo(Loop(n, lo, hi), {"s"}, i, u, StrongPath(n, i, hi));
    }
  }

  lemma WalkIsUnbeaten(n: nat, lo: real, hi: real, path: seq<Arc<string>>)
    requires n >= 1 && IsWalk(Loop(n, lo, hi), {"s"}, path) && Power(lo, n) < Power(hi, n + 1)
    ensures path != [] && End(path) in Answer(n, lo, hi, n + 1)
    ensures
      var e := Answer(n, lo, hi, n + 1)[End(path)];
      Score(path) <= e.0 && (Score(path) == e.0 ==> e.1 <= |path|)
  {
    hide Loop, Names, IsWalk, Score, Power;
    WalkIsAnswered(n, lo, hi, n + 1, path);
  }

  lemma NodeIsAttained(n: nat, lo: real, hi: real, u: string)
    requires n >= 1 && u in Answer(n, lo, hi, n + 1)
    ensures
      var e := Answer(n, lo, hi, n + 1)[u];
      1 <= e.1 <= n + 1 && Attained(Loop(n, lo, hi), {"s"}, Entry(u, e.0, e.1))
  {
    hide Loop, Names, IsWalk, Score, Power, Attained;
    VIsReached(n, lo, hi);
    if u != "v" { NamedIsReached(n, lo, hi, n + 1, u); }
  }

  /** The one traversal reports the longer way. */
  lemma LoopIsExact(n: nat, lo: real, hi: real, depth: nat)
    requires 1 <= n < depth && Power(lo, n) < Power(hi, n + 1)
    ensures Exact(Loop(n, lo, hi), {"s"}, depth, Answer(n, lo, hi, n + 1))
  {
    var arcs, exact := Loop(n, lo, hi), Answer(n, lo, hi, n + 1);
    hide Loop, Answer, IsWalk, Score, Power, Attained;
    forall path | IsWalk(arcs, {"s"}, path)
      ensures path != [] && End(path) in exact
      ensures
        var e := exact[End(path)];
        Score(path) <= e.0 && (Score(path) == e.0 ==> e.1 <= |path|)
    {
      WalkIsUnbeaten(n, lo, hi, path);
    }
    forall u | u in exact
      ensures 1 <= exact[u].1 <= depth && Attained(arcs, {"s"}, Entry(u, exact[u].0, exact[u].1))
    {
      NodeIsAttained(n, lo, hi, u);
    }
  }

  /** The other reports the shorter. */
  lemma LoopIsFederated(n: nat, lo: real, hi: real, depth: nat)
    requires 1 <= n < depth && Power(lo, n) < Power(hi, n + 1)
    ensures Federated(Loop(n, lo, hi), {"s"}, depth, Answer(n, lo, hi, n))
  {
    var arcs, best := Loop(n, lo, hi), Answer(n, lo, hi, n);
    hide Loop, Names, IsWalk, Score, Power, Attained;
    VIsReached(n, lo, hi);
    forall path | IsWalk(arcs, {"s"}, path)
      ensures path != [] && Dominates(best, path)
    {
      WalkIsAnswered(n, lo, hi, n, path);
    }
    forall u | u in Names(n)
      ensures Witnessed(arcs, {"s"}, depth, u, best[u])
    {
      if u != "v" { NamedIsReached(n, lo, hi, n, u); }
    }
  }

  lemma VIsNamed(n: nat)
    requires n >= 1
    ensures "v" in Names(n)
  {
    ChainHolds('a', n);
    assert Name('a', n, n) == "v";
  }

  // ---- The two results -----------------------------------------------------------------------

  lemma LoopIsBetween(n: nat, lo: real, hi: real)
    requires lo <= hi
    ensures Between(Loop(n, lo, hi), lo, hi)
  {
  }

  /** The two ways round as a graph: one list of edges, undamped. */
  function LoopEdges(n: nat, lo: real, hi: real): (edges: seq<Edge>)
    ensures |edges| == 2 * n + 1
    ensures forall i :: 0 <= i < n ==> edges[i] == Edge(Name('a', i, n), Name('a', i + 1, n), "relation", None, lo)
    ensures forall i :: n <= i < 2 * n + 1 ==>
      edges[i] == Edge(Name('b', i - n, n + 1), Name('b', i - n + 1, n + 1), "relation", None, hi)
  {
    seq(2 * n + 1, i requires 0 <= i < 2 * n + 1 =>
      if i < n then Edge(Name('a', i, n), Name('a', i + 1, n), "relation", None, lo)
      else Edge(Name('b', i - n, n + 1), Name('b', i - n + 1, n + 1), "relation", None, hi))
  }

  function FromS(depth: nat, decay: real): Query {
    Query(["s"], depth, {}, {}, false, decay, 100)
  }

  lemma LoopEdgesAreLoop(n: nat, lo: real, hi: real, depth: nat)
    ensures Arcs(LoopEdges(n, lo, hi), FromS(depth, 1.0)) == Loop(n, lo, hi)
    ensures SeedSet(FromS(depth, 1.0)) == {"s"}
  {
    var edges, q := LoopEdges(n, lo, hi), FromS(depth, 1.0);
    hide Name;
    forall a | a in Arcs(edges, q)
      ensures a in Loop(n, lo, hi)
    {
      var e :| e in edges && Orient(e, q) == a;
      var i :| 0 <= i < |edges| && edges[i] == e;
      if i < n {
        assert a == Weak(n, i, lo);
      } else {
        assert a == Strong(n, i - n, hi);
      }
    }
    forall a | a in Loop(n, lo, hi)
      ensures a in Arcs(edges, q)
    {
      if IsWeak(n, lo, a) {
        var i: nat :| i < n && a == Weak(n, i, lo);
        assert edges[i] in edges && Orient(edges[i], q) == a;
      } else {
        var i: nat :| i <= n && a == Strong(n, i, hi);
        assert edges[n + i] in edges && Orient(edges[n + i], q) == a;
      }
    }
  }

  /**
    The two traversals agree on depths on every graph whose hops multiply by something between `lo` and `hi`, exactly
    when for each length that matters the weakest walk scores no less than the strongest of one hop more.
  */
  lemma AlwaysAgreeIff(lo: real, hi: real, depth: nat)
    requires 0.0 < lo <= hi <= 1.0
    ensures AlwaysAgree(lo, hi, depth) <==> Steep(lo, hi, depth)
  {
    hide Between, Exact, Federated, Power, Arcs, SeedSet;
    if Steep(lo, hi, depth) {
      forall edges, q: Query, exact: Best, best: Best, v |
        q.depth == depth && Between(Arcs(edges, q), lo, hi) &&
        Exact(Arcs(edges, q), SeedSet(q), depth, exact) && Federated(Arcs(edges, q), SeedSet(q), depth, best) &&
        v in exact && v !in SeedSet(q)
        ensures SameDepth(exact, best, v)
      {
        SteepAgrees(Arcs(edges, q), SeedSet(q), depth, lo, hi, exact, best, v);
      }
    } else {
      var n: nat :| 1 <= n < depth && Power(lo, n) < Power(hi, n + 1);
      LoopIsExact(n, lo, hi, depth);
      LoopIsFederated(n, lo, hi, depth);
      VIsNamed(n);
      LoopIsBetween(n, lo, hi);
      LoopEdgesAreLoop(n, lo, hi, depth);
      hide Names, Loop, LoopEdges;
      assert FromS(depth, 1.0).depth == depth;
      assert !SameDepth(Answer(n, lo, hi, n + 1), Answer(n, lo, hi, n), "v");
    }
  }

  /** Nine tenths lose less in a hop than a half, up to seven hops. */
  lemma ExecutorIsSteep(depth: nat)
    requires depth <= 7
    ensures Steep(0.45, 0.5, depth)
  {
    var x, y := 0.45, 0.5;
    assert Power(x, 0) == 1.0 && Power(y, 0) == 1.0;
    assert Power(x, 1) == 0.45 && Power(y, 1) == 0.5 && Power(y, 2) == 0.25;
    assert Power(x, 2) == 0.2025 && Power(y, 3) == 0.125;
    assert Power(x, 3) == 0.091125 && Power(y, 4) == 0.0625;
    assert Power(x, 4) == 0.04100625 && Power(y, 5) == 0.03125;
    assert Power(x, 5) == 0.0184528125 && Power(y, 6) == 0.015625;
    assert Power(x, 6) == 0.008303765625 && Power(y, 7) == 0.0078125;
  }

  /**
    With the weights that blocks project and the decay of the executor, up to seven hops, the view over one graph
    reports exactly what the graph itself does.
  */
  lemma ExecutorReportsAreEqual(g: Index, q: Query, a: seq<Entry<string>>, b: seq<Entry<string>>)
    requires q.decay == 0.5 && q.depth <= 7 && forall e :: e in g.edges ==> 0.9 <= e.weight <= 1.0
    requires Reports(a, Arcs(g.edges, q), SeedSet(q), q.depth, true)
    requires Surveys(b, Union([g], q), SeedSet(q), q.depth, true)
    ensures a == b
  {
    var arcs, seeds := Arcs(g.edges, q), SeedSet(q);
    assert Between(arcs, 0.45, 0.5);
    UnionOfOne(g, q);
    hide Exact, Reported, AllWitnessed, Federated, Arcs, Union, SeedSet, Between, Steep;
    ExecutorIsSteep(q.depth);
    var exact: Best :| IsListing(a, exact, seeds) && Exact(arcs, seeds, q.depth, exact);
    var best: Best :| IsListing(b, best, seeds) && Federated(arcs, seeds, q.depth, best);
    forall v | v !in seeds
      ensures v in exact <==> v in best
      ensures v in exact ==> best[v] == exact[v]
    {
      ScoresAgree(arcs, seeds, q.depth, exact, best, v);
      if v in exact { SteepAgrees(arcs, seeds, q.depth, 0.45, 0.5, exact, best, v); }
    }
    BetterIsOrdered();
    SortedSetIsUnique(Better, a, b);
  }

  /** One hop of a procedure's use, or two of a relation, at a decay close to 1. */
  const EDGES: seq<Edge> := [
    Edge("s", "v", "uses", None, 0.9), Edge("s", "b", "relation", None, 1.0), Edge("b", "v", "relation", None, 1.0)]

  const SLOW := FromS(2, 0.95)

  lemma EdgesAreLoop()
    ensures Arcs(EDGES, SLOW) == Loop(1, 0.855, 0.95)
  {
    assert Name('b', 1, 2) == "b";
    var e, f, g := EDGES[0], EDGES[1], EDGES[2];
    assert Orient(e, SLOW) == Weak(1, 0, 0.855) && Orient(f, SLOW) == Strong(1, 0, 0.95);
    assert Orient(g, SLOW) == Strong(1, 1, 0.95);
    forall a
      ensures a in Arcs(EDGES, SLOW) <==> a == Orient(e, SLOW) || a == Orient(f, SLOW) || a == Orient(g, SLOW)
    {
      assert e in EDGES && f in EDGES && g in EDGES;
    }
  }

  /** There the two traversals report different depths. */
  lemma DepthsMayDiffer() returns (exact: Best, best: Best)
    ensures Exact(Arcs(EDGES, SLOW), {"s"}, 2, exact) && Federated(Arcs(EDGES, SLOW), {"s"}, 2, best)
    ensures "v" in exact && exact["v"] == (0.9025, 2)
    ensures "v" in best && best["v"] == (0.9025, 1)
  {
    EdgesAreLoop();
    assert Power(0.855, 0) == 1.0 && Power(0.95, 0) == 1.0;
    assert Power(0.855, 1) == 0.855 && Power(0.95, 1) == 0.95 && Power(0.95, 2) == 0.9025;
    LoopIsExact(1, 0.855, 0.95, 2);
    LoopIsFederated(1, 0.855, 0.95, 2);
    VIsNamed(1);
    hide Exact, Federated, Arcs, Names;
    exact, best := Answer(1, 0.855, 0.95, 2), Answer(1, 0.855, 0.95, 1);
  }
}
