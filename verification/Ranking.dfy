/** How a traversal reports what it reached: best score first, then by identity, seeds left out. */
module Ranking {
  import opened Walks
  import opened Ordering

  type Best = map<string, (real, nat)>

  /** The sort key `(-score, identity)`; identities never repeat, so the last tie-break never decides. */
  predicate Better(a: Entry<string>, b: Entry<string>) {
    || a.score > b.score
    || (a.score == b.score && StringLess(a.node, b.node))
    || (a.score == b.score && a.node == b.node && a.depth <= b.depth)
  }

  lemma BetterIsOrdered()
    ensures TotalOrder(Better)
  {
    forall a: Entry<string>, b: Entry<string>
      ensures Better(a, b) || Better(b, a)
      ensures Better(a, b) && Better(b, a) ==> a == b
    {
      StringTotal(a.node, b.node);
      if StringLeq(a.node, b.node) && StringLeq(b.node, a.node) { StringAntisymmetric(a.node, b.node); }
    }
    forall a: Entry<string>, b: Entry<string>, c: Entry<string> | Better(a, b) && Better(b, c)
      ensures Better(a, c)
    {
      if StringLeq(a.node, b.node) && StringLeq(b.node, c.node) { StringTransitive(a.node, b.node, c.node); }
      if StringLeq(a.node, b.node) && StringLeq(b.node, a.node) { StringAntisymmetric(a.node, b.node); }
    }
  }

  ghost predicate IsListing(results: seq<Entry<string>>, best: map<string, (real, nat)>, seeds: set<string>) {
    && Sorted(Better, results) && Distinct(results)
    && forall e :: e in results <==> e.node in best && e.node !in seeds && best[e.node] == (e.score, e.depth)
  }

  /** Every entry is some walk's score and length. */
  ghost predicate Reported(arcs: iset<Arc<string>>, seeds: set<string>, depth: nat, best: Best) {
    forall v :: v in best ==>
      1 <= best[v].1 <= depth && Attained(arcs, seeds, Entry(v, best[v].0, best[v].1))
  }

  /** What an expansion reports: nodes that walks reach, best first; when it is exact, all of them at their best. */
  ghost predicate Reports(
    results: seq<Entry<string>>, arcs: iset<Arc<string>>, seeds: set<string>, depth: nat, exact: bool)
  {
    exists best: Best :: IsListing(results, best, seeds) && Reported(arcs, seeds, depth, best)
      && (exact ==> Exact(arcs, seeds, depth, best))
  }

  /** There is only one exact report. */
  lemma ExactReportIsUnique(
    a: seq<Entry<string>>, b: seq<Entry<string>>, arcs: iset<Arc<string>>, seeds: set<string>, depth: nat)
    requires Reports(a, arcs, seeds, depth, true) && Reports(b, arcs, seeds, depth, true)
    ensures a == b
  {
    hide IsListing, Exact, Reported;
    var x: Best :| IsListing(a, x, seeds) && Reported(arcs, seeds, depth, x) && Exact(arcs, seeds, depth, x);
    var y: Best :| IsListing(b, y, seeds) && Reported(arcs, seeds, depth, y) && Exact(arcs, seeds, depth, y);
    ExactIsUnique(arcs, seeds, depth, x, y);
    ListingIsUnique(a, b, x, seeds);
  }

  /** The report is determined by what was reached. */
  lemma ListingIsUnique(
    a: seq<Entry<string>>, b: seq<Entry<string>>, best: map<string, (real, nat)>, seeds: set<string>)
    requires IsListing(a, best, seeds) && IsListing(b, best, seeds)
    ensures a == b
  {
    BetterIsOrdered();
    SortedSetIsUnique(Better, a, b);
  }

  /** Sorting what was found gives the report. */
  lemma SortIsListing(found: seq<Entry<string>>, best: map<string, (real, nat)>, seeds: set<string>)
    requires Distinct(found)
    requires forall e :: e in found <==> e.node in best && e.node !in seeds && best[e.node] == (e.score, e.depth)
    ensures IsListing(Sort(Better, found), best, seeds) && |Sort(Better, found)| == |found|
  {
    BetterIsOrdered();
    SortSorts(Better, found);
    forall e
      ensures e in Sort(Better, found) <==> e in found
    {
      SortHolds(Better, found, e);
    }
    forall e | e in Sort(Better, found)
      ensures multiset(Sort(Better, found))[e] == 1
    {
      DistinctCounts(found, e);
    }
    CountsDistinct(Sort(Better, found));
    assert |multiset(Sort(Better, found))| == |multiset(found)|;
  }

  ghost predicate Listed(best: Best, origin: set<string>, todo: set<string>, found: seq<Entry<string>>) {
    && Distinct(found)
    && forall e :: e in found <==>
         e.node in best && e.node !in todo && e.node !in origin && best[e.node] == (e.score, e.depth)
  }

  lemma ListedGrows(best: Best, origin: set<string>, todo: set<string>, found: seq<Entry<string>>, v: string)
    requires Listed(best, origin, todo, found) && v in todo && v in best && v !in origin
    ensures Listed(best, origin, todo - {v}, found + [Entry(v, best[v].0, best[v].1)])
  {
    DistinctGrows(found, Entry(v, best[v].0, best[v].1));
  }

  lemma ListedIsReport(best: Best, origin: set<string>, found: seq<Entry<string>>)
    requires Listed(best, origin, {}, found)
    ensures IsListing(Sort(Better, found), best, origin) && |Sort(Better, found)| == |found|
  {
    SortIsListing(found, best, origin);
  }

  /** List a table best first, leaving some nodes out, in whatever order the table yields its items. */
  method Rank(best: Best, origin: set<string>) returns (ranked: seq<Entry<string>>)
    ensures IsListing(ranked, best, origin)
    ensures |best| <= |ranked| + |origin|
  {
    var found: seq<Entry<string>> := [];
    var todo := best.Keys;
    ghost var skipped: set<string> := {};
    assert Listed(best, origin, todo, found);
    hide Listed, IsListing;
    while todo != {}
      invariant todo <= best.Keys
      invariant Listed(best, origin, todo, found)
      invariant skipped <= origin - todo && |best| == |todo| + |found| + |skipped|
      decreases |todo|
    {
      var v :| v in todo;
      if v in origin {
        skipped := skipped + {v};
      } else {
        ListedGrows(best, origin, todo, found, v);
        found := found + [Entry(v, best[v].0, best[v].1)];
      }
      todo := todo - {v};
    }
    SubsetIsSmaller(skipped, origin);
    ListedIsReport(best, origin, found);
    ranked := Sort(Better, found);
  }
}
