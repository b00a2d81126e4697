/**
  Total orders, sorting, and the lexicographic order of strings.

  Sorting is an insertion sort over values: what matters is only that the result is sorted and a permutation, which
  determines it for a total order. For a comparison that may tie, the sort is stable, and two sequences sort alike
  exactly when they have the same elements of each rank in the same order (`SortsAlikeIff`). Strings are compared by
  code point, a proper prefix first.
*/
module Ordering {

  /** A comparison that can sort: it may tie elements that differ. */
  ghost predicate Comparison<T(!new)>(leq: (T, T) -> bool) {
    && (forall a, b :: leq(a, b) || leq(b, a))
    && (forall a, b, c :: leq(a, b) && leq(b, c) ==> leq(a, c))
  }

  predicate Tied<T>(leq: (T, T) -> bool, a: T, b: T) {
    leq(a, b) && leq(b, a)
  }

  ghost predicate TotalOrder<T(!new)>(leq: (T, T) -> bool) {
    Comparison(leq) && forall a, b :: Tied(leq, a, b) ==> a == b
  }

  /** No two different elements tie. */
  ghost predicate NoTies<T(!new)>(leq: (T, T) -> bool, s: seq<T>) {
    forall a, b :: a in s && b in s && Tied(leq, a, b) ==> a == b
  }

  ghost predicate Sorted<T(!new)>(leq: (T, T) -> bool, s: seq<T>)
    decreases |s|
  {
    s == [] || ((forall x :: x in s[1..] ==> leq(s[0], x)) && Sorted(leq, s[1..]))
  }

  lemma {:induction false} SortedPair<T(!new)>(leq: (T, T) -> bool, s: seq<T>, i: nat, j: nat)
    requires Sorted(leq, s) && i < j < |s|
    ensures leq(s[i], s[j])
    decreases |s|
  {
    if i == 0 {
      assert s[1..][j - 1] == s[j];
    } else {
      SortedPair(leq, s[1..], i - 1, j - 1);
    }
  }

  function Insert<T>(leq: (T, T) -> bool, x: T, s: seq<T>): seq<T>
    decreases |s|
  {
    if s == [] || leq(x, s[0]) then [x] + s else [s[0]] + Insert(leq, x, s[1..])
  }

  function Sort<T>(leq: (T, T) -> bool, s: seq<T>): seq<T>
    decreases |s|
  {
    if s == [] then [] else Insert(leq, s[0], Sort(leq, s[1..]))
  }

  lemma {:induction false} InsertKeeps<T(!new)>(leq: (T, T) -> bool, x: T, s: seq<T>)
    requires Comparison(leq) && Sorted(leq, s)
    ensures Sorted(leq, Insert(leq, x, s)) && multiset(Insert(leq, x, s)) == multiset(s) + multiset{x}
    decreases |s|
  {
    if s == [] {
    } else if leq(x, s[0]) {
      assert ([x] + s)[1..] == s;
      forall y | y in s
        ensures leq(x, y)
      {
        assert s == [s[0]] + s[1..];
      }
    } else {
      InsertKeeps(leq, x, s[1..]);
      var rest := Insert(leq, x, s[1..]);
      assert s == [s[0]] + s[1..];
      assert ([s[0]] + rest)[1..] == rest;
      forall y | y in rest
        ensures leq(s[0], y)
      {
        assert y in multiset(rest);
        assert y == x || y in multiset(s[1..]);
      }
    }
  }

  lemma {:induction false} SortSorts<T(!new)>(leq: (T, T) -> bool, s: seq<T>)
    requires Comparison(leq)
    ensures Sorted(leq, Sort(leq, s)) && multiset(Sort(leq, s)) == multiset(s)
    decreases |s|
  {
    if s != [] {
      hide Sorted, Comparison, Insert;
      SortSorts(leq, s[1..]);
      InsertKeeps(leq, s[0], Sort(leq, s[1..]));
      assert s == [s[0]] + s[1..];
    }
  }

  lemma SplitHead<T>(s: seq<T>)
    requires s != []
    ensures multiset(s) == multiset{s[0]} + multiset(s[1..])
  {
    assert s == [s[0]] + s[1..];
  }

  lemma HeadsAgree<T(!new)>(leq: (T, T) -> bool, s: seq<T>, t: seq<T>)
    requires Comparison(leq) && NoTies(leq, s)
    requires Sorted(leq, s) && Sorted(leq, t) && multiset(s) == multiset(t) && s != []
    ensures t != [] && s[0] == t[0] && multiset(s[1..]) == multiset(t[1..])
  {
    assert s[0] in multiset(t);
    assert t[0] in multiset(s);
    assert Tied(leq, s[0], t[0]);
    hide Sorted, NoTies, Comparison;
    SplitHead(s);
    SplitHead(t);
    assert multiset(s[1..]) == multiset(s) - multiset{s[0]};
    assert multiset(t[1..]) == multiset(t) - multiset{s[0]};
  }

  /** A sorted sequence without ties is determined by its elements. */
  lemma {:induction false} SortedIsUnique<T(!new)>(leq: (T, T) -> bool, s: seq<T>, t: seq<T>)
    requires Comparison(leq) && NoTies(leq, s)
    requires Sorted(leq, s) && Sorted(leq, t) && multiset(s) == multiset(t)
    ensures s == t
    decreases |s|
  {
    assert |multiset(s)| == |multiset(t)|;
    hide Comparison;
    if s != [] {
      HeadsAgree(leq, s, t);
      SortedIsUnique(leq, s[1..], t[1..]);
      assert s == [s[0]] + s[1..] && t == [t[0]] + t[1..];
    }
  }

  lemma NoTiesForgetsOrder<T(!new)>(leq: (T, T) -> bool, s: seq<T>, t: seq<T>)
    requires NoTies(leq, s) && multiset(s) == multiset(t)
    ensures NoTies(leq, t)
  {
    forall x | x in t
      ensures x in s
    {
      assert x in multiset(t);
    }
  }

  /** Without ties, sorting forgets the order of its input. */
  lemma SortForgetsOrder<T(!new)>(leq: (T, T) -> bool, s: seq<T>, t: seq<T>)
    requires Comparison(leq) && NoTies(leq, s) && multiset(s) == multiset(t)
    ensures Sort(leq, s) == Sort(leq, t)
  {
    SortSorts(leq, s);
    SortSorts(leq, t);
    NoTiesForgetsOrder(leq, s, Sort(leq, s));
    SortedIsUnique(leq, Sort(leq, s), Sort(leq, t));
  }

  /** Sorting leaves a sorted sequence alone. */
  lemma {:induction false} SortOfSorted<T(!new)>(leq: (T, T) -> bool, s: seq<T>)
    requires Sorted(leq, s)
    ensures Sort(leq, s) == s
    decreases |s|
  {
    if s != [] {
      SortOfSorted(leq, s[1..]);
      assert s == [s[0]] + s[1..];
      assert |s| > 1 ==> s[1] in s[1..];
    }
  }

  /** A sorted sequence without ties is the sort of any of its rearrangements. */
  lemma SortedIsSort<T(!new)>(leq: (T, T) -> bool, s: seq<T>, t: seq<T>)
    requires Comparison(leq) && NoTies(leq, s) && Sorted(leq, s) && multiset(s) == multiset(t)
    ensures s == Sort(leq, t)
  {
    SortSorts(leq, t);
    SortedIsUnique(leq, s, Sort(leq, t));
  }

  // ---- Ties keep the order they came in ------------------------------------------

  function Tie<T>(leq: (T, T) -> bool, a: T, x: T): seq<T> {
    if Tied(leq, a, x) then [x] else []
  }

  function Ties<T>(leq: (T, T) -> bool, a: T, s: seq<T>): seq<T>
    decreases |s|
  {
    if s == [] then [] else Tie(leq, a, s[0]) + Ties(leq, a, s[1..])
  }

  lemma TiesUnfold<T>(leq: (T, T) -> bool, a: T, x: T, s: seq<T>)
    ensures Ties(leq, a, [x] + s) == Tie(leq, a, x) + Ties(leq, a, s)
  {
    assert ([x] + s)[1..] == s;
  }

  lemma {:induction false} InsertIsStable<T(!new)>(leq: (T, T) -> bool, a: T, x: T, s: seq<T>)
    requires Comparison(leq)
    ensures Ties(leq, a, Insert(leq, x, s)) == Tie(leq, a, x) + Ties(leq, a, s)
    decreases |s|
  {
    if s == [] || leq(x, s[0]) {
      TiesUnfold(leq, a, x, s);
    } else {
      assert !(Tied(leq, a, x) && Tied(leq, a, s[0]));
      hide Comparison, Ties;
      InsertIsStable(leq, a, x, s[1..]);
      TiesUnfold(leq, a, s[0], Insert(leq, x, s[1..]));
      TiesUnfold(leq, a, s[0], s[1..]);
      assert s == [s[0]] + s[1..];
    }
  }

  lemma {:induction false} SortIsStable<T(!new)>(leq: (T, T) -> bool, a: T, s: seq<T>)
    requires Comparison(leq)
    ensures Ties(leq, a, Sort(leq, s)) == Ties(leq, a, s)
    decreases |s|
  {
    if s != [] {
      SortIsStable(leq, a, s[1..]);
      InsertIsStable(leq, a, s[0], Sort(leq, s[1..]));
    }
  }

  function Without<T>(s: seq<T>, i: nat): seq<T>
    requires i < |s|
  {
    s[..i] + s[i + 1..]
  }

  lemma PicksOut<T>(s: seq<T>, i: nat)
    requires i < |s|
    ensures multiset(s) == multiset{s[i]} + multiset(Without(s, i))
  {
    assert s == s[..i] + ([s[i]] + s[i + 1..]);
  }

  lemma ToFront<T>(s: seq<T>, x: T) returns (t: seq<T>)
    requires x in s
    ensures t != [] && t[0] == x && multiset(t) == multiset(s)
  {
    var i :| 0 <= i < |s| && s[i] == x;
    PicksOut(s, i);
    t := [x] + Without(s, i);
  }

  lemma MiddleOut<T>(x: seq<T>, y: seq<T>, z: seq<T>)
    ensures multiset(x + (y + z)) == multiset(y) + multiset(x + z)
  {
  }

  /** Where a rearrangement has the head of the original. */
  lemma FindHead<T>(s: seq<T>, t: seq<T>) returns (i: nat)
    requires multiset(s) == multiset(t) && s != []
    ensures i < |t| && t[i] == s[0] && multiset(s[1..]) == multiset(Without(t, i))
  {
    assert s[0] in multiset(t);
    i :| 0 <= i < |t| && t[i] == s[0];
    PicksOut(t, i);
    SplitHead(s);
    assert multiset(s[1..]) == multiset(s) - multiset{s[0]};
    assert multiset(Without(t, i)) == multiset(t) - multiset{s[0]};
  }

  lemma {:induction false} TiesAppend<T>(leq: (T, T) -> bool, a: T, s: seq<T>, t: seq<T>)
    ensures Ties(leq, a, s + t) == Ties(leq, a, s) + Ties(leq, a, t)
    decreases |s|
  {
    if s == [] {
      assert s + t == t;
    } else {
      assert (s + t)[1..] == s[1..] + t;
      TiesAppend(leq, a, s[1..], t);
    }
  }

  lemma {:induction false} TiesOfNone<T>(leq: (T, T) -> bool, a: T, s: seq<T>)
    requires forall x :: x in s ==> !Tied(leq, a, x)
    ensures Ties(leq, a, s) == []
    decreases |s|
  {
    if s != [] {
      TiesOfNone(leq, a, s[1..]);
    }
  }

  lemma {:induction false} TiesCount<T(!new)>(leq: (T, T) -> bool, a: T, s: seq<T>)
    requires Comparison(leq)
    ensures multiset(Ties(leq, a, s))[a] == multiset(s)[a]
    decreases |s|
  {
    if s != [] {
      TiesCount(leq, a, s[1..]);
      SplitHead(s);
    }
  }

  /** The two sequences have the same elements of each rank, in the same order. */
  ghost predicate TieAlike<T(!new)>(leq: (T, T) -> bool, s: seq<T>, t: seq<T>) {
    forall a :: Ties(leq, a, s) == Ties(leq, a, t)
  }

  lemma TieAlikePermutes<T(!new)>(leq: (T, T) -> bool, s: seq<T>, t: seq<T>)
    requires Comparison(leq) && TieAlike(leq, s, t)
    ensures multiset(s) == multiset(t)
  {
    forall a
      ensures multiset(s)[a] == multiset(t)[a]
    {
      TiesCount(leq, a, s);
      TiesCount(leq, a, t);
    }
  }

  lemma TieAlikeTails<T(!new)>(leq: (T, T) -> bool, s: seq<T>, t: seq<T>)
    requires Comparison(leq) && Sorted(leq, s) && Sorted(leq, t) && s != [] && t != []
    requires TieAlike(leq, s, t)
    ensures s[0] == t[0] && TieAlike(leq, s[1..], t[1..])
  {
    TieAlikePermutes(leq, s, t);
    assert s[0] in multiset(t) && t[0] in multiset(s);
    assert Tied(leq, s[0], t[0]);
    assert Ties(leq, s[0], s)[0] == s[0] && Ties(leq, s[0], t)[0] == t[0];
    forall a
      ensures Ties(leq, a, s[1..]) == Ties(leq, a, t[1..])
    {
      var k := |Tie(leq, a, s[0])|;
      assert Ties(leq, a, s)[k..] == Ties(leq, a, s[1..]);
      assert Ties(leq, a, t)[k..] == Ties(leq, a, t[1..]);
    }
  }

  /** Sorted sequences that agree on ties are equal. */
  lemma {:induction false} SortedTiesDecide<T(!new)>(leq: (T, T) -> bool, s: seq<T>, t: seq<T>)
    requires Comparison(leq) && Sorted(leq, s) && Sorted(leq, t) && TieAlike(leq, s, t)
    ensures s == t
    decreases |s|
  {
    TieAlikePermutes(leq, s, t);
    assert |multiset(s)| == |multiset(t)|;
    if s != [] {
      TieAlikeTails(leq, s, t);
      hide Comparison, TieAlike;
      SortedTiesDecide(leq, s[1..], t[1..]);
      assert s == [s[0]] + s[1..] && t == [t[0]] + t[1..];
    }
  }

  /** A stable sort gives two sequences the same result exactly when they agree on ties. */
  lemma SortsAlikeIff<T(!new)>(leq: (T, T) -> bool, s: seq<T>, t: seq<T>)
    requires Comparison(leq)
    ensures Sort(leq, s) == Sort(leq, t) <==> TieAlike(leq, s, t)
  {
    SortSorts(leq, s);
    SortSorts(leq, t);
    forall a
      ensures Ties(leq, a, Sort(leq, s)) == Ties(leq, a, s) && Ties(leq, a, Sort(leq, t)) == Ties(leq, a, t)
    {
      SortIsStable(leq, a, s);
      SortIsStable(leq, a, t);
    }
    if TieAlike(leq, s, t) {
      SortedTiesDecide(leq, Sort(leq, s), Sort(leq, t));
    }
  }

  lemma {:induction false} InsertPermutes<T>(leq: (T, T) -> bool, x: T, s: seq<T>)
    ensures multiset(Insert(leq, x, s)) == multiset(s) + multiset{x}
    decreases |s|
  {
    if s != [] && !leq(x, s[0]) {
      InsertPermutes(leq, x, s[1..]);
      assert s == [s[0]] + s[1..];
    }
  }

  /** Whatever the comparison, sorting only rearranges. */
  lemma {:induction false} SortPermutes<T>(leq: (T, T) -> bool, s: seq<T>)
    ensures multiset(Sort(leq, s)) == multiset(s)
    decreases |s|
  {
    if s != [] {
      SortPermutes(leq, s[1..]);
      InsertPermutes(leq, s[0], Sort(leq, s[1..]));
      assert s == [s[0]] + s[1..];
    }
  }

  lemma SortHolds<T>(leq: (T, T) -> bool, s: seq<T>, x: T)
    ensures x in Sort(leq, s) <==> x in s
  {
    SortPermutes(leq, s);
    assert x in multiset(s) <==> x in multiset(Sort(leq, s));
  }

  // ---- Filtering --------------------------------------------------------------

  function Filter<T>(keep: T -> bool, s: seq<T>): seq<T> {
    if s == [] then [] else
      var rest := Filter(keep, s[..|s| - 1]);
      if keep(s[|s| - 1]) then rest + [s[|s| - 1]] else rest
  }

  lemma {:induction false} FilterHolds<T>(keep: T -> bool, s: seq<T>, x: T)
    ensures x in Filter(keep, s) <==> x in s && keep(x)
  {
    if s != [] {
      var n := |s| - 1;
      FilterHolds(keep, s[..n], x);
      assert s == s[..n] + [s[n]];
    }
  }

  /** Keeping what passes one test and then another is keeping what passes both. */
  lemma {:induction false} FilterBoth<T>(p: T -> bool, q: T -> bool, both: T -> bool, s: seq<T>)
    requires forall x :: x in s ==> both(x) == (p(x) && q(x))
    ensures Filter(p, Filter(q, s)) == Filter(both, s)
  {
    if s != [] {
      var init, last := s[..|s| - 1], s[|s| - 1];
      FilterBoth(p, q, both, init);
      if q(last) {
        assert (Filter(q, init) + [last])[..|Filter(q, init)|] == Filter(q, init);
      }
    }
  }

  /** If a test passes exactly between two positions, filtering is slicing. */
  lemma {:induction false} FilterIsSlice<T>(keep: T -> bool, s: seq<T>, lo: nat, hi: nat)
    requires lo <= hi <= |s| && forall i :: 0 <= i < |s| ==> (keep(s[i]) <==> lo <= i < hi)
    ensures Filter(keep, s) == s[lo..hi]
    decreases |s|
  {
    if s != [] {
      var n := |s| - 1;
      if hi == |s| && lo < hi {
        FilterIsSlice(keep, s[..n], lo, n);
        assert s[..n][lo..n] + [s[n]] == s[lo..hi];
      } else if hi == |s| {
        FilterIsSlice(keep, s[..n], n, n);
      } else {
        FilterIsSlice(keep, s[..n], lo, hi);
        assert s[..n][lo..hi] == s[lo..hi];
      }
    }
  }

  lemma {:induction false} FilterCounts<T>(keep: T -> bool, s: seq<T>, x: T)
    ensures multiset(Filter(keep, s))[x] == if keep(x) then multiset(s)[x] else 0
  {
    if s != [] {
      var n := |s| - 1;
      FilterCounts(keep, s[..n], x);
      assert s == s[..n] + [s[n]];
    }
  }

  lemma {:induction false} SortedJoins<T(!new)>(leq: (T, T) -> bool, s: seq<T>, t: seq<T>)
    requires Sorted(leq, s) && Sorted(leq, t) && forall x, y :: x in s && y in t ==> leq(x, y)
    ensures Sorted(leq, s + t)
    decreases |s|
  {
    if s == [] {
      assert s + t == t;
    } else {
      SortedJoins(leq, s[1..], t);
      assert (s + t)[1..] == s[1..] + t;
    }
  }

  lemma {:induction false} SortedPrefix<T(!new)>(leq: (T, T) -> bool, s: seq<T>, x: T)
    requires Sorted(leq, s + [x])
    ensures Sorted(leq, s) && forall y :: y in s ==> leq(y, x)
    decreases |s|
  {
    if s != [] {
      assert (s + [x])[1..] == s[1..] + [x];
      SortedPrefix(leq, s[1..], x);
      assert x in s[1..] + [x];
      assert s == [s[0]] + s[1..];
      assert forall y :: y in s[1..] ==> y in s[1..] + [x];
    }
  }

  lemma {:induction false} FilterKeepsSorted<T(!new)>(leq: (T, T) -> bool, keep: T -> bool, s: seq<T>)
    requires Sorted(leq, s)
    ensures Sorted(leq, Filter(keep, s))
    decreases |s|
  {
    if s != [] {
      var init, last := s[..|s| - 1], s[|s| - 1];
      assert s == init + [last];
      SortedPrefix(leq, init, last);
      FilterKeepsSorted(leq, keep, init);
      forall y | y in Filter(keep, init)
        ensures leq(y, last)
      {
        FilterHolds(keep, init, y);
      }
      assert [last][1..] == [];
      SortedJoins(leq, Filter(keep, init), [last]);
    }
  }

  /** Filtering a sorted list is sorting the filtered list. */
  lemma FilterSorts<T(!new)>(leq: (T, T) -> bool, keep: T -> bool, s: seq<T>)
    requires TotalOrder(leq)
    ensures Filter(keep, Sort(leq, s)) == Sort(leq, Filter(keep, s))
  {
    SortSorts(leq, s);
    FilterKeepsSorted(leq, keep, Sort(leq, s));
    forall x
      ensures multiset(Filter(keep, Sort(leq, s)))[x] == multiset(Filter(keep, s))[x]
    {
      FilterCounts(keep, Sort(leq, s), x);
      FilterCounts(keep, s, x);
    }
    SortedIsSort(leq, Filter(keep, Sort(leq, s)), Filter(keep, s));
  }

  // ---- A set, listed in order ------------------------------------------------

  predicate Distinct<T(==)>(s: seq<T>)
    decreases |s|
  {
    s == [] || (s[0] !in s[1..] && Distinct(s[1..]))
  }

  function Dedup<T(==)>(s: seq<T>): seq<T>
    decreases |s|
  {
    if s == [] then [] else if s[0] in s[1..] then Dedup(s[1..]) else [s[0]] + Dedup(s[1..])
  }

  lemma {:induction false} DedupKeeps<T>(s: seq<T>)
    ensures Distinct(Dedup(s)) && (forall x :: x in Dedup(s) <==> x in s)
    decreases |s|
  {
    if s != [] {
      DedupKeeps(s[1..]);
      assert s == [s[0]] + s[1..];
      assert ([s[0]] + Dedup(s[1..]))[1..] == Dedup(s[1..]);
    }
  }

  lemma {:induction false} DistinctCounts<T>(s: seq<T>, x: T)
    requires Distinct(s)
    ensures multiset(s)[x] == if x in s then 1 else 0
    decreases |s|
  {
    if s != [] {
      DistinctCounts(s[1..], x);
      assert s == [s[0]] + s[1..];
    }
  }

  lemma {:induction false} CountsDistinct<T>(s: seq<T>)
    requires forall x :: x in s ==> multiset(s)[x] == 1
    ensures Distinct(s)
    decreases |s|
  {
    if s != [] {
      assert s == [s[0]] + s[1..];
      assert multiset(s) == multiset{s[0]} + multiset(s[1..]);
      assert s[0] in s && multiset(s)[s[0]] == 1;
      assert s[0] !in multiset(s[1..]);
      forall x | x in s[1..]
        ensures multiset(s[1..])[x] == 1
      {
        assert x in multiset(s[1..]) && x in s && x != s[0];
      }
      CountsDistinct(s[1..]);
    }
  }

  lemma {:induction false} DistinctIndices<T>(s: seq<T>, i: nat, j: nat)
    requires Distinct(s) && i < j < |s|
    ensures s[i] != s[j]
    decreases |s|
  {
    if i > 0 {
      assert s[1..][i - 1] == s[i] && s[1..][j - 1] == s[j];
      DistinctIndices(s[1..], i - 1, j - 1);
    } else {
      assert s[1..][j - 1] == s[j];
    }
  }

  lemma DistinctGrows<T>(s: seq<T>, x: T)
    requires Distinct(s) && x !in s
    ensures Distinct(s + [x])
    decreases |s|
  {
    if s == [] {
      assert [x][1..] == [];
    } else {
      DistinctGrows(s[1..], x);
      assert (s + [x])[1..] == s[1..] + [x];
    }
  }

  lemma {:induction false} DistinctInit<T>(s: seq<T>, x: T)
    requires Distinct(s + [x])
    ensures Distinct(s) && x !in s
    decreases |s|
  {
    if s != [] {
      assert (s + [x])[0] == s[0] && (s + [x])[1..] == s[1..] + [x];
      DistinctInit(s[1..], x);
      assert s == [s[0]] + s[1..] && x in s[1..] + [x];
      assert forall y :: y in s[1..] ==> y in s[1..] + [x];
    }
  }

  lemma SubsetIsSmaller<T>(a: set<T>, b: set<T>)
    requires a <= b
    ensures |a| <= |b|
  {
    if a != {} {
      var x :| x in a;
      SubsetIsSmaller(a - {x}, b - {x});
    }
  }

  function Elements<T>(s: seq<T>): set<T> {
    set x | x in s
  }

  /** A sequence has as many elements as entries exactly when none repeats. */
  lemma {:induction false} ElementsCount<T>(s: seq<T>)
    ensures |Elements(s)| <= |s|
    ensures |Elements(s)| == |s| <==> Distinct(s)
    decreases |s|
  {
    if s == [] {
      assert Elements(s) == {};
    } else {
      ElementsCount(s[1..]);
      assert s == [s[0]] + s[1..];
      assert Elements(s) == Elements(s[1..]) + {s[0]};
      if s[0] in s[1..] {
        assert Elements(s) == Elements(s[1..]);
      }
    }
  }

  /** Two distinct listings of the same elements are permutations of each other. */
  lemma SameElements<T>(s: seq<T>, t: seq<T>)
    requires Distinct(s) && Distinct(t) && forall x :: x in s <==> x in t
    ensures multiset(s) == multiset(t)
  {
    forall x
      ensures multiset(s)[x] == multiset(t)[x]
    {
      DistinctCounts(s, x);
      DistinctCounts(t, x);
    }
  }

  /** Python's `sorted(set(s))`. */
  function SortedSet<T(==)>(leq: (T, T) -> bool, s: seq<T>): seq<T> {
    Sort(leq, Dedup(s))
  }

  lemma SortedSetHolds<T>(leq: (T, T) -> bool, s: seq<T>)
    ensures Distinct(SortedSet(leq, s)) && (forall x :: x in SortedSet(leq, s) <==> x in s)
  {
    DedupKeeps(s);
    SortPermutes(leq, Dedup(s));
    forall x
      ensures x in SortedSet(leq, s) <==> x in s
    {
      SortHolds(leq, Dedup(s), x);
    }
    forall x | x in SortedSet(leq, s)
      ensures multiset(SortedSet(leq, s))[x] == 1
    {
      SortHolds(leq, Dedup(s), x);
      DistinctCounts(Dedup(s), x);
    }
    CountsDistinct(SortedSet(leq, s));
  }

  /** The listing depends on nothing but the set. */
  lemma SortedSetForgets<T(!new)>(leq: (T, T) -> bool, s: seq<T>, t: seq<T>)
    requires TotalOrder(leq) && forall x :: x in s <==> x in t
    ensures SortedSet(leq, s) == SortedSet(leq, t)
  {
    DedupKeeps(s);
    DedupKeeps(t);
    SameElements(Dedup(s), Dedup(t));
    SortForgetsOrder(leq, Dedup(s), Dedup(t));
  }

  /** A sorted listing without repetitions is determined by the set of its elements. */
  lemma SortedSetIsUnique<T(!new)>(leq: (T, T) -> bool, s: seq<T>, t: seq<T>)
    requires TotalOrder(leq) && Sorted(leq, s) && Distinct(s) && Sorted(leq, t) && Distinct(t)
    requires forall x :: x in s <==> x in t
    ensures s == t
  {
    SameElements(s, t);
    SortedIsUnique(leq, s, t);
  }

  // ---- Naturals ----------------------------------------------------------------

  predicate NatLeq(a: nat, b: nat) {
    a <= b
  }

  // ---- Strings, compared by code point ---------------------------------------

  predicate StringLeq(a: string, b: string)
    decreases |a|
  {
    a == [] || (b != [] && (a[0] < b[0] || (a[0] == b[0] && StringLeq(a[1..], b[1..]))))
  }

  predicate StringLess(a: string, b: string) {
    StringLeq(a, b) && a != b
  }

  lemma {:induction false} StringTotal(a: string, b: string)
    ensures StringLeq(a, b) || StringLeq(b, a)
    decreases |a|
  {
    if a != [] && b != [] {
      StringTotal(a[1..], b[1..]);
    }
  }

  lemma {:induction false} StringAntisymmetric(a: string, b: string)
    requires StringLeq(a, b) && StringLeq(b, a)
    ensures a == b
    decreases |a|
  {
    if a != [] && b != [] {
      StringAntisymmetric(a[1..], b[1..]);
      assert a == [a[0]] + a[1..] && b == [b[0]] + b[1..];
    }
  }

  lemma {:induction false} StringTransitive(a: string, b: string, c: string)
    requires StringLeq(a, b) && StringLeq(b, c)
    ensures StringLeq(a, c)
    decreases |a|
  {
    if a != [] && a[0] == b[0] == c[0] {
      StringTransitive(a[1..], b[1..], c[1..]);
    }
  }

  /** Two comparisons of which at least one is strict make a strict one. */
  lemma StringsTransit(a: string, b: string, c: string)
    requires (a == b || StringLeq(a, b)) && (b == c || StringLeq(b, c)) && (a != b || b != c)
    ensures StringLeq(a, c) && a != c
  {
    if a != b && b != c {
      StringTransitive(a, b, c);
      if a == c { StringAntisymmetric(a, b); }
    }
  }

  lemma StringsAreOrdered()
    ensures TotalOrder(StringLeq)
  {
    forall a, b ensures StringLeq(a, b) || StringLeq(b, a) { StringTotal(a, b); }
    forall a, b | Tied(StringLeq, a, b) ensures a == b { StringAntisymmetric(a, b); }
    forall a, b, c | StringLeq(a, b) && StringLeq(b, c) ensures StringLeq(a, c) { StringTransitive(a, b, c); }
  }
}
