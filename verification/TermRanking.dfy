/** What a lexical score means: more of a term scores more, a longer block less, and a rarer term counts for more. */
module TermRanking {
  import opened Arithmetic
  import opened Ordering
  import Walks
  import opened Ranking
  import opened TermLookup

  // ---- One term -----------------------------------------------------------------------------

  /** Which of two fractions of different parts is the larger. */
  lemma PartsCompare(x: real, m: real, y: real, n: real)
    requires m > 0.0 && n > 0.0
    ensures x / m > y / n <==> x * n > y * m
  {
    FractionsCompare(x, m, 1.0, y, n);
  }

  lemma Spreads(w: real, f: real, g: real, n: real)
    ensures (w * g) * (f + n) - (w * f) * (g + n) == w * (n * (g - f))
  {
  }

  lemma NumeratorIs(idf: real, f: real)
    ensures idf * (f * (K1 + 1.0)) == (idf * (K1 + 1.0)) * f
  {
  }

  lemma Rises(w: real, f: real, g: real, n: real)
    requires w > 0.0 && 0.0 <= f < g && n > 0.0
    ensures (w * g) / (g + n) > (w * f) / (f + n)
  {
    Spreads(w, f, g, n);
    PartsCompare(w * g, g + n, w * f, f + n);
    Product(n, g - f);
    Product(w, n * (g - f));
  }

  lemma Product(x: real, y: real)
    requires x > 0.0 && y > 0.0
    ensures x * y > 0.0
  {
  }

  /** More of the term, at the same length, contributes more. */
  lemma MoreContributesMore(idf: real, f: real, g: real, norm: real)
    requires idf > 0.0 && 0.0 <= f < g && norm > 0.0
    ensures Saturated(idf, g, norm) > Saturated(idf, f, norm)
  {
    NumeratorIs(idf, f);
    NumeratorIs(idf, g);
    Rises(idf * (K1 + 1.0), f, g, norm);
  }

  /** As much of the term in a longer block contributes less. */
  lemma LongerContributesLess(idf: real, f: real, m: real, n: real)
    requires idf > 0.0 && f > 0.0 && 0.0 < m < n
    ensures Saturated(idf, f, m) > Saturated(idf, f, n)
  {
    var x := idf * (f * (K1 + 1.0));
    assert f * (K1 + 1.0) > 0.0;
    assert x > 0.0;
    PartsCompare(x, f + m, x, f + n);
    TimesKeepsOrder(f + m, f + n, x);
  }

  /** A term that says more contributes more. */
  lemma RarerContributesMore(idf: real, idf': real, f: real, norm: real)
    requires idf < idf' && f > 0.0 && norm > 0.0
    ensures Saturated(idf, f, norm) < Saturated(idf', f, norm)
  {
    var c := f * (K1 + 1.0);
    assert c > 0.0;
    TimesKeepsOrder(idf, idf', c);
    Quotients(idf' * c, idf * c, f + norm);
  }

  /** However much of a term there is, it contributes less than `idf * (K1 + 1)`. */
  lemma ContributionIsBounded(idf: real, f: real, norm: real)
    requires idf > 0.0 && f >= 0.0 && norm > 0.0
    ensures Saturated(idf, f, norm) < idf * (K1 + 1.0)
  {
    var w := idf * (K1 + 1.0);
    NumeratorIs(idf, f);
    assert w / 1.0 == w;
    PartsCompare(w, 1.0, w * f, f + norm);
    assert w * (f + norm) - (w * f) * 1.0 == w * norm;
    assert w * norm > 0.0;
  }

  // ---- Every stem ------------------------------------------------------------------------------

  /** Without groups, every stem is asked for by itself. */
  lemma {:induction false} StemsAreAskedFor(terms: seq<string>, g: seq<string>)
    ensures g in Singles(terms) <==>
      |g| == 1 && g[0] in terms && |g[0]| >= 2 && g[0][0] == 't' && g[0][1] == ':'
  {
    if terms != [] {
      var n := |terms| - 1;
      assert |g| == 1 ==> g == [g[0]];
      StemsAreAskedFor(terms[..n], g);
      assert terms == terms[..n] + [terms[n]];
      assert STEM_PREFIX <= terms[n] <==> |terms[n]| >= 2 && terms[n][0] == 't' && terms[n][1] == ':';
    }
  }

  /** Where a query asks for all and has no groups, a candidate has each of its stems, and any of its terms. */
  lemma AllMeansEveryStem(p: Probe, o: nat)
    requires p.query.all && p.query.groups == []
    ensures Candidate(p, o) <==>
      && (exists t :: t in p.query.terms && o in Posts(p.corpus, t))
      && (forall t :: t in p.query.terms && |t| >= 2 && t[0] == 't' && t[1] == ':' ==> o in Posts(p.corpus, t))
      && (p.query.allow.Some? ==> o in p.query.allow.value) && p.keeps(o)
  {
    forall t | t in p.query.terms && |t| >= 2 && t[0] == 't' && t[1] == ':'
      ensures HasAny(p.corpus, [t], o) <==> o in Posts(p.corpus, t)
      ensures [t] in Groups(p.query)
    {
      assert t in [t];
      StemsAreAskedFor(p.query.terms, [t]);
    }
    forall g | g in Groups(p.query)
      ensures |g| == 1 && g[0] in p.query.terms && |g[0]| >= 2 && g[0][0] == 't' && g[0][1] == ':' && g == [g[0]]
    {
      StemsAreAskedFor(p.query.terms, g);
    }
  }

  // ---- One term of a probe ---------------------------------------------------------------------

  function LengthIn(c: Corpus, o: nat): nat {
    if o in c.lengths then c.lengths[o] else 0
  }

  /** The longer a block, the larger its denominator. */
  lemma NormGrowsWithLength(c: Corpus, a: nat, b: nat)
    ensures LengthIn(c, a) <= LengthIn(c, b) ==> Norm(c, a) <= Norm(c, b)
    ensures LengthIn(c, a) < LengthIn(c, b) ==> Norm(c, a) < Norm(c, b)
  {
    var x, y := B * LengthIn(c, a) as real, B * LengthIn(c, b) as real;
    Quotients(x, y, Average(c));
    Quotients(y, x, Average(c));
  }

  /** A block of average length is measured neutrally; a longer one counts against it, and a shorter one for it. */
  lemma AverageLengthIsNeutral(c: Corpus, o: nat)
    requires |c.lengths| > 0 && c.totalLength > 0
    ensures LengthIn(c, o) * |c.lengths| == c.totalLength ==> Norm(c, o) == K1
    ensures LengthIn(c, o) * |c.lengths| > c.totalLength ==> Norm(c, o) > K1
    ensures LengthIn(c, o) * |c.lengths| < c.totalLength ==> Norm(c, o) < K1
  {
    var l, n, total := LengthIn(c, o) as real, |c.lengths| as real, c.totalLength as real;
    assert (LengthIn(c, o) * |c.lengths|) as real == l * n;
    var average := total / n;
    assert average * n == total && Average(c) == average;
    var ratio := B * l / average;
    assert ratio * average == B * l;
    RatioCompares(ratio, l, n, average, total);
  }

  lemma RatioCompares(ratio: real, l: real, n: real, average: real, total: real)
    requires n > 0.0 && average > 0.0 && average * n == total && ratio * average == B * l
    ensures l * n == total ==> ratio == B
    ensures l * n > total ==> ratio > B
    ensures l * n < total ==> ratio < B
  {
    assert (ratio - B) * average == B * (l - average);
    assert (l - average) * n == l * n - total;
    if l > average { assert (l - average) * n > 0.0; assert ratio > B by { Sign(ratio - B, average); } }
    if l < average { assert (average - l) * n > 0.0; assert ratio < B by { Sign(B - ratio, average); } }
    if l == average { assert ratio == B by { Sign(ratio - B, average); Sign(B - ratio, average); } }
  }

  lemma Sign(x: real, y: real)
    requires y > 0.0
    ensures x > 0.0 <==> x * y > 0.0
  {
    if x <= 0.0 { assert (-x) * y >= 0.0; }
  }

  lemma FrequencyScales(u: int, v: int)
    ensures u < v <==> u as real / WEIGHT_SCALE < v as real / WEIGHT_SCALE
  {
  }

  /** The second block has at least as much of the term, and is no longer. */
  predicate NoWorse(p: Probe, a: nat, b: nat, t: string) {
    WeightIn(p.corpus, t, a) <= WeightIn(p.corpus, t, b) && LengthIn(p.corpus, b) <= LengthIn(p.corpus, a)
  }

  /** It has more, or as much but in a shorter block; and the term counts for it. */
  predicate StrictlyBetter(p: Probe, a: nat, b: nat, t: string) {
    && NoWorse(p, a, b, t) && Counts(p, b, t)
    && (WeightIn(p.corpus, t, a) < WeightIn(p.corpus, t, b) || LengthIn(p.corpus, b) < LengthIn(p.corpus, a))
  }

  lemma SaturatedCompares(idf: real, f: real, m: real, g: real, n: real)
    requires idf > 0.0 && 0.0 < f <= g && 0.0 < n <= m
    ensures Saturated(idf, f, m) <= Saturated(idf, g, n)
    ensures f < g || n < m ==> Saturated(idf, f, m) < Saturated(idf, g, n)
  {
    hide Saturated;
    if f < g { MoreContributesMore(idf, f, g, n); }
    if n < m { LongerContributesLess(idf, f, n, m); }
  }

  lemma GainsCompareAt(p: Probe, a: nat, b: nat, t: string)
    requires p.Valid() && NoWorse(p, a, b, t)
    ensures Gain(p, a, t) <= Gain(p, b, t)
    ensures StrictlyBetter(p, a, b, t) ==> Gain(p, a, t) < Gain(p, b, t)
  {
    hide Idf, Norm, Saturated;
    NormGrowsWithLength(p.corpus, b, a);
    GainIsPositiveIff(p, a, t);
    GainIsPositiveIff(p, b, t);
    if Counts(p, a, t) {
      var f, g := WeightIn(p.corpus, t, a) as real / WEIGHT_SCALE, WeightIn(p.corpus, t, b) as real / WEIGHT_SCALE;
      FrequencyScales(0, WeightIn(p.corpus, t, a));
      FrequencyScales(WeightIn(p.corpus, t, a), WeightIn(p.corpus, t, b));
      SaturatedCompares(Idf(p, t), f, Norm(p.corpus, a), g, Norm(p.corpus, b));
    }
  }

  /** No term contributes as much as `idf * (K1 + 1)`. */
  lemma GainIsBounded(p: Probe, o: nat, t: string)
    requires p.Valid() && Idf(p, t) > 0.0
    ensures Gain(p, o, t) < Idf(p, t) * (K1 + 1.0)
  {
    hide Idf, Norm, Saturated;
    if WeightIn(p.corpus, t, o) > 0 {
      ContributionIsBounded(Idf(p, t), WeightIn(p.corpus, t, o) as real / WEIGHT_SCALE, Norm(p.corpus, o));
    }
  }

  lemma ShortestNorm(c: Corpus, o: nat)
    ensures Norm(c, o) >= K1 * (1.0 - B)
    ensures LengthIn(c, o) == 0 ==> Norm(c, o) == K1 * (1.0 - B)
  {
    Quotients(0.0, B * LengthIn(c, o) as real, Average(c));
  }

  /** The ceiling of a term is what it contributes once, unweighted, to an empty block. */
  lemma CeilingIsOneOccurrence(p: Probe, t: string)
    requires Idf(p, t) > 0.0
    ensures Cap(p, t) == Saturated(Idf(p, t), 1.0, K1 * (1.0 - B))
  {
    hide Idf;
  }

  /** A term gains its ceiling or more from an empty block exactly when its weight there is one occurrence or more. */
  lemma CeilingIsReachedIff(p: Probe, o: nat, t: string)
    requires p.Valid() && Counts(p, o, t)
    ensures WeightIn(p.corpus, t, o) as real <= WEIGHT_SCALE ==> Gain(p, o, t) <= Cap(p, t)
    ensures LengthIn(p.corpus, o) == 0 ==>
      (Gain(p, o, t) >= Cap(p, t) <==> WeightIn(p.corpus, t, o) as real >= WEIGHT_SCALE)
  {
    hide Idf, Norm;
    ShortestNorm(p.corpus, o);
    CeilingIsOneOccurrence(p, t);
    hide Saturated, Cap;
    var w, low := WeightIn(p.corpus, t, o), K1 * (1.0 - B);
    var f := w as real / WEIGHT_SCALE;
    if f <= 1.0 { SaturatedCompares(Idf(p, t), f, Norm(p.corpus, o), 1.0, low); }
    if f > 1.0 && LengthIn(p.corpus, o) == 0 { SaturatedCompares(Idf(p, t), 1.0, low, f, low); }
  }

  ghost predicate Increases(log: real -> real) {
    forall x, y :: x < y ==> log(x) < log(y)
  }

  /** What a term says is the logarithm of the number of blocks and one over the number that have it and a half. */
  lemma IdfIsOfTheShare(p: Probe, t: string)
    requires |p.corpus.lengths| > 0 && Frequency(p.corpus, t) > 0
    ensures Idf(p, t) == p.log((|p.corpus.lengths| as real + 1.0) / (Frequency(p.corpus, t) as real + 0.5))
  {
    var n, f := |p.corpus.lengths| as real, Frequency(p.corpus, t) as real;
    var d := f + 0.5;
    var x, y := 1.0 + (n - f + 0.5) / d, (n + 1.0) / d;
    assert (n - f + 0.5) / d * d == n - f + 0.5 && y * d == n + 1.0;
    SameProduct(x, y, d);
  }

  lemma SameProduct(x: real, y: real, d: real)
    requires d > 0.0 && x * d == y * d
    ensures x == y
  {
    assert (x - y) * d == 0.0;
  }

  /** Of two terms, the one that fewer blocks have says more. */
  lemma RarerSaysMore(p: Probe, t: string, u: string)
    requires Increases(p.log) && |p.corpus.lengths| > 0
    requires 0 < Frequency(p.corpus, t) < Frequency(p.corpus, u) <= |p.corpus.lengths|
    ensures Idf(p, t) > Idf(p, u)
  {
    var n, f, g := |p.corpus.lengths| as real, Frequency(p.corpus, t) as real, Frequency(p.corpus, u) as real;
    PartsCompare(n - f + 0.5, f + 0.5, n - g + 0.5, g + 0.5);
    assert (n - f + 0.5) * (g + 0.5) - (n - g + 0.5) * (f + 0.5) == (n + 1.0) * (g - f);
    assert (n + 1.0) * (g - f) > 0.0;
    assert 1.0 + (n - f + 0.5) / (f + 0.5) > 1.0 + (n - g + 0.5) / (g + 0.5);
  }

  /** A block that has two terms with equal weight gains more from the rarer one, if that one says anything. */
  lemma RarerTermGainsMore(p: Probe, o: nat, t: string, u: string)
    requires p.Valid() && Increases(p.log) && |p.corpus.lengths| > 0
    requires 0 < Frequency(p.corpus, t) < Frequency(p.corpus, u) <= |p.corpus.lengths|
    requires WeightIn(p.corpus, t, o) == WeightIn(p.corpus, u, o) > 0
    ensures Gain(p, o, t) >= Gain(p, o, u)
    ensures Gain(p, o, t) > Gain(p, o, u) <==> Idf(p, t) > 0.0
  {
    RarerSaysMore(p, t, u);
    hide Idf, Norm, Saturated, Frequency;
    GainIsPositiveIff(p, o, t);
    GainIsPositiveIff(p, o, u);
    if Idf(p, u) > 0.0 {
      RarerContributesMore(
        Idf(p, u), Idf(p, t), WeightIn(p.corpus, t, o) as real / WEIGHT_SCALE, Norm(p.corpus, o));
    }
  }

  // ---- Two blocks ----------------------------------------------------------------------------------

  lemma {:induction false} TotalsCompare(p: Probe, a: nat, b: nat, terms: seq<string>)
    requires p.Valid() && forall t :: t in terms ==> NoWorse(p, a, b, t)
    ensures Gains(p, a, terms) <= Gains(p, b, terms)
    ensures (exists t :: t in terms && StrictlyBetter(p, a, b, t)) ==> Gains(p, a, terms) < Gains(p, b, terms)
  {
    if terms != [] {
      var init, last := terms[..|terms| - 1], terms[|terms| - 1];
      assert terms == init + [last] && last in terms;
      TotalsCompare(p, a, b, init);
      GainsCompareAt(p, a, b, last);
      hide Gain, NoWorse, StrictlyBetter;
    }
  }

  lemma ClampingKeepsOrder(x: real, y: real, ceiling: real)
    requires 0.0 <= x <= y && ceiling >= 0.0
    ensures Clamped(x, ceiling) <= Clamped(y, ceiling)
    ensures x < y && ceiling > 0.0 && Clamped(x, ceiling) < 1.0 ==> Clamped(x, ceiling) < Clamped(y, ceiling)
  {
    if ceiling > 0.0 {
      Quotients(x, y, ceiling);
      Quotients(y, x, ceiling);
    }
  }

  /**
    A block that has at least as much of every query term as another and is no longer never scores less; if it has more
    of some term that counts, or is shorter and has one, it scores more while the other is below 1.
  */
  lemma BetterMatchScoresMore(p: Probe, a: nat, b: nat)
    requires p.Valid() && forall t :: t in p.query.terms ==> NoWorse(p, a, b, t)
    ensures Score(p, a) <= Score(p, b)
    ensures (exists t :: t in p.query.terms && StrictlyBetter(p, a, b, t)) && Score(p, a) < 1.0 ==>
      Score(p, a) < Score(p, b)
  {
    hide Gains, Ceiling, NoWorse, Counts;
    TotalsCompare(p, a, b, p.query.terms);
    SumsArePositiveIff(p, a, p.query.terms);
    SumsArePositiveIff(p, b, p.query.terms);
    hide StrictlyBetter;
    ClampingKeepsOrder(Gains(p, a, p.query.terms), Gains(p, b, p.query.terms), Ceiling(p, p.query.terms));
  }

  /** With the same weights, the longer block never scores more. */
  lemma LongerNeverScoresMore(p: Probe, a: nat, b: nat)
    requires p.Valid() && LengthIn(p.corpus, b) <= LengthIn(p.corpus, a)
    requires forall t :: t in p.query.terms ==> WeightIn(p.corpus, t, a) == WeightIn(p.corpus, t, b)
    ensures Score(p, a) <= Score(p, b)
  {
    BetterMatchScoresMore(p, a, b);
  }

  // ---- Their places in the answer ---------------------------------------------------------------------

  /** The entry of a block in the results. */
  ghost predicate StandsAt(p: Probe, results: seq<Walks.Entry<string>>, i: nat, o: nat) {
    i < |results| && o < |p.corpus.names| && results[i].node == p.corpus.names[o]
  }

  lemma ListedScore(p: Probe, best: Best, full: seq<Walks.Entry<string>>, i: nat, o: nat)
    requires p.Valid() && IsAnswer(p, best) && IsListing(full, best, {}) && StandsAt(p, full, i, o)
    ensures Matches(p, o) && full[i].score == Score(p, o)
  {
    hide Matches, Score, Better, Sorted;
    assert full[i] in full;
    var b := full[i].node;
    assert Names(p, b, best[b]);
    var m := best[b].1;
    assert Matches(p, m);
    MatchIsNamed(p, m);
    assert p.corpus.names[m] == p.corpus.names[o];
    if m < o { DistinctIndices(p.corpus.names, m, o); } else if o < m { DistinctIndices(p.corpus.names, o, m); }
  }

  lemma MatchIsNamed(p: Probe, o: nat)
    requires p.Valid() && Matches(p, o)
    ensures o < |p.corpus.names|
  {
  }

  /**
    In every answer, cut or not, a candidate stands before those that score less: the better of two is there whenever
    the other is, and before it.
  */
  lemma BetterScoreStandsFirst(p: Probe, results: seq<Walks.Entry<string>>, exhausted: bool, a: nat, b: nat, i: nat)
    requires p.Valid() && Begins(p, results, exhausted) && StandsAt(p, results, i, a)
    requires Matches(p, b) && Score(p, a) < Score(p, b)
    ensures exists j: nat :: j < i && StandsAt(p, results, j, b)
  {
    hide Score, Matches, IsAnswer, IsListing, Sorted;
    var full :| Complete(p, full) && results <= full && (exhausted <==> |results| == |full|);
    var best :| IsAnswer(p, best) && IsListing(full, best, {});
    ListedScore(p, best, full, i, a);
    var j := ListedPlace(p, best, full, b);
    ListedScore(p, best, full, j, b);
    if i <= j {
      ListingDescends(full, best, i, j);
    }
    assert StandsAt(p, results, j, b);
  }

  lemma ListedPlace(p: Probe, best: Best, full: seq<Walks.Entry<string>>, o: nat) returns (j: nat)
    requires p.Valid() && IsAnswer(p, best) && IsListing(full, best, {}) && Matches(p, o)
    ensures StandsAt(p, full, j, o)
  {
    MatchIsNamed(p, o);
    hide Matches, Score, Better, Sorted;
    var b := p.corpus.names[o];
    var e := Walks.Entry(b, best[b].0, best[b].1);
    assert e in full;
    j :| 0 <= j < |full| && full[j] == e;
  }

  lemma ListingDescends(full: seq<Walks.Entry<string>>, best: Best, i: nat, j: nat)
    requires IsListing(full, best, {}) && i <= j < |full|
    ensures full[i].score >= full[j].score
  {
    if i < j { SortedPair(Better, full, i, j); }
  }
}
