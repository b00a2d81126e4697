/**
  The lexical lookup: candidates from the postings, by any term or by every group, masked and filtered before scoring;
  a score in [0, 1]; and a listing that says whether the limit cut it.
*/
module TermLookup {
  import opened Wrappers
  import opened Arithmetic
  import opened Ordering
  import opened Walks
  import opened Ranking
  import Postings

  const K1 := 1.2
  const B := 0.75
  const WEIGHT_SCALE := 1000.0
  const STEM_PREFIX := "t:"

  /** What one module's index holds: postings, document lengths and their total, and the identity of each ordinal. */
  datatype Corpus = Corpus(postings: Postings.Table, lengths: map<nat, nat>, totalLength: nat, names: seq<string>)

  /** `all` asks for every group rather than for any term. */
  datatype TermQuery = TermQuery(terms: seq<string>, groups: seq<seq<string>>, all: bool, allow: Option<set<nat>>)

  /** One lookup: the logarithm is a parameter, and so is the phrase filter, which keeps everything without a phrase. */
  datatype Probe = Probe(corpus: Corpus, query: TermQuery, log: real -> real, keeps: nat -> bool)
  {
    ghost predicate Valid() {
      && Distinct(corpus.names)
      && forall t, o: nat :: t in corpus.postings && o in corpus.postings[t] ==> corpus.postings[t][o] >= 0
    }
  }

  // ---- Candidates ------------------------------------------------------------------------

  function Posts(c: Corpus, t: string): set<nat> {
    if t in c.postings then c.postings[t].Keys else {}
  }

  predicate IsStem(t: string) {
    STEM_PREFIX <= t
  }

  /** Without groups, every stemmed term is its own. */
  function Singles(terms: seq<string>): seq<seq<string>> {
    if terms == [] then [] else
      var last := terms[|terms| - 1];
      Singles(terms[..|terms| - 1]) + (if IsStem(last) then [[last]] else [])
  }

  function Groups(q: TermQuery): seq<seq<string>> {
    if q.groups != [] then q.groups else Singles(q.terms)
  }

  predicate HasAny(c: Corpus, terms: seq<string>, o: nat) {
    exists t :: t in terms && o in Posts(c, t)
  }

  predicate Candidate(p: Probe, o: nat) {
    && HasAny(p.corpus, p.query.terms, o)
    && (p.query.all ==> forall g :: g in Groups(p.query) ==> HasAny(p.corpus, g, o))
    && (p.query.allow.Some? ==> o in p.query.allow.value)
    && p.keeps(o)
  }

  /** The union of the postings of some terms. */
  method Union(c: Corpus, terms: seq<string>) returns (found: set<nat>)
    ensures forall o :: o in found <==> HasAny(c, terms, o)
  {
    found := {};
    for i := 0 to |terms|
      invariant forall o :: o in found <==> HasAny(c, terms[..i], o)
    {
      assert terms[..i + 1] == terms[..i] + [terms[i]];
      forall o
        ensures HasAny(c, terms[..i + 1], o) <==> HasAny(c, terms[..i], o) || o in Posts(c, terms[i])
      {
        AnyGrows(c, terms[..i], terms[i], o);
      }
      found := found + Posts(c, terms[i]);
    }
    assert terms[..|terms|] == terms;
  }

  lemma AnyGrows(c: Corpus, terms: seq<string>, t: string, o: nat)
    ensures HasAny(c, terms + [t], o) <==> HasAny(c, terms, o) || o in Posts(c, t)
  {
    assert t in terms + [t];
    if HasAny(c, terms, o) {
      var u :| u in terms && o in Posts(c, u);
      assert u in terms + [t];
    }
  }

  method Candidates(p: Probe) returns (found: set<nat>)
    ensures forall o :: o in found <==> Candidate(p, o)
  {
    hide HasAny, Groups;
    found := Union(p.corpus, p.query.terms);
    if p.query.all {
      var groups := Groups(p.query);
      for i := 0 to |groups|
        invariant forall o :: o in found <==>
          HasAny(p.corpus, p.query.terms, o) && forall g :: g in groups[..i] ==> HasAny(p.corpus, g, o)
      {
        assert groups[..i + 1] == groups[..i] + [groups[i]];
        var matched := Union(p.corpus, groups[i]);
        found := found * matched;
      }
      assert groups[..|groups|] == groups;
    }
    if p.query.allow.Some? {
      found := found * p.query.allow.value;
    }
    found := set o | o in found && p.keeps(o);
  }

  // ---- Scores -------------------------------------------------------------------------------

  function Frequency(c: Corpus, t: string): nat {
    |Posts(c, t)|
  }

  function Idf(p: Probe, t: string): real {
    var documents, frequency := |p.corpus.lengths|, Frequency(p.corpus, t);
    if documents == 0 || frequency == 0 then 0.0
    else p.log(1.0 + (documents as real - frequency as real + 0.5) / (frequency as real + 0.5))
  }

  /** The mean length, or 1 when there is nothing to average. */
  function Average(c: Corpus): (average: real)
    ensures average > 0.0
  {
    if |c.lengths| == 0 || c.totalLength == 0 then 1.0
    else
      Quotient(c.totalLength as real, |c.lengths| as real);
      c.totalLength as real / |c.lengths| as real
  }

  lemma Quotient(x: real, y: real)
    requires x >= 0.0 && y > 0.0
    ensures x / y >= 0.0 && (x > 0.0 ==> x / y > 0.0)
  {
    Quotients(0.0, x, y);
    Quotients(x, 0.0, y);
  }

  /** What a block's length adds to the denominator of a term's gain. */
  function Norm(c: Corpus, o: nat): (norm: real)
    ensures norm > 0.0
  {
    var length := if o in c.lengths then c.lengths[o] else 0;
    Quotient(B * length as real, Average(c));
    K1 * (1.0 - B + B * length as real / Average(c))
  }

  function WeightIn(c: Corpus, t: string, o: nat): int {
    if t in c.postings && o in c.postings[t] then c.postings[t][o] else 0
  }

  function Saturated(idf: real, f: real, norm: real): real
    requires f >= 0.0 && norm > 0.0
  {
    idf * (f * (K1 + 1.0)) / (f + norm)
  }

  /** What one term contributes to a block's total; a term that every block has, or that the block lacks, nothing. */
  function Gain(p: Probe, o: nat, t: string): real
    requires WeightIn(p.corpus, t, o) >= 0
  {
    if Idf(p, t) <= 0.0 || WeightIn(p.corpus, t, o) == 0 then 0.0
    else Saturated(Idf(p, t), WeightIn(p.corpus, t, o) as real / WEIGHT_SCALE, Norm(p.corpus, o))
  }

  /** The best any block could do on the term. */
  function Cap(p: Probe, t: string): real {
    if Idf(p, t) <= 0.0 then 0.0 else Idf(p, t) * (K1 + 1.0) / (K1 * (1.0 - B) + 1.0)
  }

  function Gains(p: Probe, o: nat, terms: seq<string>): real
    requires p.Valid()
  {
    if terms == [] then 0.0 else Gains(p, o, terms[..|terms| - 1]) + Gain(p, o, terms[|terms| - 1])
  }

  function Ceiling(p: Probe, terms: seq<string>): real {
    if terms == [] then 0.0 else Ceiling(p, terms[..|terms| - 1]) + Cap(p, terms[|terms| - 1])
  }

  function Clamped(total: real, ceiling: real): real {
    if ceiling == 0.0 then 0.0 else if total / ceiling >= 1.0 then 1.0 else total / ceiling
  }

  function Score(p: Probe, o: nat): real
    requires p.Valid()
  {
    Clamped(Gains(p, o, p.query.terms), Ceiling(p, p.query.terms))
  }

  lemma SumsGrow(p: Probe, o: nat, terms: seq<string>, t: string)
    requires p.Valid()
    ensures Gains(p, o, terms + [t]) == Gains(p, o, terms) + Gain(p, o, t)
    ensures Ceiling(p, terms + [t]) == Ceiling(p, terms) + Cap(p, t)
  {
    assert (terms + [t])[..|terms|] == terms;
  }

  lemma NoSums(p: Probe, o: nat)
    requires p.Valid()
    ensures Gains(p, o, []) == 0.0 && Ceiling(p, []) == 0.0
  {
  }

  /** One block against the query's terms. */
  method ScoreOf(p: Probe, o: nat) returns (score: real)
    requires p.Valid()
    ensures score == Score(p, o)
  {
    hide Gains, Ceiling, Idf, Saturated, Norm;
    var terms := p.query.terms;
    var total, ceiling := 0.0, 0.0;
    NoSums(p, o);
    assert terms[..0] == [];
    for i := 0 to |terms|
      invariant total == Gains(p, o, terms[..i]) && ceiling == Ceiling(p, terms[..i])
    {
      var t := terms[i];
      assert terms[..i + 1] == terms[..i] + [t];
      SumsGrow(p, o, terms[..i], t);
      var idf := Idf(p, t);
      if idf <= 0.0 {
        continue;
      }
      ceiling := ceiling + idf * (K1 + 1.0) / (K1 * (1.0 - B) + 1.0);
      var weighted := WeightIn(p.corpus, t, o);
      if weighted == 0 {
        continue;
      }
      total := total + Saturated(idf, weighted as real / WEIGHT_SCALE, Norm(p.corpus, o));
    }
    assert terms[..|terms|] == terms;
    if ceiling == 0.0 {
      return 0.0;
    }
    score := if total / ceiling >= 1.0 then 1.0 else total / ceiling;
  }

  lemma SaturatedIsPositive(idf: real, f: real, norm: real)
    requires idf > 0.0 && f > 0.0 && norm > 0.0
    ensures Saturated(idf, f, norm) > 0.0
  {
    assert f * (K1 + 1.0) > 0.0;
    assert idf * (f * (K1 + 1.0)) > 0.0;
    Quotient(idf * (f * (K1 + 1.0)), f + norm);
  }

  /** The term says something about the collection, and the block has it. */
  predicate Counts(p: Probe, o: nat, t: string) {
    Idf(p, t) > 0.0 && WeightIn(p.corpus, t, o) > 0
  }

  lemma GainIsPositiveIff(p: Probe, o: nat, t: string)
    requires p.Valid()
    ensures Gain(p, o, t) >= 0.0 && (Gain(p, o, t) > 0.0 <==> Counts(p, o, t))
    ensures Cap(p, t) >= 0.0 && (Counts(p, o, t) ==> Cap(p, t) > 0.0)
  {
    hide Idf, Norm, Saturated;
    if Counts(p, o, t) {
      SaturatedIsPositive(Idf(p, t), WeightIn(p.corpus, t, o) as real / WEIGHT_SCALE, Norm(p.corpus, o));
    }
  }

  lemma {:induction false} SumsArePositiveIff(p: Probe, o: nat, terms: seq<string>)
    requires p.Valid()
    ensures Gains(p, o, terms) >= 0.0 && (Gains(p, o, terms) > 0.0 <==> exists t :: t in terms && Counts(p, o, t))
    ensures Ceiling(p, terms) >= 0.0 && (Gains(p, o, terms) > 0.0 ==> Ceiling(p, terms) > 0.0)
  {
    if terms != [] {
      var init, t := terms[..|terms| - 1], terms[|terms| - 1];
      assert terms == init + [t];
      SumsArePositiveIff(p, o, init);
      GainIsPositiveIff(p, o, t);
      hide Gain, Cap, Counts;
      assert forall u :: u in terms <==> u in init || u == t;
    }
  }

  /** Every score is in [0, 1], and positive exactly when some term of the query counts for the block. */
  lemma ScoreIsFraction(p: Probe, o: nat)
    requires p.Valid()
    ensures 0.0 <= Score(p, o) <= 1.0
    ensures Score(p, o) > 0.0 <==> exists t :: t in p.query.terms && Counts(p, o, t)
  {
    hide Gains, Ceiling, Counts;
    SumsArePositiveIff(p, o, p.query.terms);
    var total, ceiling := Gains(p, o, p.query.terms), Ceiling(p, p.query.terms);
    if ceiling > 0.0 { Quotient(total, ceiling); }
  }

  /** With no more postings than documents, every term that occurs says something. */
  lemma OccurringTermsCount(p: Probe, t: string)
    requires forall x :: x > 1.0 ==> p.log(x) > 0.0
    requires 0 < Frequency(p.corpus, t) <= |p.corpus.lengths|
    ensures Idf(p, t) > 0.0
  {
    var n, f := |p.corpus.lengths| as real, Frequency(p.corpus, t) as real;
    Quotient(n - f + 0.5, f + 0.5);
  }

  // ---- The answer -----------------------------------------------------------------------------

  /** Every candidate that scores, under its identity, with its score. */
  ghost predicate IsAnswer(p: Probe, best: Best)
    requires p.Valid()
  {
    && (forall b :: b in best ==> Names(p, b, best[b]))
    && (forall o: nat :: Matches(p, o) ==> p.corpus.names[o] in best)
  }

  ghost predicate Names(p: Probe, b: string, entry: (real, nat))
    requires p.Valid()
  {
    Matches(p, entry.1) && p.corpus.names[entry.1] == b && Score(p, entry.1) == entry.0
  }

  ghost predicate Matches(p: Probe, o: nat)
    requires p.Valid()
  {
    o < |p.corpus.names| && Candidate(p, o) && Score(p, o) > 0.0
  }

  /** The results are the whole answer, best first. */
  ghost predicate Complete(p: Probe, results: seq<Entry<string>>)
    requires p.Valid()
  {
    exists best :: IsAnswer(p, best) && IsListing(results, best, {})
  }

  /** The results begin the whole answer, and are said to be exhausted exactly when nothing comes after them. */
  ghost predicate Begins(p: Probe, results: seq<Entry<string>>, exhausted: bool)
    requires p.Valid()
  {
    exists full :: Complete(p, full) && results <= full && (exhausted <==> |results| == |full|)
  }

  /** Score the candidates, drop those that score nothing, and file the rest under their identities. */
  method Resolve(p: Probe, candidates: set<nat>) returns (best: Best)
    requires p.Valid() && forall o :: o in candidates <==> Candidate(p, o)
    ensures IsAnswer(p, best)
  {
    hide Candidate, Score, Distinct;
    best := map[];
    var todo := candidates;
    while todo != {}
      invariant todo <= candidates
      invariant forall b :: b in best ==> Names(p, b, best[b]) && best[b].1 !in todo
      invariant forall o: nat :: Matches(p, o) && o !in todo ==> p.corpus.names[o] in best
      decreases |todo|
    {
      var o :| o in todo;
      var score := ScoreOf(p, o);
      if o < |p.corpus.names| && score > 0.0 {
        best := best[p.corpus.names[o] := (score, o)];
      }
      todo := todo - {o};
    }
  }

  /** The lookup: the answer, cut to the limit if there is one, and whether nothing was cut. */
  method Lookup(p: Probe, limit: int) returns (results: seq<Entry<string>>, exhausted: bool)
    requires p.Valid()
    ensures Begins(p, results, exhausted)
    ensures exhausted ==> Complete(p, results)
    ensures !exhausted ==> |results| == limit
  {
    hide Candidate, IsAnswer, IsListing;
    var candidates := Candidates(p);
    var best := Resolve(p, candidates);
    var full := Rank(best, {});
    assert Complete(p, full);
    exhausted := limit <= 0 || |full| <= limit;
    results := if exhausted then full else full[..limit];
  }
}
