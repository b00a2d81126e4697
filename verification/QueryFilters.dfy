/** What the block-level filters admit: the dates a scan returns, never more when narrowed, each field in its turn. */
module QueryFilters {
  import opened Wrappers
  import opened Ordering
  import opened Fusion
  import opened Bundle
  import BTreeIndex

  // ---- The window of dates ------------------------------------------------------------------

  const NO_FILTERS := Filters("", {}, "", "", {}, {})

  const OCCURRED_AT := "occurred_at"

  /** Nothing is asked for but an interval of dates. */
  predicate OnlyDates(f: Filters) {
    f == NO_FILTERS.(since := f.since, until := f.until) && (f.since != "" || f.until != "")
  }

  function Bound(date: string): Option<string> {
    if date == "" then None else Some(date)
  }

  /** The range query a date scan asks. */
  function Window(f: Filters, descending: bool): BTreeIndex.RangeQuery {
    BTreeIndex.RangeQuery(Bound(f.since), Bound(f.until), "", descending, None)
  }

  /** The pairs of an index are the dates of these blocks. */
  ghost predicate IndexesDates(pairs: seq<BTreeIndex.Pair>, blocks: map<nat, Content>) {
    forall p :: p in pairs <==> p.owner in blocks && p.value == blocks[p.owner].occurredAt
  }

  lemma {:induction false} OwnersHold(ps: seq<BTreeIndex.Pair>, o: nat)
    ensures o in BTreeIndex.Owners(ps) <==> exists p :: p in ps && p.owner == o
  {
    var owners := BTreeIndex.Owners(ps);
    if p :| p in ps && p.owner == o {
      var i :| 0 <= i < |ps| && ps[i] == p;
      assert owners[i] == o;
    }
    if o in owners {
      var i :| 0 <= i < |owners| && owners[i] == o;
      assert ps[i] in ps;
    }
  }

  /** A scan returns exactly the owners of the pairs that match. */
  lemma AnswerHolds(q: BTreeIndex.RangeQuery, pairs: seq<BTreeIndex.Pair>, o: nat)
    ensures o in BTreeIndex.Answer(q, pairs) <==> exists p :: p in pairs && BTreeIndex.Matches(q, p) && p.owner == o
  {
    hide BTreeIndex.Matches;
    var matching := Filter(BTreeIndex.Asked(q), pairs);
    OwnersHold(Sort(BTreeIndex.OrderOf(q), matching), o);
    forall p
      ensures p in Sort(BTreeIndex.OrderOf(q), matching) <==> p in pairs && BTreeIndex.Matches(q, p)
    {
      SortHolds(BTreeIndex.OrderOf(q), matching, p);
      FilterHolds(BTreeIndex.Asked(q), pairs, p);
    }
  }

  /**
    A date scan returns exactly the blocks the filters admit, but for a block with an empty date: the filters exclude
    it, and a scan without a lower bound returns it.
  */
  lemma DateScanIffAdmitted(
    f: Filters, descending: bool, pairs: seq<BTreeIndex.Pair>, blocks: map<nat, Content>, o: nat)
    requires OnlyDates(f) && IndexesDates(pairs, blocks) && o in blocks
    ensures o in BTreeIndex.Answer(Window(f, descending), pairs) <==>
      MatchesFilters(f, blocks[o]) || (blocks[o].occurredAt == "" && f.since == "")
    ensures blocks[o].occurredAt == "" ==> !MatchesFilters(f, blocks[o])
  {
    var q := Window(f, descending);
    AnswerHolds(q, pairs, o);
    var own := BTreeIndex.Pair(blocks[o].occurredAt, o);
    assert own in pairs;
    assert forall p :: p in pairs && p.owner == o ==> p == own;
    assert BTreeIndex.Matches(q, own) <==>
      (f.since != "" ==> StringLeq(f.since, own.value)) && (f.until != "" ==> StringLeq(own.value, f.until));
    assert f.since != "" && own.value == "" ==> !StringLeq(f.since, own.value);
    assert own.value == "" ==> StringLeq(own.value, f.until);
  }

  /** The scan itself: the dated blocks it returns are exactly those the filters admit. */
  method ScanDates(index: BTreeIndex.Index, f: Filters, ghost blocks: map<nat, Content>) returns (found: seq<nat>)
    requires index.Valid() && OnlyDates(f) && IndexesDates(index.PairsOf(OCCURRED_AT), blocks)
    ensures forall o :: o in blocks && blocks[o].occurredAt != "" ==> (o in found <==> MatchesFilters(f, blocks[o]))
  {
    hide MatchesFilters, OnlyDates, IndexesDates, BTreeIndex.Answer;
    found := index.Scan(OCCURRED_AT, Window(f, true));
    forall o | o in blocks && blocks[o].occurredAt != ""
      ensures o in found <==> MatchesFilters(f, blocks[o])
    {
      DateScanIffAdmitted(f, true, index.PairsOf(OCCURRED_AT), blocks, o);
    }
  }

  // ---- Narrowing --------------------------------------------------------------------------------

  /** The second asks for at least as much in every field. */
  predicate Narrower(f: Filters, g: Filters) {
    && (f.subject != "" ==> g.subject == f.subject)
    && f.tags <= g.tags
    && (f.since != "" ==> g.since != "" && StringLeq(f.since, g.since))
    && (f.until != "" ==> g.until != "" && StringLeq(g.until, f.until))
    && f.evidence <= g.evidence
    && f.classes <= g.classes
  }

  lemma NarrowingMatchesNoMore(f: Filters, g: Filters, c: Content)
    requires Narrower(f, g) && MatchesFilters(g, c)
    ensures MatchesFilters(f, c)
  {
    if f.since != "" { StringTransitive(f.since, g.since, c.occurredAt); }
    if f.until != "" { StringTransitive(c.occurredAt, g.until, f.until); }
  }

  lemma NarrowingCatalogsNoMore(s: Scope, g: Filters, c: Content)
    requires Narrower(s.filters, g) && MatchesCatalog(s.(filters := g), c)
    ensures MatchesCatalog(s, c)
  {
    if s.filters.classes != {} {
      assert g.classes != {};
      var source :| source in c.cited && Eligible(s.(filters := g), source);
      assert Eligible(s, source);
    }
  }

  lemma NarrowingHasFilters(f: Filters, g: Filters)
    requires Narrower(f, g) && HasFilters(f)
    ensures HasFilters(g)
  {
  }

  lemma NarrowingPassesNoMore(s: Scope, g: Filters, m: Module, id: string)
    requires Narrower(s.filters, g) && Passes(s.(filters := g), m, id)
    ensures Passes(s, m, id)
  {
    hide MatchesFilters, MatchesCatalog;
    NarrowingMatchesNoMore(s.filters, g, m.blocks[id]);
    NarrowingCatalogsNoMore(s, g, m.blocks[id]);
  }

  /** A block that proves into its first owner but has no bytes is named exactly when nothing at all is asked of it. */
  lemma {:induction false} UnreadableIsNamedIff(s: Scope, id: string, origins: seq<string>, i: nat, k: nat)
    requires i <= k < |s.modules| && id in s.modules[k].members && id in s.modules[k].provable
    requires id !in s.modules[k].resolvable && forall j :: i <= j < k ==> id !in s.modules[j].members
    ensures VerdictFrom(s, id, origins, i).Admitted? <==>
      s.filters == NO_FILTERS && (EXACT_LOOKUP in origins || GRAPH_EXPAND in origins)
    decreases k - i
  {
    if i < k { UnreadableIsNamedIff(s, id, origins, i + 1, k); }
  }

  /** Narrowing the filters never admits a candidate that was excluded, and never changes how one is admitted. */
  lemma {:induction false} NarrowingAdmitsNoMoreFrom(s: Scope, g: Filters, id: string, origins: seq<string>, i: nat)
    requires i <= |s.modules| && Narrower(s.filters, g)
    requires VerdictFrom(s.(filters := g), id, origins, i).Admitted?
    ensures VerdictFrom(s, id, origins, i) == VerdictFrom(s.(filters := g), id, origins, i)
    decreases |s.modules| - i
  {
    hide MatchesFilters, MatchesCatalog, Narrower, HasFilters;
    if i < |s.modules| {
      if id in s.modules[i].members {
        if HasFilters(s.filters) { NarrowingHasFilters(s.filters, g); }
        if Passes(s.(filters := g), s.modules[i], id) { NarrowingPassesNoMore(s, g, s.modules[i], id); }
      } else {
        NarrowingAdmitsNoMoreFrom(s, g, id, origins, i + 1);
      }
    }
  }

  /** So the bundle of a narrower query over the same candidates holds nothing that the wider one left out. */
  lemma {:induction false} NarrowingKeepsNoMore(s: Scope, g: Filters, pool: Pool, scored: seq<Scored>, id: string)
    requires Narrower(s.filters, g) && id in Kept(s.(filters := g), pool, scored)
    ensures id in Kept(s, pool, scored)
    decreases |scored|
  {
    if scored != [] {
      var n := |scored| - 1;
      var last := scored[n].block;
      if id in Kept(s.(filters := g), pool, scored[..n]) {
        NarrowingKeepsNoMore(s, g, pool, scored[..n], id);
      } else {
        assert Admits(s.(filters := g), pool, last) && id == last;
        NarrowingAdmitsNoMoreFrom(s, g, last, OriginsOf(pool, last), 0);
      }
    }
  }

  // ---- Every field in its turn --------------------------------------------------------------------

  /** The content a filter describes: its own subject, tags and evidence, at one end of its interval. */
  function Described(f: Filters, cited: set<string>): Content {
    Content(f.subject, f.tags, if f.since != "" then f.since else f.until, f.evidence, cited)
  }

  lemma StringReflexive(a: string)
    ensures StringLeq(a, a)
  {
    StringTotal(a, a);
  }

  lemma DescribedMatches(f: Filters, cited: set<string>)
    requires f.since != "" && f.until != "" ==> StringLeq(f.since, f.until)
    ensures MatchesFilters(f, Described(f, cited))
  {
    StringReflexive(f.since);
    StringReflexive(f.until);
  }

  lemma {:induction false} LongerIsLater(a: string, x: char)
    ensures StringLeq(a, a + [x]) && !StringLeq(a + [x], a)
    decreases |a|
  {
    if a != [] {
      LongerIsLater(a[1..], x);
      assert (a + [x])[1..] == a[1..] + [x];
    }
  }

  /** Blocks that one field of a filter excludes and the others admit. */
  ghost predicate ExcludedOnlyBy(f: Filters, cleared: Filters, c: Content) {
    !MatchesFilters(f, c) && MatchesFilters(cleared, c)
  }

  /**
    Each field decides by itself: whatever the others ask for, there are blocks that they admit and that the field
    excludes. A later date than the last and an earlier one than the first; another subject; a tag or a piece of
    evidence that is missing.
  */
  lemma EachFieldExcludes(f: Filters)
    requires f.since != "" && f.until != "" ==> StringLeq(f.since, f.until)
    ensures f.subject != "" ==> exists c :: ExcludedOnlyBy(f, f.(subject := ""), c)
    ensures f.until != "" ==> exists c: Content :: c.occurredAt != "" && ExcludedOnlyBy(f, f.(until := ""), c)
    ensures |f.since| > 1 ==> exists c: Content :: c.occurredAt != "" && ExcludedOnlyBy(f, f.(since := ""), c)
    ensures forall tag :: tag in f.tags ==> exists c :: ExcludedOnlyBy(f, f.(tags := f.tags - {tag}), c)
    ensures forall e :: e in f.evidence ==> exists c :: ExcludedOnlyBy(f, f.(evidence := f.evidence - {e}), c)
  {
    var d := Described(f, {});
    DescribedMatches(f, {});
    if f.subject != "" {
      assert ExcludedOnlyBy(f, f.(subject := ""), d.(subject := f.subject + "x"));
    }
    if f.until != "" { LaterIsExcluded(f); }
    if |f.since| > 1 { EarlierIsExcluded(f); }
    forall tag | tag in f.tags
      ensures exists c :: ExcludedOnlyBy(f, f.(tags := f.tags - {tag}), c)
    {
      assert ExcludedOnlyBy(f, f.(tags := f.tags - {tag}), d.(tags := f.tags - {tag}));
    }
    forall e | e in f.evidence
      ensures exists c :: ExcludedOnlyBy(f, f.(evidence := f.evidence - {e}), c)
    {
      assert ExcludedOnlyBy(f, f.(evidence := f.evidence - {e}), d.(evidence := f.evidence - {e}));
    }
  }

  lemma LaterIsExcluded(f: Filters)
    requires f.until != "" && (f.since != "" ==> StringLeq(f.since, f.until))
    ensures exists c: Content :: c.occurredAt != "" && ExcludedOnlyBy(f, f.(until := ""), c)
  {
    var after := f.until + "x";
    LongerIsLater(f.until, 'x');
    if f.since != "" { StringTransitive(f.since, f.until, after); }
    assert ExcludedOnlyBy(f, f.(until := ""), Described(f, {}).(occurredAt := after));
  }

  lemma EarlierIsExcluded(f: Filters)
    requires |f.since| > 1 && (f.until != "" ==> StringLeq(f.since, f.until))
    ensures exists c: Content :: c.occurredAt != "" && ExcludedOnlyBy(f, f.(since := ""), c)
  {
    var n := |f.since| - 1;
    var before := f.since[..n];
    assert f.since == before + [f.since[n]];
    LongerIsLater(before, f.since[n]);
    if f.until != "" { StringTransitive(before, f.since, f.until); }
    assert ExcludedOnlyBy(f, f.(since := ""), Described(f, {}).(occurredAt := before));
  }

  /** A requested class excludes by itself what cites only sources that class does not list. */
  lemma EachClassExcludes(s: Scope, k: string, c: Content)
    requires k in s.filters.classes
    requires forall source :: source in c.cited ==> k !in s.catalog || source !in s.catalog[k]
    ensures !MatchesCatalog(s, c)
  {
  }

  /** And a source that all requested classes list is enough. */
  lemma OneEligibleSourceIsEnough(s: Scope, c: Content, source: string)
    requires source in c.cited && forall k :: k in s.filters.classes ==> k in s.catalog && source in s.catalog[k]
    ensures MatchesCatalog(s, c)
  {
    assert Eligible(s, source);
  }
}
