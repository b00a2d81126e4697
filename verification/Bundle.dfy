/**
  The fixed tail of a query: hide what is superseded, apply the residual filters, cut to a reserve, verify one by
  one until the limit, and say whether anything may be missing.
*/
module Bundle {
  import opened Wrappers
  import opened Ordering
  import opened Fusion

  /** The fields of a payload that filters read; an empty string or set stands for an absent one. */
  datatype Content = Content(
    subject: string, tags: set<string>, occurredAt: string, evidence: set<string>, cited: set<string>)

  /** An installed module: its members, those that prove into its root, those with bytes, and what `get` returns. */
  datatype Module = Module(
    members: set<string>, provable: set<string>, resolvable: set<string>, blocks: map<string, Content>)

  datatype Filters = Filters(
    subject: string, tags: set<string>, since: string, until: string, evidence: set<string>, classes: set<string>)

  datatype Scope = Scope(
    modules: seq<Module>,
    filters: Filters,
    catalog: map<string, set<string>>,
    includeSuperseded: bool,
    superseded: set<string>)

  datatype Reason = VerificationFailed | IndexStale

  datatype Degradation = Degradation(reason: Reason, block: string)

  /** A candidate is returned, or dropped with or without a degradation to show for it. */
  datatype Verdict = Admitted(resolvable: bool) | Dropped(note: Option<Degradation>)

  datatype Match = Match(block: string, score: real, resolvable: bool)

  datatype Evidences = Evidences(matches: seq<Match>, truncated: bool)

  // ---- Filters ---------------------------------------------------------------------

  predicate HasFilters(f: Filters) {
    f.subject != "" || f.tags != {} || f.since != "" || f.until != "" || f.classes != {} || f.evidence != {}
  }

  predicate MatchesFilters(f: Filters, c: Content) {
    && (f.subject != "" ==> c.subject == f.subject)
    && f.tags <= c.tags
    && (f.since != "" ==> c.occurredAt != "" && StringLeq(f.since, c.occurredAt))
    && (f.until != "" ==> c.occurredAt != "" && StringLeq(c.occurredAt, f.until))
    && f.evidence <= c.evidence
  }

  /** A source that every requested class lists. */
  predicate Eligible(s: Scope, source: string) {
    forall k :: k in s.filters.classes ==> k in s.catalog && source in s.catalog[k]
  }

  predicate MatchesCatalog(s: Scope, c: Content) {
    s.filters.classes == {} || exists source :: source in c.cited && Eligible(s, source)
  }

  predicate Passes(s: Scope, m: Module, id: string) {
    id in m.blocks && MatchesFilters(s.filters, m.blocks[id]) && MatchesCatalog(s, m.blocks[id])
  }

  predicate Accessible(s: Scope, id: string) {
    s.includeSuperseded || id !in s.superseded
  }

  // ---- Verifying one candidate -------------------------------------------------------

  /** Reached by identity or by association, so that even a block without bytes may be named. */
  predicate Admissible(origins: seq<string>) {
    EXACT_LOOKUP in origins || GRAPH_EXPAND in origins
  }

  /** What the first module that holds the block decides. */
  function VerdictIn(s: Scope, m: Module, id: string, origins: seq<string>): Verdict {
    if id !in m.provable then Dropped(Some(Degradation(VerificationFailed, id)))
    else if id !in m.resolvable then
      if !Admissible(origins) then Dropped(Some(Degradation(IndexStale, id)))
      else if HasFilters(s.filters) then Dropped(None)
      else Admitted(false)
    else if id !in m.blocks then Dropped(Some(Degradation(VerificationFailed, id)))
    else if MatchesFilters(s.filters, m.blocks[id]) && MatchesCatalog(s, m.blocks[id]) then Admitted(true)
    else Dropped(None)
  }

  function VerdictFrom(s: Scope, id: string, origins: seq<string>, i: nat): Verdict
    requires i <= |s.modules|
    decreases |s.modules| - i
  {
    if i == |s.modules| then Dropped(None)
    else if id in s.modules[i].members then VerdictIn(s, s.modules[i], id, origins)
    else VerdictFrom(s, id, origins, i + 1)
  }

  function VerdictOf(s: Scope, id: string, origins: seq<string>): Verdict {
    VerdictFrom(s, id, origins, 0)
  }

  /** Resolve one candidate far enough to apply the residual predicates: the first module that can read it decides. */
  predicate ResidualFrom(s: Scope, id: string, i: nat)
    requires i <= |s.modules|
    decreases |s.modules| - i
  {
    if i == |s.modules| then false
    else if id in s.modules[i].members && id in s.modules[i].resolvable then Passes(s, s.modules[i], id)
    else ResidualFrom(s, id, i + 1)
  }

  predicate Residual(s: Scope, id: string) {
    ResidualFrom(s, id, 0)
  }

  /** The first module that can read the block decides, and where none can the block is removed. */
  lemma {:induction false} ResidualIff(s: Scope, id: string, i: nat)
    requires i <= |s.modules|
    ensures ResidualFrom(s, id, i) <==>
      exists k :: i <= k < |s.modules| && Reads(s, id, k) && Passes(s, s.modules[k], id)
                  && forall j :: i <= j < k ==> !Reads(s, id, j)
    decreases |s.modules| - i
  {
    if i < |s.modules| && !Reads(s, id, i) {
      ResidualIff(s, id, i + 1);
    }
  }

  predicate Reads(s: Scope, id: string, k: nat) {
    k < |s.modules| && id in s.modules[k].members && id in s.modules[k].resolvable
  }

  /** The residual filter removes nothing that verification would have kept. */
  lemma {:induction false} ResidualIsRedundantFrom(s: Scope, id: string, origins: seq<string>, i: nat)
    requires i <= |s.modules| && HasFilters(s.filters) && VerdictFrom(s, id, origins, i).Admitted?
    ensures ResidualFrom(s, id, i)
    decreases |s.modules| - i
  {
    if i < |s.modules| && id !in s.modules[i].members {
      ResidualIsRedundantFrom(s, id, origins, i + 1);
    }
  }

  lemma {:induction false} AdmittedIsHeldFrom(s: Scope, id: string, origins: seq<string>, i: nat)
    requires i <= |s.modules| && VerdictFrom(s, id, origins, i).Admitted?
    ensures exists k :: i <= k < |s.modules| && HoldsFrom(s, id, origins, i, k)
    decreases |s.modules| - i
  {
    if id in s.modules[i].members {
      assert HoldsFrom(s, id, origins, i, i);
    } else {
      AdmittedIsHeldFrom(s, id, origins, i + 1);
      var k :| i + 1 <= k < |s.modules| && HoldsFrom(s, id, origins, i + 1, k);
      assert HoldsFrom(s, id, origins, i, k);
    }
  }

  /**
    From module `i` on, module `k` is the block's first owner, the block proves into it, and its payload passes or may
    be named without.
  */
  ghost predicate HoldsFrom(s: Scope, id: string, origins: seq<string>, i: nat, k: nat) {
    && i <= k < |s.modules|
    && (forall j :: i <= j < k ==> id !in s.modules[j].members)
    && id in s.modules[k].members && id in s.modules[k].provable
    && (if id in s.modules[k].resolvable then Passes(s, s.modules[k], id)
        else Admissible(origins) && !HasFilters(s.filters))
  }

  /** Nothing is returned that does not prove into its first owner, or that a filter excludes. */
  lemma AdmittedIsHeld(s: Scope, id: string, origins: seq<string>)
    requires VerdictOf(s, id, origins).Admitted?
    ensures exists k :: 0 <= k < |s.modules| && HoldsFrom(s, id, origins, 0, k)
  {
    AdmittedIsHeldFrom(s, id, origins, 0);
  }

  // ---- The tail as a whole -------------------------------------------------------------

  predicate Survives(s: Scope, residual: bool, id: string) {
    Accessible(s, id) && (residual ==> Residual(s, id))
  }

  function Survivors(s: Scope, residual: bool, scored: seq<Scored>): seq<Scored> {
    Filter((x: Scored) => Survives(s, residual, x.block), scored)
  }

  function OriginsOf(pool: Pool, id: string): seq<string> {
    HeldIn(pool, id).origins
  }

  predicate Admits(s: Scope, pool: Pool, id: string) {
    VerdictOf(s, id, OriginsOf(pool, id)).Admitted?
  }

  function MatchOf(s: Scope, pool: Pool, x: Scored): Match
    requires Admits(s, pool, x.block)
  {
    Match(x.block, x.total, VerdictOf(s, x.block, OriginsOf(pool, x.block)).resolvable)
  }

  /** The matches of a scored list, in its order. */
  function Verified(s: Scope, pool: Pool, scored: seq<Scored>): seq<Match> {
    if scored == [] then [] else
      var x := scored[|scored| - 1];
      Verified(s, pool, scored[..|scored| - 1]) + (if Admits(s, pool, x.block) then [MatchOf(s, pool, x)] else [])
  }

  /** The blocks of a scored list that may be seen and that verify, in its order. */
  function Kept(s: Scope, pool: Pool, scored: seq<Scored>): seq<string> {
    if scored == [] then [] else
      var id := scored[|scored| - 1].block;
      Kept(s, pool, scored[..|scored| - 1]) + (if Accessible(s, id) && Admits(s, pool, id) then [id] else [])
  }

  /** What is kept verifies, and is superseded only where that was asked for; and all of that is kept. */
  lemma {:induction false} KeptIff(s: Scope, pool: Pool, scored: seq<Scored>, id: string)
    ensures id in Kept(s, pool, scored) <==>
      && (id in s.superseded ==> s.includeSuperseded)
      && VerdictOf(s, id, OriginsOf(pool, id)).Admitted?
      && exists x :: x in scored && x.block == id
  {
    if scored != [] {
      var n := |scored| - 1;
      KeptIff(s, pool, scored[..n], id);
      assert scored == scored[..n] + [scored[n]];
      assert forall x :: x in scored <==> x in scored[..n] || x == scored[n];
    }
  }

  function Blocks(matches: seq<Match>): (ids: seq<string>)
    ensures |ids| == |matches|
  {
    if matches == [] then [] else Blocks(matches[..|matches| - 1]) + [matches[|matches| - 1].block]
  }

  lemma BlocksGrow(matches: seq<Match>, m: Match)
    ensures Blocks(matches + [m]) == Blocks(matches) + [m.block]
  {
    assert (matches + [m])[..|matches|] == matches;
  }

  /** Hiding and the residual filter do not change what is kept. */
  lemma {:induction false} SurvivorsKeep(s: Scope, residual: bool, pool: Pool, scored: seq<Scored>)
    requires residual ==> HasFilters(s.filters)
    ensures Kept(s, pool, Survivors(s, residual, scored)) == Kept(s, pool, scored)
    decreases |scored|
  {
    if scored != [] {
      var init, x := scored[..|scored| - 1], scored[|scored| - 1];
      assert scored == init + [x];
      SurvivorsKeep(s, residual, pool, init);
      if residual && Admits(s, pool, x.block) {
        ResidualIsRedundantFrom(s, x.block, OriginsOf(pool, x.block), 0);
      }
    }
  }

  /** Among survivors, keeping is verifying; scores make no difference. */
  lemma {:induction false} VerifiedAreKept(s: Scope, pool: Pool, scored: seq<Scored>, rescored: seq<Scored>)
    requires |rescored| == |scored| && forall i :: 0 <= i < |scored| ==> rescored[i].block == scored[i].block
    requires forall x :: x in scored ==> Accessible(s, x.block)
    ensures Blocks(Verified(s, pool, rescored)) == Kept(s, pool, scored)
    decreases |scored|
  {
    if scored != [] {
      var n := |scored| - 1;
      assert scored[n] in scored;
      VerifiedAreKept(s, pool, scored[..n], rescored[..n]);
      if Admits(s, pool, rescored[n].block) {
        BlocksGrow(Verified(s, pool, rescored[..n]), MatchOf(s, pool, rescored[n]));
      } else {
        assert Verified(s, pool, rescored) == Verified(s, pool, rescored[..n]);
      }
    }
  }

  lemma {:induction false} KeptOfPrefix(s: Scope, pool: Pool, scored: seq<Scored>, n: nat)
    requires n <= |scored|
    ensures Kept(s, pool, scored[..n]) <= Kept(s, pool, scored)
    decreases |scored|
  {
    if n == |scored| {
      assert scored[..n] == scored;
    } else {
      var m := |scored| - 1;
      KeptOfPrefix(s, pool, scored[..m], n);
      assert scored[..m][..n] == scored[..n];
    }
  }

  /** The survivors that fit the reserve. */
  function Reserve(s: Scope, residual: bool, limit: nat, scored: seq<Scored>): seq<Scored> {
    var survivors := Survivors(s, residual, scored);
    if |survivors| > 2 * limit then survivors[..2 * limit] else survivors
  }

  /** What `_finalize` makes of a fused list when it looks at the first `n` of the reserve. */
  ghost predicate FinalizedAt(
    s: Scope, residual: bool, limit: nat, pool: Pool, scored: seq<Scored>, exhausted: bool, bundle: Evidences, n: nat)
  {
    var top := Reserve(s, residual, limit, scored);
    && n <= |top|
    && bundle.matches == Verified(s, pool, Normalized(top)[..n])
    && |bundle.matches| <= limit
    && (n < |top| ==> |bundle.matches| == limit)
    && (bundle.truncated <==> !exhausted || |Survivors(s, residual, scored)| > 2 * limit || n < |top|)
  }

  ghost predicate Finalized(
    s: Scope, residual: bool, limit: nat, pool: Pool, scored: seq<Scored>, exhausted: bool, bundle: Evidences)
  {
    exists n: nat :: FinalizedAt(s, residual, limit, pool, scored, exhausted, bundle, n)
  }

  /**
    The bundle is always the beginning of the complete answer in fused order, never longer than the limit; and when
    it does not say it is truncated, it is the complete answer, and every generator was exhausted.
  */
  lemma TruncatedIsHonest(
    s: Scope, residual: bool, limit: nat, pool: Pool, scored: seq<Scored>, exhausted: bool, bundle: Evidences)
    requires Finalized(s, residual, limit, pool, scored, exhausted, bundle) && (residual ==> HasFilters(s.filters))
    ensures |bundle.matches| <= limit
    ensures Blocks(bundle.matches) <= Kept(s, pool, scored)
    ensures !bundle.truncated ==> exhausted && Blocks(bundle.matches) == Kept(s, pool, scored)
  {
    hide Kept, Verified, Normalized, Survives;
    var survivors, top := Survivors(s, residual, scored), Reserve(s, residual, limit, scored);
    var n: nat :| FinalizedAt(s, residual, limit, pool, scored, exhausted, bundle, n);
    SurvivorsKeep(s, residual, pool, scored);
    TopIsAccessible(s, residual, scored, top[..n]);
    NormalizedKeepsBlocks(top);
    VerifiedAreKept(s, pool, top[..n], Normalized(top)[..n]);
    KeptOfPrefix(s, pool, top, n);
    if |survivors| > 2 * limit {
      KeptOfPrefix(s, pool, survivors, 2 * limit);
    }
    assert n == |top| ==> top[..n] == top;
  }

  /**
    The reserve makes up for candidates that fail: the bundle is the first `limit` of those among the first `2 * limit`
    survivors that verify, so it is short only when fewer than that do.
  */
  lemma ReserveMakesUp(
    s: Scope, residual: bool, limit: nat, pool: Pool, scored: seq<Scored>, exhausted: bool, bundle: Evidences)
    requires Finalized(s, residual, limit, pool, scored, exhausted, bundle)
    ensures
      var survivors := Survivors(s, residual, scored);
      var kept := Kept(s, pool, survivors[..if |survivors| > 2 * limit then 2 * limit else |survivors|]);
      && Blocks(bundle.matches) <= kept && |bundle.matches| <= limit
      && (|bundle.matches| < limit ==> Blocks(bundle.matches) == kept)
  {
    hide Kept, Verified, Normalized, Survives;
    var survivors, top := Survivors(s, residual, scored), Reserve(s, residual, limit, scored);
    var n: nat :| FinalizedAt(s, residual, limit, pool, scored, exhausted, bundle, n);
    assert survivors[..|survivors|] == survivors;
    TopIsAccessible(s, residual, scored, top[..n]);
    NormalizedKeepsBlocks(top);
    VerifiedAreKept(s, pool, top[..n], Normalized(top)[..n]);
    KeptOfPrefix(s, pool, top, n);
    assert n == |top| ==> top[..n] == top;
  }

  lemma TopIsAccessible(s: Scope, residual: bool, scored: seq<Scored>, top: seq<Scored>)
    requires forall x :: x in top ==> x in Survivors(s, residual, scored)
    ensures forall x :: x in top ==> Accessible(s, x.block)
  {
    forall x | x in top
      ensures Accessible(s, x.block)
    {
      FilterHolds((y: Scored) => Survives(s, residual, y.block), scored, x);
    }
  }

  lemma NormalizedKeepsBlocks(scored: seq<Scored>)
    ensures forall i :: 0 <= i < |scored| ==> Normalized(scored)[i].block == scored[i].block
  {
  }
}
