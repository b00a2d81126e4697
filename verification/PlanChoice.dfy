/**
  Choosing a plan: a validity rule that is never traded, a recall floor capped at what is achievable, and a weighted
  objective over what remains. Cost and recall estimates are inputs.
*/
module PlanChoice {
  import opened Wrappers
  import opened Ordering

  /** The operators that count as generators; an exact lookup is none of them. */
  datatype Op = TermScan | VectorSearch | BruteVector | GraphExpand | SeqScan | DateScan

  /** A candidate plan: its signature, the operators of its generators, and what it is estimated to cost and find. */
  datatype Plan = Plan(signature: string, generators: seq<Op>, cost: real, recall: real)

  const TOLERANCE := 0.000000001

  // ---- The validity rule ---------------------------------------------------------------

  function Kinds(p: Plan): set<Op> {
    set op | op in p.generators
  }

  /** No single generator is authoritative when two are available, except for exact lookups and exhaustive scans. */
  predicate Admissible(p: Plan, available: nat, exactIntent: bool) {
    exactIntent || Kinds(p) == {SeqScan} || Kinds(p) == {DateScan} || available < 2 || |Kinds(p)| >= 2
  }

  /** Some two of its generators differ. */
  ghost predicate HasTwoOpinions(p: Plan) {
    exists a, b :: a in p.generators && b in p.generators && a != b
  }

  ghost predicate IsAll(p: Plan, scan: Op) {
    p.generators != [] && forall op :: op in p.generators ==> op == scan
  }

  /** Its generators read all blocks, so that none is an authority. */
  ghost predicate ReadsEverything(p: Plan) {
    IsAll(p, SeqScan) || IsAll(p, DateScan)
  }

  lemma TwoKindsIff(p: Plan)
    ensures |Kinds(p)| >= 2 <==> HasTwoOpinions(p)
  {
    var kinds := Kinds(p);
    if |kinds| >= 2 {
      var a :| a in kinds;
      assert |kinds - {a}| >= 1;
      var b :| b in kinds - {a};
      assert a in p.generators && b in p.generators;
    }
    if a, b :| a in p.generators && b in p.generators && a != b {
      assert {a, b} <= kinds;
      SubsetIsSmaller({a, b}, kinds);
    }
  }

  /**
    A plan is excluded exactly when the intent is not exact, two generators are available, and the plan rests on at most
    one kind of them without reading everything.
  */
  lemma ExcludedIff(p: Plan, available: nat, exactIntent: bool)
    ensures !Admissible(p, available, exactIntent) <==>
      !exactIntent && available >= 2 && !HasTwoOpinions(p) && !ReadsEverything(p)
  {
    TwoKindsIff(p);
    OneKindIff(p, SeqScan);
    OneKindIff(p, DateScan);
    hide Kinds, HasTwoOpinions, IsAll;
  }

  lemma OneKindIff(p: Plan, scan: Op)
    ensures Kinds(p) == {scan} <==> IsAll(p, scan)
  {
    if p.generators != [] {
      assert p.generators[0] in Kinds(p);
    }
    if Kinds(p) == {scan} {
      assert scan in Kinds(p);
      forall op | op in p.generators
        ensures op == scan
      {
        assert op in Kinds(p);
      }
    }
  }

  predicate UsesAnIndex(p: Plan) {
    exists op :: op in p.generators && op != SeqScan
  }

  // ---- The floor --------------------------------------------------------------------------

  /** The best recall of any valid plan that uses an index; zero when there is none. */
  ghost predicate IsIndexedBest(plans: seq<Plan>, available: nat, exactIntent: bool, best: real) {
    && (forall p :: p in plans && Admissible(p, available, exactIntent) && UsesAnIndex(p) ==> p.recall <= best)
    && (best == 0.0 || exists p ::
          p in plans && Admissible(p, available, exactIntent) && UsesAnIndex(p) && p.recall == best)
  }

  function Floor(intended: real, indexedBest: real): real {
    if indexedBest == 0.0 then 0.0 else if intended <= indexedBest then intended else indexedBest
  }

  predicate Feasible(p: Plan, available: nat, exactIntent: bool, floor: real) {
    Admissible(p, available, exactIntent) && p.recall >= floor - TOLERANCE
  }

  ghost predicate Estimated(plans: seq<Plan>) {
    forall p :: p in plans ==> 0.0 <= p.recall <= 1.0
  }

  /** The capped floor never empties the choice. */
  lemma FloorKeepsAPlan(plans: seq<Plan>, available: nat, exactIntent: bool, intended: real, best: real)
    requires Estimated(plans) && IsIndexedBest(plans, available, exactIntent, best)
    requires exists p :: p in plans && Admissible(p, available, exactIntent)
    ensures exists p :: p in plans && Feasible(p, available, exactIntent, Floor(intended, best))
  {
    if best == 0.0 {
      var p :| p in plans && Admissible(p, available, exactIntent);
      assert Feasible(p, available, exactIntent, 0.0);
    } else {
      var p :| p in plans && Admissible(p, available, exactIntent) && UsesAnIndex(p) && p.recall == best;
      assert Feasible(p, available, exactIntent, Floor(intended, best));
    }
  }

  // ---- The objective --------------------------------------------------------------------

  /** `J = cost + lambda * (1 - recall) * missCost`, where `weight` is `lambda`. */
  function Objective(p: Plan, weight: real, missCost: real): real {
    p.cost + weight * (1.0 - p.recall) * missCost
  }

  predicate Dominates(p: Plan, q: Plan) {
    p.cost <= q.cost && p.recall >= q.recall && (p.cost < q.cost || p.recall > q.recall)
  }

  lemma DominatingScoresLess(p: Plan, q: Plan, weight: real, missCost: real)
    requires Dominates(p, q) && weight * missCost > 0.0
    ensures Objective(p, weight, missCost) < Objective(q, weight, missCost)
  {
    var price := weight * missCost;
    Reorder(weight, 1.0 - p.recall, missCost);
    Reorder(weight, 1.0 - q.recall, missCost);
    var less := q.recall - p.recall;
    Split(price, p.recall, q.recall);
    if p.recall > q.recall {
      Positive(p.recall - q.recall, price);
    }
  }

  lemma Reorder(a: real, b: real, c: real)
    ensures a * b * c == b * (a * c)
  {
  }

  lemma Split(price: real, x: real, y: real)
    ensures (1.0 - y) * price == (1.0 - x) * price + (x - y) * price
  {
  }

  lemma Positive(x: real, y: real)
    requires x > 0.0 && y > 0.0
    ensures x * y > 0.0
  {
  }

  /** The sort key: the objective, then the signature. */
  predicate Before(p: Plan, q: Plan, weight: real, missCost: real) {
    || Objective(p, weight, missCost) < Objective(q, weight, missCost)
    || (Objective(p, weight, missCost) == Objective(q, weight, missCost) && StringLeq(p.signature, q.signature))
  }

  /**
    The exchange rate: one plan is preferred to another exactly while what it costs more stays below `lambda * missCost`
    times what it finds more, or equals it and its signature comes first.
  */
  lemma PreferredIff(p: Plan, q: Plan, weight: real, missCost: real)
    ensures
      var extra, worth := p.cost - q.cost, weight * missCost * (p.recall - q.recall);
      Before(p, q, weight, missCost) <==> extra < worth || (extra == worth && StringLeq(p.signature, q.signature))
  {
    Exchange(weight, missCost, p.recall, q.recall);
    hide StringLeq;
  }

  lemma Exchange(weight: real, missCost: real, x: real, y: real)
    ensures weight * (1.0 - y) * missCost - weight * (1.0 - x) * missCost == weight * missCost * (x - y)
  {
    Reorder(weight, 1.0 - x, missCost);
    Reorder(weight, 1.0 - y, missCost);
    Split(weight * missCost, x, y);
  }

  ghost predicate Least(plans: seq<Plan>, p: Plan, weight: real, missCost: real) {
    p in plans && forall q :: q in plans ==> Before(p, q, weight, missCost)
  }

  lemma BeforeTransits(p: Plan, q: Plan, r: Plan, weight: real, missCost: real)
    requires Before(p, q, weight, missCost) && Before(q, r, weight, missCost)
    ensures Before(p, r, weight, missCost)
  {
    hide StringLeq, Objective;
    if StringLeq(p.signature, q.signature) && StringLeq(q.signature, r.signature) {
      StringTransitive(p.signature, q.signature, r.signature);
    }
  }

  /** The head of the pool once sorted. */
  method First(pool: seq<Plan>, weight: real, missCost: real) returns (p: Plan)
    requires pool != []
    ensures Least(pool, p, weight, missCost)
  {
    hide Before;
    p := pool[0];
    BeforeItself(p, weight, missCost);
    for i := 1 to |pool|
      invariant p in pool && forall k :: 0 <= k < i ==> Before(p, pool[k], weight, missCost)
    {
      BeforeIsTotal(p, pool[i], weight, missCost);
      if !Before(p, pool[i], weight, missCost) {
        forall k | 0 <= k < i + 1
          ensures Before(pool[i], pool[k], weight, missCost)
        {
          if k < i {
            BeforeTransits(pool[i], p, pool[k], weight, missCost);
          } else {
            BeforeItself(pool[i], weight, missCost);
          }
        }
        p := pool[i];
      }
    }
  }

  lemma BeforeItself(p: Plan, weight: real, missCost: real)
    ensures Before(p, p, weight, missCost)
  {
    StringTotal(p.signature, p.signature);
  }

  lemma BeforeIsTotal(p: Plan, q: Plan, weight: real, missCost: real)
    ensures Before(p, q, weight, missCost) || Before(q, p, weight, missCost)
  {
    StringTotal(p.signature, q.signature);
  }

  // ---- The choice -------------------------------------------------------------------------

  ghost predicate AnyAdmissible(plans: seq<Plan>, available: nat, exactIntent: bool) {
    exists p :: p in plans && Admissible(p, available, exactIntent)
  }

  /** What planning promises of the plan it chose. */
  ghost predicate WellChosen(
    plans: seq<Plan>, available: nat, exactIntent: bool, intended: real, floor: real, weight: real, missCost: real,
    p: Plan)
  {
    && p in plans
    && Feasible(p, available, exactIntent, floor)
    && floor <= (if intended >= 0.0 then intended else 0.0)
    && (forall q :: q in plans && Feasible(q, available, exactIntent, floor) ==> Before(p, q, weight, missCost))
  }

  /** The two passes over the candidates: find what is achievable, then keep what reaches the floor. */
  method Choose(plans: seq<Plan>, available: nat, exactIntent: bool, intended: real, weight: real, missCost: real)
    returns (chosen: Plan, floor: real)
    requires plans != [] && Estimated(plans)
    ensures AnyAdmissible(plans, available, exactIntent) ==>
      WellChosen(plans, available, exactIntent, intended, floor, weight, missCost, chosen)
    ensures !AnyAdmissible(plans, available, exactIntent) ==> Least(plans, chosen, weight, missCost)
    ensures exists best :: IsIndexedBest(plans, available, exactIntent, best) && floor == Floor(intended, best)
  {
    hide Before;
    var best := 0.0;
    for i := 0 to |plans|
      invariant IsIndexedBest(plans[..i], available, exactIntent, best) && best >= 0.0
    {
      best := Better(plans, i, available, exactIntent, best);
    }
    assert plans[..|plans|] == plans;
    floor := Floor(intended, best);
    var feasible := Filter((p: Plan) => Feasible(p, available, exactIntent, floor), plans);
    forall p ensures p in feasible <==> p in plans && Feasible(p, available, exactIntent, floor) {
      FilterHolds((q: Plan) => Feasible(q, available, exactIntent, floor), plans, p);
    }
    if AnyAdmissible(plans, available, exactIntent) {
      FloorKeepsAPlan(plans, available, exactIntent, intended, best);
    }
    if feasible != [] {
      chosen := First(feasible, weight, missCost);
      assert chosen in feasible;
    } else {
      chosen := First(plans, weight, missCost);
    }
    if !AnyAdmissible(plans, available, exactIntent) {
      assert forall p :: p in feasible ==> p in plans && Admissible(p, available, exactIntent);
      assert forall p :: p !in feasible;
    }
  }

  /** One step of the running maximum. */
  method Better(plans: seq<Plan>, i: nat, available: nat, exactIntent: bool, best: real) returns (best': real)
    requires i < |plans| && IsIndexedBest(plans[..i], available, exactIntent, best) && best >= 0.0 && Estimated(plans)
    ensures IsIndexedBest(plans[..i + 1], available, exactIntent, best') && best' >= 0.0
  {
    var p := plans[i];
    assert plans[..i + 1] == plans[..i] + [p];
    assert forall q :: q in plans[..i + 1] <==> q in plans[..i] || q == p;
    best' := best;
    if Admissible(p, available, exactIntent) && UsesAnIndex(p) && p.recall > best {
      best' := p.recall;
    }
  }

  /** With a positive price on recall, no valid plan costs no more and finds no less, better in one of the two. */
  lemma ChosenIsUndominated(
    plans: seq<Plan>, available: nat, exactIntent: bool, intended: real, floor: real, weight: real, missCost: real,
    chosen: Plan, p: Plan)
    requires WellChosen(plans, available, exactIntent, intended, floor, weight, missCost, chosen)
    requires weight * missCost > 0.0 && p in plans && Admissible(p, available, exactIntent)
    ensures !Dominates(p, chosen)
  {
    if Dominates(p, chosen) {
      hide Objective, StringLeq;
      DominatingScoresLess(p, chosen, weight, missCost);
    }
  }

  /** The chosen plan never takes one index for an authority while two are to be had. */
  lemma ChosenHasTwoOpinions(
    plans: seq<Plan>, available: nat, exactIntent: bool, intended: real, floor: real, weight: real, missCost: real,
    chosen: Plan)
    requires WellChosen(plans, available, exactIntent, intended, floor, weight, missCost, chosen)
    requires !exactIntent && available >= 2
    ensures HasTwoOpinions(chosen) || ReadsEverything(chosen)
  {
    ExcludedIff(chosen, available, exactIntent);
    hide Admissible, HasTwoOpinions, ReadsEverything, Before;
  }

  /** It finds as much as the intent asks for, or as much as any valid plan over an index does. */
  lemma ChosenReachesTheFloor(
    plans: seq<Plan>, available: nat, exactIntent: bool, intended: real, best: real, weight: real, missCost: real,
    chosen: Plan, p: Plan)
    requires IsIndexedBest(plans, available, exactIntent, best)
    requires WellChosen(plans, available, exactIntent, intended, Floor(intended, best), weight, missCost, chosen)
    requires p in plans && Admissible(p, available, exactIntent) && UsesAnIndex(p) && p.recall > 0.0
    ensures chosen.recall >= intended - TOLERANCE || chosen.recall >= p.recall - TOLERANCE
  {
    hide Before, Admissible, UsesAnIndex;
    assert p.recall <= best;
  }

  /** What the chosen plan costs more than any other feasible one, it finds more at that rate. */
  lemma ChosenIsWorthItsCost(
    plans: seq<Plan>, available: nat, exactIntent: bool, intended: real, floor: real, weight: real, missCost: real,
    chosen: Plan, q: Plan)
    requires WellChosen(plans, available, exactIntent, intended, floor, weight, missCost, chosen)
    requires q in plans && Feasible(q, available, exactIntent, floor)
    ensures chosen.cost - q.cost <= weight * missCost * (chosen.recall - q.recall)
    ensures chosen.cost - q.cost == weight * missCost * (chosen.recall - q.recall) ==>
      StringLeq(chosen.signature, q.signature)
  {
    hide Before, StringLeq;
    PreferredIff(chosen, q, weight, missCost);
  }

  /** Whatever is chosen from whatever candidates, no valid plan dominates it. */
  ghost predicate NeverDominated(weight: real, missCost: real) {
    forall plans, available: nat, exactIntent, intended, floor, chosen, p ::
      (WellChosen(plans, available, exactIntent, intended, floor, weight, missCost, chosen)
       && p in plans && Admissible(p, available, exactIntent)) ==> !Dominates(p, chosen)
  }

  /** With no price on recall, the signature decides between equal costs, and may decide for the worse plan. */
  lemma FreeMissesMayBeDominated(weight: real, missCost: real)
    requires weight * missCost == 0.0
    ensures
      var poor := Plan("a", [TermScan], 1.0, 0.5);
      var rich := Plan("b", [TermScan], 1.0, 0.6);
      WellChosen([poor, rich], 1, false, 0.5, 0.5, weight, missCost, poor) && Dominates(rich, poor)
  {
    var poor, rich := Plan("a", [TermScan], 1.0, 0.5), Plan("b", [TermScan], 1.0, 0.6);
    Reorder(weight, 0.5, missCost);
    Reorder(weight, 0.4, missCost);
    BeforeItself(poor, weight, missCost);
    assert 0.5 * (weight * missCost) == 0.0 && 0.4 * (weight * missCost) == 0.0;
    assert StringLeq("a", "b");
    assert Before(poor, rich, weight, missCost);
  }

  /** For prices that are not negative, exactly when the price is positive. */
  lemma NeverDominatedIff(weight: real, missCost: real)
    requires weight * missCost >= 0.0
    ensures NeverDominated(weight, missCost) <==> weight * missCost > 0.0
  {
    hide Dominates;
    if weight * missCost > 0.0 {
      forall plans, available: nat, exactIntent, intended, floor, chosen, p |
        WellChosen(plans, available, exactIntent, intended, floor, weight, missCost, chosen)
        && p in plans && Admissible(p, available, exactIntent)
        ensures !Dominates(p, chosen)
      {
        ChosenIsUndominated(plans, available, exactIntent, intended, floor, weight, missCost, chosen, p);
      }
    } else {
      FreeMissesMayBeDominated(weight, missCost);
      var poor, rich := Plan("a", [TermScan], 1.0, 0.5), Plan("b", [TermScan], 1.0, 0.6);
      assert rich in [poor, rich] && Admissible(rich, 1, false);
    }
  }

  // ---- Expected recall -----------------------------------------------------------------------

  /** One generator: how much of the answers it can see, and its node's recall, if it has one. */
  datatype Sight = Sight(authority: real, coverage: Option<real>)

  function Caught(s: Sight): real {
    if s.coverage.None? then 0.0
    else if s.authority * s.coverage.value <= 1.0 then s.authority * s.coverage.value else 1.0
  }

  function Miss(sights: seq<Sight>): real {
    if sights == [] then 1.0 else Miss(sights[..|sights| - 1]) * (1.0 - Caught(sights[|sights| - 1]))
  }

  predicate Found(sights: seq<Sight>) {
    exists s :: s in sights && s.coverage.Some?
  }

  ghost predicate NonNegative(sights: seq<Sight>) {
    forall s :: s in sights ==> 0.0 <= Caught(s)
  }

  /** One minus the product of the misses; zero when no generator has an estimate. */
  function Recall(sights: seq<Sight>): real {
    if Found(sights) then 1.0 - Miss(sights) else 0.0
  }

  method PlanRecall(sights: seq<Sight>) returns (recall: real)
    ensures recall == Recall(sights)
  {
    hide Miss;
    MissStops();
    var miss, found := 1.0, false;
    for i := 0 to |sights|
      invariant miss == Miss(sights[..i]) && (found <==> Found(sights[..i]))
    {
      var s := sights[i];
      MissUnfolds(sights[..i], s);
      assert sights[..i + 1] == sights[..i] + [s];
      assert forall x :: x in sights[..i + 1] <==> x in sights[..i] || x == s;
      if s.coverage.Some? {
        found := true;
        miss := miss * (1.0 - (if s.authority * s.coverage.value <= 1.0 then s.authority * s.coverage.value else 1.0));
      }
    }
    assert sights[..|sights|] == sights;
    recall := if found then 1.0 - miss else 0.0;
  }

  lemma MissStops()
    ensures Miss([]) == 1.0
  {
  }

  lemma MissUnfolds(sights: seq<Sight>, s: Sight)
    ensures Miss(sights + [s]) == Miss(sights) * (1.0 - Caught(s))
  {
    assert (sights + [s])[..|sights|] == sights;
  }

  lemma CaughtIsFraction(s: Sight)
    ensures Caught(s) <= 1.0 && (s.coverage.None? ==> Caught(s) == 0.0)
  {
  }

  lemma {:induction false} MissIsFraction(sights: seq<Sight>)
    requires NonNegative(sights)
    ensures 0.0 <= Miss(sights) <= 1.0
    ensures !Found(sights) ==> Miss(sights) == 1.0
  {
    if sights != [] {
      var init, last := sights[..|sights| - 1], sights[|sights| - 1];
      assert sights == init + [last];
      MissIsFraction(init);
      CaughtIsFraction(last);
      hide Caught;
      FoundGrows(init, last);
      MissUnfolds(init, last);
      assert 0.0 <= Caught(last) <= 1.0;
      MissStep(Miss(init), Miss(sights), Caught(last));
      hide Miss, Found;
    }
  }

  lemma MissStep(before: real, after: real, caught: real)
    requires 0.0 <= before <= 1.0 && 0.0 <= caught <= 1.0 && after == before * (1.0 - caught)
    ensures 0.0 <= after <= 1.0 && (before == 1.0 && caught == 0.0 ==> after == 1.0)
  {
    Shrinks(before, 1.0 - caught);
  }

  lemma Shrinks(x: real, f: real)
    requires 0.0 <= x <= 1.0 && 0.0 <= f <= 1.0
    ensures 0.0 <= x * f <= x
    ensures x * f == x <==> x == 0.0 || f == 1.0
  {
    assert x - x * f == x * (1.0 - f);
    if x > 0.0 && f < 1.0 {
      Positive(x, 1.0 - f);
    }
  }

  /** Expected recall is a fraction. */
  lemma RecallIsFraction(sights: seq<Sight>)
    requires NonNegative(sights)
    ensures 0.0 <= Recall(sights) <= 1.0
  {
    MissIsFraction(sights);
  }

  /** Another generator never lowers it, and raises it exactly when something is left to find and it finds some. */
  lemma AnotherGeneratorHelps(sights: seq<Sight>, s: Sight)
    requires NonNegative(sights) && 0.0 <= Caught(s)
    ensures Recall(sights) <= Recall(sights + [s])
    ensures Recall(sights) < Recall(sights + [s]) <==> Recall(sights) < 1.0 && Caught(s) > 0.0
  {
    MissIsFraction(sights);
    FoundGrows(sights, s);
    MissUnfolds(sights, s);
    Shrinks(Miss(sights), 1.0 - Caught(s));
    hide Miss, Found;
    if !Found(sights) {
      assert Miss(sights + [s]) == 1.0 - Caught(s);
    }
  }

  lemma FoundGrows(sights: seq<Sight>, s: Sight)
    ensures Found(sights + [s]) <==> Found(sights) || s.coverage.Some?
  {
    assert forall x :: x in sights + [s] <==> x in sights || x == s;
  }
}
