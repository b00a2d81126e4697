/**
  Conjunctive facet filtering over sets of ordinals, with a cap on how many distinct values a facet may have.
  Values are already case-folded.

  A facet is fed one carried value at a time. Within the cap it ends up as the relation between values and carriers,
  whatever the order; past the cap it is marked, and is not asked any more.
*/
module BitmapIndex {
  import opened Wrappers
  import opened Ordering

  const MAX_DISTINCT := 4096

  /** One value of one facet, carried by one block. */
  datatype Event = Event(value: string, ordinal: nat)

  type Table = map<string, set<nat>>

  /** A facet's table, and whether it went over the cap. */
  datatype Facet = Facet(table: Table, capped: bool)

  const EMPTY := Facet(map[], false)

  function Get(table: Table, v: string): set<nat> {
    if v in table then table[v] else {}
  }

  /** A value not seen before is refused once the table is full, and the facet is marked. */
  function Feed(f: Facet, e: Event, cap: nat): Facet {
    if e.value !in f.table && |f.table| >= cap then f.(capped := true)
    else f.(table := f.table[e.value := Get(f.table, e.value) + {e.ordinal}])
  }

  function Fed(events: seq<Event>, cap: nat): Facet {
    if events == [] then EMPTY else Feed(Fed(events[..|events| - 1], cap), events[|events| - 1], cap)
  }

  function ValuesIn(events: seq<Event>): set<string> {
    set e | e in events :: e.value
  }

  function Carriers(events: seq<Event>, v: string): set<nat> {
    set e | e in events && e.value == v :: e.ordinal
  }

  /** Every value with every block that carries it. */
  function Full(events: seq<Event>): Table {
    map v | v in ValuesIn(events) :: Carriers(events, v)
  }

  lemma ValuesGrow(events: seq<Event>, e: Event)
    ensures ValuesIn(events + [e]) == ValuesIn(events) + {e.value}
    ensures forall v ::
      Carriers(events + [e], v) == if v == e.value then Carriers(events, v) + {e.ordinal} else Carriers(events, v)
  {
    assert forall x :: x in events + [e] <==> x in events || x == e;
  }

  lemma NoneCarries(events: seq<Event>, v: string)
    requires v !in ValuesIn(events)
    ensures Carriers(events, v) == {}
  {
  }

  lemma FullGrows(events: seq<Event>, e: Event)
    ensures Full(events + [e]) == Full(events)[e.value := Get(Full(events), e.value) + {e.ordinal}]
  {
    ValuesGrow(events, e);
    if e.value !in ValuesIn(events) {
      NoneCarries(events, e.value);
    }
  }

  /** How large the table is against how many values were seen, and whether the facet was marked. */
  ghost predicate Sized(f: Facet, seen: set<string>, cap: nat) {
    && f.table.Keys <= seen && |f.table| <= cap
    && (|seen| <= cap ==> !f.capped && f.table.Keys == seen)
    && (|seen| > cap ==> f.capped && |f.table| == cap)
  }

  lemma FeedIsSized(f: Facet, seen: set<string>, e: Event, cap: nat)
    requires Sized(f, seen, cap)
    ensures Sized(Feed(f, e, cap), seen + {e.value}, cap)
  {
    SubsetIsSmaller(f.table.Keys, seen);
    SubsetIsSmaller(seen, seen + {e.value});
    if e.value in seen {
      assert seen + {e.value} == seen;
    }
    assert e.value in f.table.Keys <==> e.value in f.table;
    assert |f.table| == |f.table.Keys|;
  }

  lemma {:induction false} FedIsSized(events: seq<Event>, cap: nat)
    ensures Sized(Fed(events, cap), ValuesIn(events), cap)
    decreases |events|
  {
    if events == [] {
      assert ValuesIn(events) == {};
    } else {
      hide Sized, Feed;
      var init, e := events[..|events| - 1], events[|events| - 1];
      assert events == init + [e];
      FedIsSized(init, cap);
      ValuesGrow(init, e);
      FeedIsSized(Fed(init, cap), ValuesIn(init), e, cap);
    }
  }

  lemma FeedFills(events: seq<Event>, e: Event, cap: nat)
    requires |ValuesIn(events + [e])| <= cap
    ensures Feed(Facet(Full(events), false), e, cap) == Facet(Full(events + [e]), false)
  {
    FullGrows(events, e);
    ValuesGrow(events, e);
    assert Full(events).Keys == ValuesIn(events);
    if e.value !in ValuesIn(events) {
      assert |ValuesIn(events + [e])| == |ValuesIn(events)| + 1;
    }
  }

  lemma {:induction false} FedIsFull(events: seq<Event>, cap: nat)
    requires |ValuesIn(events)| <= cap
    ensures Fed(events, cap) == Facet(Full(events), false)
    decreases |events|
  {
    if events == [] {
      assert ValuesIn(events) == {};
    } else {
      hide Feed, Full;
      var init, e := events[..|events| - 1], events[|events| - 1];
      assert events == init + [e];
      ValuesGrow(init, e);
      SubsetIsSmaller(ValuesIn(init), ValuesIn(events));
      FedIsFull(init, cap);
      FeedFills(init, e, cap);
    }
  }

  /** Within the cap nothing is refused and the table is full; beyond it the facet is marked and values are missing. */
  lemma FedIsFullIff(events: seq<Event>, cap: nat)
    ensures |ValuesIn(events)| <= cap ==> Fed(events, cap) == Facet(Full(events), false)
    ensures |ValuesIn(events)| > cap ==> Fed(events, cap).capped && |Fed(events, cap).table| == cap
    ensures Fed(events, cap).table.Keys <= ValuesIn(events)
  {
    FedIsSized(events, cap);
    if |ValuesIn(events)| <= cap {
      FedIsFull(events, cap);
    }
  }

  // ---- Order of arrival -----------------------------------------------------------------

  lemma ArrivalsAreTheSame(p: seq<Event>, q: seq<Event>)
    requires multiset(p) == multiset(q)
    ensures ValuesIn(p) == ValuesIn(q) && Full(p) == Full(q)
  {
    forall e
      ensures e in p <==> e in q
    {
      assert e in multiset(p) <==> e in multiset(q);
    }
    forall v
      ensures Carriers(p, v) == Carriers(q, v)
    {
    }
  }

  lemma {:induction false} FirstIsKept(events: seq<Event>, cap: nat)
    requires events != [] && cap >= 1
    ensures events[0].value in Fed(events, cap).table
    decreases |events|
  {
    var n := |events| - 1;
    if n > 0 {
      FirstIsKept(events[..n], cap);
    } else {
      assert events[..n] == [];
    }
  }

  /** What is stored depends on the order of arrival exactly when a facet goes over the cap. */
  lemma StoredForgetsOrderIff(events: seq<Event>, cap: nat)
    requires cap >= 1
    ensures |ValuesIn(events)| <= cap
       <==> forall q | multiset(q) == multiset(events) :: Fed(q, cap) == Fed(events, cap)
  {
    FedIsFullIff(events, cap);
    if |ValuesIn(events)| <= cap {
      forall q | multiset(q) == multiset(events)
        ensures Fed(q, cap) == Fed(events, cap)
      {
        ArrivalsAreTheSame(q, events);
        FedIsFullIff(q, cap);
      }
    } else {
      var keys := Fed(events, cap).table.Keys;
      assert exists v :: v in ValuesIn(events) && v !in keys by {
        if forall v :: v in ValuesIn(events) ==> v in keys {
          SubsetIsSmaller(ValuesIn(events), keys);
        }
      }
      var v :| v in ValuesIn(events) && v !in keys;
      var e :| e in events && e.value == v;
      var q := ToFront(events, e);
      FirstIsKept(q, cap);
      assert Fed(q, cap) != Fed(events, cap);
    }
  }

  // ---- Dumping and loading ----------------------------------------------------------------

  /** A dumped table lists each value's ordinals in order, once each. */
  ghost predicate Dumps(body: map<string, seq<nat>>, table: Table) {
    body.Keys == table.Keys && forall v :: v in table ==>
      Sorted(NatLeq, body[v]) && Distinct(body[v]) && Elements(body[v]) == table[v]
  }

  function Loaded(body: map<string, seq<nat>>): Table {
    map v | v in body :: Elements(body[v])
  }

  /** One set of ordinals, taken in whatever order it yields them. */
  method ListOrdinals(ordinals: set<nat>) returns (listed: seq<nat>)
    ensures Sorted(NatLeq, listed) && Distinct(listed) && Elements(listed) == ordinals
  {
    var found: seq<nat> := [];
    var todo := ordinals;
    while todo != {}
      invariant todo <= ordinals
      invariant forall o :: o in found <==> o in ordinals && o !in todo
      decreases |todo|
    {
      var o :| o in todo;
      found := found + [o];
      todo := todo - {o};
    }
    listed := SortedSet(NatLeq, found);
    SortedSetHolds(NatLeq, found);
    SortSorts(NatLeq, Dedup(found));
  }

  method DumpTable(table: Table) returns (body: map<string, seq<nat>>)
    ensures Dumps(body, table)
  {
    hide Sorted, Distinct;
    body := map[];
    var todo := table.Keys;
    while todo != {}
      invariant todo <= table.Keys && body.Keys == table.Keys - todo
      invariant forall v :: v in body ==>
        Sorted(NatLeq, body[v]) && Distinct(body[v]) && Elements(body[v]) == table[v]
      decreases |todo|
    {
      var v :| v in todo;
      var listed := ListOrdinals(table[v]);
      body := body[v := listed];
      todo := todo - {v};
    }
  }

  lemma DumpsAlike(a: map<string, seq<nat>>, b: map<string, seq<nat>>, table: Table)
    requires Dumps(a, table) && Dumps(b, table)
    ensures a == b
  {
    assert a.Keys == b.Keys;
    forall v | v in table
      ensures a[v] == b[v]
    {
      forall o
        ensures o in a[v] <==> o in b[v]
      {
        assert o in Elements(a[v]) <==> o in Elements(b[v]);
      }
      SortedSetIsUnique(NatLeq, a[v], b[v]);
    }
  }

  /**
    Within the cap the dump is a function of the blocks, in whatever order they came; and loading a dump gives back the
    table it was made from, whatever the cap.
  */
  lemma DumpForgetsOrder(
    p: seq<Event>, q: seq<Event>, cap: nat, a: map<string, seq<nat>>, b: map<string, seq<nat>>)
    requires multiset(p) == multiset(q) && Dumps(a, Fed(p, cap).table) && Dumps(b, Fed(q, cap).table)
    ensures |ValuesIn(p)| <= cap ==> a == b
    ensures Loaded(a) == Fed(p, cap).table
  {
    hide Fed, Dumps;
    LoadReturns(a, Fed(p, cap).table);
    if |ValuesIn(p)| <= cap {
      ArrivalsAreTheSame(p, q);
      FedIsFull(p, cap);
      FedIsFull(q, cap);
      DumpsAlike(a, b, Fed(p, cap).table);
    }
  }

  lemma LoadReturns(body: map<string, seq<nat>>, table: Table)
    requires Dumps(body, table)
    ensures Loaded(body) == table
  {
    assert Loaded(body).Keys == body.Keys;
  }

  // ---- Clauses -----------------------------------------------------------------------------

  datatype Clause = Clause(facet: string, values: seq<string>, all: bool, negate: bool)

  /** Whether a block satisfies a clause, read off the values the blocks carry. */
  ghost predicate Carries(events: seq<Event>, c: Clause, o: nat) {
    if c.all then forall v :: v in c.values ==> Event(v, o) in events
    else exists v :: v in c.values && Event(v, o) in events
  }

  ghost predicate Satisfies(events: seq<Event>, c: Clause, population: nat, o: nat) {
    if c.negate then o < population && !Carries(events, c, o) else Carries(events, c, o)
  }

  lemma GetFull(events: seq<Event>, v: string, o: nat)
    ensures o in Get(Full(events), v) <==> Event(v, o) in events
  {
    if Event(v, o) in events {
      assert v in ValuesIn(events) && o in Carriers(events, v);
    }
  }

  function Population(n: nat): (all: set<nat>)
    ensures forall o :: o in all <==> 0 <= o < n
  {
    if n == 0 then {} else Population(n - 1) + {n - 1}
  }

  /** The sets of a clause's values, intersected or joined, and complemented when negated. */
  method Combine(table: Table, c: Clause, population: nat, ghost events: seq<Event>) returns (matched: set<nat>)
    requires table == Full(events) && c.values != []
    ensures forall o: nat :: o in matched <==> Satisfies(events, c, population, o)
  {
    hide Full, Get;
    matched := if c.all then Get(table, c.values[0]) else {};
    forall v, o: nat ensures o in Get(table, v) <==> Event(v, o) in events { GetFull(events, v, o); }
    for i := if c.all then 1 else 0 to |c.values|
      invariant c.all ==> forall o: nat :: o in matched <==> forall k :: 0 <= k < i ==> Event(c.values[k], o) in events
      invariant !c.all ==> forall o: nat :: o in matched <==> exists k :: 0 <= k < i && Event(c.values[k], o) in events
    {
      matched := if c.all then matched * Get(table, c.values[i]) else matched + Get(table, c.values[i]);
    }
    forall o: nat
      ensures o in matched <==> Carries(events, c, o)
    {
    }
    if c.negate {
      matched := Population(population) - matched;
    }
  }

  /** The values of one facet of one block, in order. */
  method FeedAll(table: Table, capped: bool, values: seq<string>, ordinal: nat, ghost heard: seq<Event>)
    returns (table': Table, capped': bool)
    requires Fed(heard, MAX_DISTINCT) == Facet(table, capped)
    ensures Fed(heard + EventsOf(values, ordinal), MAX_DISTINCT) == Facet(table', capped')
    ensures capped ==> capped'
  {
    hide Fed;
    table', capped' := table, capped;
    assert heard + EventsOf(values[..0], ordinal) == heard;
    for i := 0 to |values|
      invariant capped ==> capped'
      invariant Fed(heard + EventsOf(values[..i], ordinal), MAX_DISTINCT) == Facet(table', capped')
    {
      FedUnfolds(heard + EventsOf(values[..i], ordinal), Event(values[i], ordinal));
      assert heard + EventsOf(values[..i + 1], ordinal)
          == heard + EventsOf(values[..i], ordinal) + [Event(values[i], ordinal)];
      if values[i] !in table' && |table'| >= MAX_DISTINCT {
        capped' := true;
        continue;
      }
      table' := table'[values[i] := Get(table', values[i]) + {ordinal}];
    }
    assert values[..|values|] == values;
  }

  class Index {
    var facets: map<string, Table>
    var unindexed: set<string>
    var population: nat
    ghost var events: map<string, seq<Event>>

    ghost predicate Valid()
      reads this
    {
      && facets.Keys == events.Keys && unindexed <= facets.Keys
      && forall name :: name in facets ==> Fed(events[name], MAX_DISTINCT) == Facet(facets[name], name in unindexed)
    }

    constructor (population: nat)
      ensures Valid() && events == map[] && this.population == population
    {
      facets, unindexed, events := map[], {}, map[];
      this.population := population;
    }

    ghost function Heard(name: string): seq<Event>
      reads this
    {
      if name in events then events[name] else []
    }

    /** One facet of one block: a facet is present from its first block on, whether or not that block has a value. */
    method Apply(name: string, ordinal: nat, values: seq<string>)
      requires Valid()
      modifies this
      ensures Valid() && population == old(population)
      ensures events == old(events)[name := old(Heard(name)) + EventsOf(values, ordinal)]
    {
      hide Fed;
      ghost var heard := Heard(name);
      NothingFed();
      var table, capped := FeedAll(
        if name in facets then facets[name] else map[], name in unindexed, values, ordinal, heard);
      facets := facets[name := table];
      if capped {
        unindexed := unindexed + {name};
      }
      events := events[name := heard + EventsOf(values, ordinal)];
    }

    /** A facet can answer when it was seen, stayed within the cap, and the clause names a value. */
    ghost predicate Answerable(c: Clause)
      reads this
    {
      c.facet in events && |ValuesIn(events[c.facet])| <= MAX_DISTINCT && c.values != []
    }

    /** The ordinals one clause admits; `None` when the facet cannot be answered, which is not an empty set. */
    method ClauseSet(c: Clause) returns (matched: Option<set<nat>>)
      requires Valid()
      ensures matched.Some? <==> Answerable(c)
      ensures matched.Some? ==>
        forall o: nat :: o in matched.value <==> Satisfies(Heard(c.facet), c, population, o)
    {
      if c.facet in facets {
        FedIsFullIff(events[c.facet], MAX_DISTINCT);
      }
      hide Fed, Satisfies;
      if c.facet in unindexed || c.facet !in facets || c.values == [] {
        return None;
      }
      var set_ := Combine(facets[c.facet], c, population, events[c.facet]);
      return Some(set_);
    }

    /** Intersect every clause, smallest set first, and stop once nothing is left. */
    method Select(clauses: seq<Clause>, allow: Option<set<nat>>) returns (surviving: Option<set<nat>>)
      requires Valid()
      ensures clauses == [] ==> surviving == allow
      ensures clauses != [] ==> (surviving.Some? <==> forall c :: c in clauses ==> Answerable(c))
      ensures clauses != [] && surviving.Some? ==> forall o: nat :: o in surviving.value <==>
        (allow.Some? ==> o in allow.value) && forall c :: c in clauses ==> Satisfies(Heard(c.facet), c, population, o)
    {
      hide Satisfies, Answerable, Heard, Valid;
      if clauses == [] {
        return allow;
      }
      var evaluated: seq<set<nat>> := [];
      for i := 0 to |clauses|
        invariant |evaluated| == i
        invariant forall k :: 0 <= k < i ==> Answerable(clauses[k])
        invariant forall k :: 0 <= k < i ==>
          forall o: nat :: o in evaluated[k] <==> Satisfies(Heard(clauses[k].facet), clauses[k], population, o)
      {
        var matched := ClauseSet(clauses[i]);
        if matched.None? {
          return None;
        }
        evaluated := evaluated + [matched.value];
      }
      var met := Meet(evaluated);
      var kept := if allow.Some? then met * allow.value else met;
      surviving := Some(kept);
      forall o: nat
        ensures o in met <==> forall c :: c in clauses ==> Satisfies(Heard(c.facet), c, population, o)
      {
        assert o in met <==> Everywhere(evaluated, o);
        if o in met {
          forall c | c in clauses
            ensures Satisfies(Heard(c.facet), c, population, o)
          {
            var k :| 0 <= k < |clauses| && clauses[k] == c;
            assert evaluated[k] in evaluated;
          }
        } else {
          var s :| s in evaluated && o !in s;
          var k :| 0 <= k < |evaluated| && evaluated[k] == s;
          assert clauses[k] in clauses;
        }
      }
    }
  }

  function EventsOf(values: seq<string>, ordinal: nat): (events: seq<Event>)
    ensures |events| == |values| && forall i :: 0 <= i < |values| ==> events[i] == Event(values[i], ordinal)
  {
    seq(|values|, i requires 0 <= i < |values| => Event(values[i], ordinal))
  }

  lemma NothingFed()
    ensures Fed([], MAX_DISTINCT) == EMPTY
  {
  }

  lemma FedUnfolds(events: seq<Event>, e: Event)
    ensures Fed(events + [e], MAX_DISTINCT) == Feed(Fed(events, MAX_DISTINCT), e, MAX_DISTINCT)
  {
    assert (events + [e])[..|events|] == events;
  }

  predicate Smaller(a: set<nat>, b: set<nat>) {
    |a| <= |b|
  }

  ghost predicate Everywhere(sets: seq<set<nat>>, o: nat) {
    forall s :: s in sets ==> o in s
  }

  ghost predicate InFirst(sets: seq<set<nat>>, n: nat, o: nat)
    requires n <= |sets|
  {
    forall k :: 0 <= k < n ==> o in sets[k]
  }

  lemma EverywhereIsFirst(sets: seq<set<nat>>, ordered: seq<set<nat>>, o: nat)
    requires forall s :: s in ordered <==> s in sets
    ensures Everywhere(sets, o) <==> InFirst(ordered, |ordered|, o)
  {
    if InFirst(ordered, |ordered|, o) {
      forall s | s in sets
        ensures o in s
      {
        var k :| 0 <= k < |ordered| && ordered[k] == s;
      }
    }
  }

  /** Intersecting smallest first and stopping early loses nothing. */
  method Meet(sets: seq<set<nat>>) returns (met: set<nat>)
    requires sets != []
    ensures forall o :: o in met <==> Everywhere(sets, o)
  {
    hide Sort, Everywhere;
    var ordered := Sort(Smaller, sets);
    forall s ensures s in ordered <==> s in sets { SortHolds(Smaller, sets, s); }
    assert sets[0] in ordered;
    forall o { EverywhereIsFirst(sets, ordered, o); }
    met := ordered[0];
    for i := 1 to |ordered|
      invariant forall o :: o in met <==> InFirst(ordered, i, o)
    {
      met := met * ordered[i];
      assert forall o :: o in met <==> InFirst(ordered, i + 1, o);
      if met == {} {
        assert forall o :: InFirst(ordered, |ordered|, o) ==> InFirst(ordered, i + 1, o);
        return;
      }
    }
  }

  /** What a clause answers does not depend on the order in which blocks arrived, over the cap or not. */
  lemma AnswersForgetOrder(p: seq<Event>, q: seq<Event>, c: Clause, population: nat, o: nat)
    requires multiset(p) == multiset(q)
    ensures |ValuesIn(p)| <= MAX_DISTINCT <==> |ValuesIn(q)| <= MAX_DISTINCT
    ensures Satisfies(p, c, population, o) <==> Satisfies(q, c, population, o)
  {
    ArrivalsAreTheSame(p, q);
    forall e
      ensures e in p <==> e in q
    {
      assert e in multiset(p) <==> e in multiset(q);
    }
  }
}
