/**
  Exact resolution: one table per identity-shaped key from values to the ordinals that carry them, with the coverage of
  each key and the module's sizes; built block by block, dumped, restored, and looked up.
*/
module HashMap {
  import opened Wrappers
  import opened Grouping
  import opened Ordering

  function Names(): set<string> {
    {"blob", "normalized_view", "label", "alias", "record_subject", "origin"}
  }

  /** What one block carries under one key: its values, blank ones included. */
  datatype Carrier = Carrier(ordinal: nat, values: seq<string>)

  type Table = map<string, seq<nat>>

  function Listed(table: Table, v: string): seq<nat> {
    if v in table then table[v] else []
  }

  // ---- What a table holds ------------------------------------------------------------------

  /** A block is filed under each value that is not blank, as often as it has it. */
  function EntriesOf(o: nat, values: seq<string>): seq<Keyed<string, nat>> {
    if values == [] then [] else
      var last := values[|values| - 1];
      EntriesOf(o, values[..|values| - 1]) + (if last == "" then [] else [Keyed(last, o)])
  }

  function Entries(cs: seq<Carrier>): seq<Keyed<string, nat>> {
    if cs == [] then [] else
      var last := cs[|cs| - 1];
      Entries(cs[..|cs| - 1]) + EntriesOf(last.ordinal, last.values)
  }

  function Filed(cs: seq<Carrier>): Table {
    Grouped(Entries(cs))
  }

  predicate AnyIn(values: seq<string>) {
    exists v :: v in values && v != ""
  }

  predicate IsKeyed(c: Carrier) {
    AnyIn(c.values)
  }

  /** How many blocks carry anything under the key. */
  function Covered(cs: seq<Carrier>): nat {
    if cs == [] then 0 else Covered(cs[..|cs| - 1]) + (if IsKeyed(cs[|cs| - 1]) then 1 else 0)
  }

  /** The block with that ordinal carries the value. */
  ghost predicate Carries(cs: seq<Carrier>, v: string, o: nat) {
    v != "" && exists c :: c in cs && c.ordinal == o && v in c.values
  }

  lemma {:induction false} EntriesOfHold(o: nat, values: seq<string>, e: Keyed<string, nat>)
    ensures e in EntriesOf(o, values) <==> e.key != "" && e.key in values && e.value == o
  {
    if values != [] {
      var n := |values| - 1;
      EntriesOfHold(o, values[..n], e);
      assert values == values[..n] + [values[n]];
    }
  }

  lemma {:induction false} EntriesHold(cs: seq<Carrier>, v: string, o: nat)
    ensures Keyed(v, o) in Entries(cs) <==> Carries(cs, v, o)
  {
    if cs != [] {
      var n := |cs| - 1;
      EntriesHold(cs[..n], v, o);
      EntriesOfHold(cs[n].ordinal, cs[n].values, Keyed(v, o));
      assert cs == cs[..n] + [cs[n]];
    }
  }

  /** A value lists exactly the blocks that carry it. */
  lemma FiledHolds(cs: seq<Carrier>, v: string, o: nat)
    ensures o in Listed(Filed(cs), v) <==> Carries(cs, v, o)
  {
    hide Grouped, Entries, Carries;
    EntriesHold(cs, v, o);
    GroupedCounts(Entries(cs), v, o);
    if v in Filed(cs) {
      assert o in Filed(cs)[v] <==> o in multiset(Filed(cs)[v]);
    }
    assert Keyed(v, o) in Entries(cs) <==> Keyed(v, o) in multiset(Entries(cs));
  }

  // ---- The order of blocks --------------------------------------------------------------------

  lemma EntriesGrow(cs: seq<Carrier>, c: Carrier)
    ensures Entries(cs + [c]) == Entries(cs) + EntriesOf(c.ordinal, c.values)
    ensures Covered(cs + [c]) == Covered(cs) + if IsKeyed(c) then 1 else 0
  {
    assert (cs + [c])[..|cs|] == cs;
  }

  lemma {:induction false} EntriesAppend(p: seq<Carrier>, q: seq<Carrier>)
    ensures Entries(p + q) == Entries(p) + Entries(q) && Covered(p + q) == Covered(p) + Covered(q)
    decreases |q|
  {
    if q == [] {
      assert p + q == p;
    } else {
      var init, last := q[..|q| - 1], q[|q| - 1];
      assert q == init + [last] && p + q == (p + init) + [last];
      EntriesAppend(p, init);
      EntriesGrow(p + init, last);
      EntriesGrow(init, last);
      hide Entries, EntriesOf, Covered, IsKeyed;
    }
  }

  lemma EntriesOne(c: Carrier)
    ensures Entries([c]) == EntriesOf(c.ordinal, c.values) && Covered([c]) == if IsKeyed(c) then 1 else 0
  {
    assert [c][..0] == [];
  }

  lemma EntriesPick(cs: seq<Carrier>, i: nat)
    requires i < |cs|
    ensures multiset(Entries(cs))
         == multiset(EntriesOf(cs[i].ordinal, cs[i].values)) + multiset(Entries(Without(cs, i)))
    ensures Covered(cs) == (if IsKeyed(cs[i]) then 1 else 0) + Covered(Without(cs, i))
  {
    hide Entries, EntriesOf, IsKeyed, Covered;
    var before, c, after := cs[..i], cs[i], cs[i + 1..];
    assert cs == before + ([c] + after);
    EntriesAppend(before, [c] + after);
    EntriesAppend([c], after);
    EntriesOne(c);
    EntriesAppend(before, after);
    MiddleOut(Entries(before), EntriesOf(c.ordinal, c.values), Entries(after));
  }

  lemma {:induction false} EntriesPermute(p: seq<Carrier>, q: seq<Carrier>)
    requires multiset(p) == multiset(q)
    ensures multiset(Entries(p)) == multiset(Entries(q)) && Covered(p) == Covered(q)
    decreases |p|
  {
    assert |multiset(p)| == |multiset(q)|;
    if p != [] {
      hide Entries, EntriesOf, IsKeyed, Covered;
      var i := FindHead(p, q);
      EntriesPick(p, 0);
      EntriesPick(q, i);
      assert Without(p, 0) == p[1..];
      EntriesPermute(p[1..], Without(q, i));
    }
  }

  /** A dumped table lists each value's ordinals in order. */
  function DumpTable(table: Table): Table {
    map v | v in table :: Sort(NatLeq, table[v])
  }

  lemma NatsAreOrdered()
    ensures TotalOrder(NatLeq)
  {
  }

  /** Blocks in any order leave the same dump and the same coverage. */
  lemma BuildsDumpAlike(p: seq<Carrier>, q: seq<Carrier>)
    requires multiset(p) == multiset(q)
    ensures DumpTable(Filed(p)) == DumpTable(Filed(q)) && Covered(p) == Covered(q)
  {
    hide Grouped, Entries, Covered, Sort;
    NatsAreOrdered();
    EntriesPermute(p, q);
    forall v
      ensures v in Filed(p) <==> v in Filed(q)
      ensures v in Filed(p) && v in Filed(q) ==> Sort(NatLeq, Filed(p)[v]) == Sort(NatLeq, Filed(q)[v])
    {
      GroupedPermutes(Entries(p), Entries(q), v);
      if v in Filed(p) && v in Filed(q) {
        SortForgetsOrder(NatLeq, Filed(p)[v], Filed(q)[v]);
      }
    }
    assert DumpTable(Filed(p)).Keys == DumpTable(Filed(q)).Keys;
  }

  /** Dumping what a dump restored changes nothing. */
  lemma DumpOfDump(table: Table)
    ensures DumpTable(DumpTable(table)) == DumpTable(table)
  {
    hide Sort;
    NatsAreOrdered();
    forall v | v in table
      ensures Sort(NatLeq, DumpTable(table)[v]) == DumpTable(table)[v]
    {
      SortSorts(NatLeq, table[v]);
      SortOfSorted(NatLeq, Sort(NatLeq, table[v]));
    }
    assert DumpTable(DumpTable(table)).Keys == DumpTable(table).Keys;
  }

  /** And every value lists the same blocks. */
  lemma DumpListsAlike(table: Table, v: string, o: nat)
    ensures o in Listed(DumpTable(table), v) <==> o in Listed(table, v)
  {
    hide Sort;
    if v in table { SortHolds(NatLeq, table[v], o); }
  }

  // ---- Sizes ---------------------------------------------------------------------------------------

  function Bytes(sizes: seq<nat>): nat {
    if sizes == [] then 0 else Bytes(sizes[..|sizes| - 1]) + sizes[|sizes| - 1]
  }

  function Sized(sizes: seq<nat>): nat {
    if sizes == [] then 0 else Sized(sizes[..|sizes| - 1]) + (if sizes[|sizes| - 1] > 0 then 1 else 0)
  }

  lemma {:induction false} SizesPick(sizes: seq<nat>, i: nat)
    requires i < |sizes|
    ensures Bytes(sizes) == sizes[i] + Bytes(Without(sizes, i))
    ensures Sized(sizes) == (if sizes[i] > 0 then 1 else 0) + Sized(Without(sizes, i))
    decreases |sizes|
  {
    var n := |sizes| - 1;
    if i == n {
      assert Without(sizes, i) == sizes[..n];
    } else {
      SizesPick(sizes[..n], i);
      var rest := Without(sizes, i);
      assert rest[..|rest| - 1] == Without(sizes[..n], i) && rest[|rest| - 1] == sizes[n];
    }
  }

  lemma {:induction false} SizesForgetOrder(p: seq<nat>, q: seq<nat>)
    requires multiset(p) == multiset(q)
    ensures Bytes(p) == Bytes(q) && Sized(p) == Sized(q)
    decreases |p|
  {
    assert |multiset(p)| == |multiset(q)|;
    if p != [] {
      hide Bytes, Sized;
      var i := FindHead(p, q);
      SizesPick(p, 0);
      SizesPick(q, i);
      assert Without(p, 0) == p[1..];
      SizesForgetOrder(p[1..], Without(q, i));
    }
  }

  ghost predicate Files(cs: seq<Carrier>, table: Table, count: nat) {
    table == Filed(cs) && count == Covered(cs)
  }

  // ---- The object --------------------------------------------------------------------------------------

  /** What is serialized: coverage is left out where it is zero. */
  datatype Body = Body(tables: map<string, Table>, keyed: map<string, nat>, totalBytes: nat, sized: nat)

  ghost predicate Dumped(body: Body) {
    && body.tables.Keys == Names() && body.keyed.Keys <= Names()
    && (forall name :: name in Names() ==> DumpTable(body.tables[name]) == body.tables[name])
    && (forall name :: name in body.keyed ==> body.keyed[name] > 0)
  }

  function Restored(body: Body): map<string, Table> {
    map name | name in Names() :: if name in body.tables then body.tables[name] else map[]
  }

  function Counted(body: Body): map<string, nat> {
    map name | name in Names() :: if name in body.keyed then body.keyed[name] else 0
  }

  function DumpTables(tables: map<string, Table>): map<string, Table> {
    map name | name in tables :: DumpTable(tables[name])
  }

  function DumpCounts(keyed: map<string, nat>): map<string, nat> {
    map name | name in keyed && keyed[name] > 0 :: keyed[name]
  }

  /** What a valid index dumps has that form. */
  lemma DumpsAreDumped(tables: map<string, Table>, keyed: map<string, nat>, totalBytes: nat, sized: nat)
    requires tables.Keys == Names() && keyed.Keys == Names()
    ensures Dumped(Body(DumpTables(tables), DumpCounts(keyed), totalBytes, sized))
  {
    hide DumpTable, Names;
    forall name | name in tables
      ensures DumpTable(DumpTable(tables[name])) == DumpTable(tables[name])
    {
      DumpOfDump(tables[name]);
    }
  }

  lemma RestoredDumps(body: Body)
    requires Dumped(body)
    ensures DumpTables(Restored(body)) == body.tables && DumpCounts(Counted(body)) == body.keyed
  {
    hide DumpTable, Names;
    assert DumpTables(Restored(body)).Keys == body.tables.Keys;
    assert DumpCounts(Counted(body)).Keys == body.keyed.Keys;
  }

  /** Built from the same blocks in any order, two indexes dump the same body. */
  lemma DumpForgetsOrder(
    p: map<string, seq<Carrier>>, a: map<string, Table>, m: map<string, nat>,
    q: map<string, seq<Carrier>>, b: map<string, Table>, n: map<string, nat>, sizes: seq<nat>, others: seq<nat>)
    requires p.Keys == a.Keys == m.Keys == q.Keys == b.Keys == n.Keys
    requires forall name :: name in p ==> Files(p[name], a[name], m[name]) && Files(q[name], b[name], n[name])
    requires multiset(sizes) == multiset(others) && forall name :: name in p ==> multiset(p[name]) == multiset(q[name])
    ensures Body(DumpTables(a), DumpCounts(m), Bytes(sizes), Sized(sizes))
         == Body(DumpTables(b), DumpCounts(n), Bytes(others), Sized(others))
  {
    hide DumpTable, Filed, Covered, Bytes, Sized;
    SizesForgetOrder(sizes, others);
    forall name | name in p
      ensures DumpTable(a[name]) == DumpTable(b[name]) && m[name] == n[name]
    {
      BuildsDumpAlike(p[name], q[name]);
    }
    assert DumpTables(a) == DumpTables(b) && DumpCounts(m) == DumpCounts(n);
  }

  datatype Query = Query(identities: seq<string>, keys: seq<(string, string)>)

  class Index {
    var tables: map<string, Table>
    var keyed: map<string, nat>
    var totalBytes: nat
    var sized: nat

    /** Every key has its table and its coverage. */
    ghost predicate Valid()
      reads this
    {
      tables.Keys == Names() && keyed.Keys == Names()
    }

    /** The index was built from these carriers, key by key, and these sizes. */
    ghost predicate BuiltFrom(carried: map<string, seq<Carrier>>, sizes: seq<nat>)
      reads this
    {
      && Valid() && carried.Keys == Names()
      && (forall name :: name in Names() ==> Files(carried[name], tables[name], keyed[name]))
      && totalBytes == Bytes(sizes) && sized == Sized(sizes)
    }

    constructor ()
      ensures BuiltFrom(map name | name in Names() :: [], [])
    {
      hide Names;
      tables := map name | name in Names() :: map[];
      keyed := map name | name in Names() :: 0;
      totalBytes, sized := 0, 0;
    }

    /** One key of one block. */
    method Apply(name: string, c: Carrier, ghost carried: map<string, seq<Carrier>>, ghost sizes: seq<nat>)
      requires name in Names() && BuiltFrom(carried, sizes)
      modifies `tables, `keyed
      ensures BuiltFrom(carried[name := carried[name] + [c]], sizes)
    {
      hide Files, Names;
      var table, count := File(tables[name], keyed[name], c, carried[name]);
      tables := tables[name := table];
      keyed := keyed[name := count];
    }

    /** The size of one block, when it is known. */
    method Measure(size: nat, ghost carried: map<string, seq<Carrier>>, ghost sizes: seq<nat>)
      requires BuiltFrom(carried, sizes)
      modifies `totalBytes, `sized
      ensures BuiltFrom(carried, sizes + [size])
    {
      hide Names, Files;
      assert (sizes + [size])[..|sizes|] == sizes;
      if size > 0 {
        totalBytes := totalBytes + size;
        sized := sized + 1;
      }
    }

    function Dump(): Body
      reads this
    {
      Body(DumpTables(tables), DumpCounts(keyed), totalBytes, sized)
    }

    /** Restore a body: a dump dumps as itself, and each value lists what it listed. */
    method Load(body: Body)
      modifies this
      ensures Valid() && (Dumped(body) ==> Dump() == body)
      ensures forall name :: name in Names() && name in body.tables ==> tables[name] == body.tables[name]
    {
      hide Dumped, Names;
      if Dumped(body) { RestoredDumps(body); }
      tables, keyed := Restored(body), Counted(body);
      totalBytes, sized := body.totalBytes, body.sized;
    }

    /** Resolve identities and keys: exactly the blocks named, or filed under a key and value asked for. */
    method Lookup(position: map<string, nat>, q: Query) returns (found: set<nat>)
      requires Valid()
      ensures forall o: nat :: o in found <==>
        || (exists id :: id in q.identities && id in position && position[id] == o)
        || (exists k :: k in q.keys && k.0 in tables && o in Listed(tables[k.0], k.1))
    {
      found := {};
      for i := 0 to |q.identities|
        invariant forall o: nat :: o in found <==>
          exists id :: id in q.identities[..i] && id in position && position[id] == o
      {
        assert q.identities[..i + 1] == q.identities[..i] + [q.identities[i]];
        if q.identities[i] in position {
          found := found + {position[q.identities[i]]};
        }
      }
      assert q.identities[..|q.identities|] == q.identities;
      ghost var named := found;
      for i := 0 to |q.keys|
        invariant forall o: nat :: o in found <==>
          o in named || exists k :: k in q.keys[..i] && k.0 in tables && o in Listed(tables[k.0], k.1)
      {
        assert q.keys[..i + 1] == q.keys[..i] + [q.keys[i]];
        var k := q.keys[i];
        if k.0 in tables {
          found := found + Elements(Listed(tables[k.0], k.1));
        }
      }
      assert q.keys[..|q.keys|] == q.keys;
    }
  }

  /** The loop over a block's values. */
  method File(table: Table, count: nat, c: Carrier, ghost before: seq<Carrier>) returns (table': Table, count': nat)
    requires Files(before, table, count)
    ensures Files(before + [c], table', count')
  {
    hide EntriesOf, Grouped, Entries, AnyIn;
    table' := table;
    var any := false;
    ghost var entries := Entries(before);
    NoEntries(c.ordinal);
    assert entries + [] == entries;
    assert c.values[..0] == [];
    for i := 0 to |c.values|
      invariant table' == Grouped(entries + EntriesOf(c.ordinal, c.values[..i]))
      invariant any <==> AnyIn(c.values[..i])
    {
      var v := c.values[i];
      assert c.values[..i + 1] == c.values[..i] + [v];
      ghost var now := EntriesOf(c.ordinal, c.values[..i]);
      EntriesOfGrows(c.ordinal, c.values[..i], v);
      AnyGrows(c.values[..i], v);
      if v != "" {
        GroupedGrows(entries + now, Keyed(v, c.ordinal));
        assert entries + now + [Keyed(v, c.ordinal)] == entries + (now + [Keyed(v, c.ordinal)]);
        table' := Add(table', v, c.ordinal);
        any := true;
      } else {
        assert now + [] == now;
      }
    }
    assert c.values[..|c.values|] == c.values;
    EntriesGrow(before, c);
    count' := if any then count + 1 else count;
  }

  lemma NoEntries(o: nat)
    ensures EntriesOf(o, []) == [] && !AnyIn([])
  {
  }

  lemma AnyGrows(values: seq<string>, v: string)
    ensures AnyIn(values + [v]) <==> AnyIn(values) || v != ""
  {
    assert v in values + [v];
    if AnyIn(values) {
      var x :| x in values && x != "";
      assert x in values + [v];
    }
  }

  lemma EntriesOfGrows(o: nat, values: seq<string>, v: string)
    ensures EntriesOf(o, values + [v]) == EntriesOf(o, values) + (if v == "" then [] else [Keyed(v, o)])
  {
    assert (values + [v])[..|values|] == values;
  }
}
