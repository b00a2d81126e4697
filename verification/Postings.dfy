/**
  The weighted postings of the inverted index, with document lengths and languages: accumulated block by block, dumped
  and restored.

  A body describes a set of analyzed blocks when each term posts exactly the blocks that have it, with their weights,
  and each block with any tokens has its length and language. There is only one such body.
*/
module Postings {
  import opened Wrappers

  /** One field that is not blank, analyzed: its terms, its length in tokens, its scaled weight, its language. */
  datatype Field = Field(terms: seq<string>, length: nat, weight: int, language: string)

  type Table = map<string, map<nat, int>>

  function Get(table: Table, t: string, o: nat): Option<int> {
    if t in table && o in table[t] then Some(table[t][o]) else None
  }

  /** `postings.setdefault(term, {})[ordinal] += weight`. */
  function Add(table: Table, t: string, o: nat, weight: int): Table {
    var entries: map<nat, int> := if t in table then table[t] else map[];
    table[t := entries[o := (if o in entries then entries[o] else 0) + weight]]
  }

  // ---- What a block weighs ---------------------------------------------------------------

  function Occurrences(terms: seq<string>, t: string): nat {
    multiset(terms)[t]
  }

  /** A weight, with `count` more occurrences; nothing at all as long as there was none. */
  function Plus(held: Option<int>, count: nat, weight: int): Option<int> {
    if count == 0 then held else Some((if held.Some? then held.value else 0) + count * weight)
  }

  /** The weight of a term in a block: over its fields, the field's weight for each occurrence. */
  function WeightIn(fields: seq<Field>, t: string): Option<int> {
    if fields == [] then None else
      var last := fields[|fields| - 1];
      Plus(WeightIn(fields[..|fields| - 1], t), Occurrences(last.terms, t), last.weight)
  }

  function LengthOf(fields: seq<Field>): nat {
    if fields == [] then 0 else LengthOf(fields[..|fields| - 1]) + fields[|fields| - 1].length
  }

  /** The language of the last field, if there is one. */
  function LanguageOf(fields: seq<Field>): string {
    if fields == [] then "en" else fields[|fields| - 1].language
  }

  /** A block is posted under a term exactly when one of its fields has it. */
  lemma {:induction false} PostedIff(fields: seq<Field>, t: string)
    ensures WeightIn(fields, t).Some? <==> exists f :: f in fields && t in f.terms
  {
    if fields != [] {
      var n := |fields| - 1;
      PostedIff(fields[..n], t);
      assert fields == fields[..n] + [fields[n]];
      assert t in fields[n].terms <==> t in multiset(fields[n].terms);
    }
  }

  lemma OneMore(held: Option<int>, count: nat, weight: int)
    ensures Plus(held, count + 1, weight)
         == Some((if Plus(held, count, weight).Some? then Plus(held, count, weight).value else 0) + weight)
  {
    assert (count + 1) * weight == count * weight + weight;
  }

  // ---- The sum of a dictionary's values --------------------------------------------------

  ghost function SumOf(m: map<nat, nat>): nat
    decreases |m|
  {
    if m == map[] then 0 else
      var k :| k in m;
      m[k] + SumOf(m - {k})
  }

  /** The sum may be taken in any order. */
  lemma {:induction false} SumPicks(m: map<nat, nat>, k: nat)
    requires k in m
    ensures SumOf(m) == m[k] + SumOf(m - {k})
    decreases |m|
  {
    var j :| j in m && SumOf(m) == m[j] + SumOf(m - {j});
    if j != k {
      assert |m - {j}| < |m| && |m - {k}| < |m|;
      SumPicks(m - {j}, k);
      SumPicks(m - {k}, j);
      assert m - {j} - {k} == m - {k} - {j};
    }
  }

  lemma SumGrows(m: map<nat, nat>, k: nat, value: nat)
    requires k !in m
    ensures SumOf(m[k := value]) == SumOf(m) + value
  {
    SumPicks(m[k := value], k);
    assert m[k := value] - {k} == m;
  }

  /** `sum(lengths.values())`. */
  method Total(m: map<nat, nat>) returns (total: nat)
    ensures total == SumOf(m)
  {
    total := 0;
    var rest := m;
    while rest != map[]
      invariant total + SumOf(rest) == SumOf(m)
      decreases |rest|
    {
      var k :| k in rest;
      SumPicks(rest, k);
      total := total + rest[k];
      rest := rest - {k};
    }
  }

  // ---- What the index holds ---------------------------------------------------------------

  ghost predicate Posted(table: Table, docs: map<nat, seq<Field>>) {
    && (forall t, o: nat :: Get(table, t, o) == if o in docs then WeightIn(docs[o], t) else None)
    && (forall t :: t in table ==> table[t] != map[])
  }

  ghost predicate Measured(lengths: map<nat, nat>, languages: map<nat, string>, docs: map<nat, seq<Field>>) {
    forall o: nat :: MeasuredAt(lengths, languages, docs, o)
  }

  ghost predicate MeasuredAt(
    lengths: map<nat, nat>, languages: map<nat, string>, docs: map<nat, seq<Field>>, o: nat)
  {
    && (o in lengths <==> o in docs && LengthOf(docs[o]) > 0)
    && (o in languages <==> o in lengths)
    && (o in lengths ==> lengths[o] == LengthOf(docs[o]) && languages[o] == LanguageOf(docs[o]))
  }

  /** One field: every occurrence of every term adds the field's weight. */
  method ApplyField(table: Table, o: nat, f: Field) returns (table': Table)
    requires forall t :: t in table ==> table[t] != map[]
    ensures forall t :: t in table' ==> table'[t] != map[]
    ensures forall t, x: nat :: x != o ==> Get(table', t, x) == Get(table, t, x)
    ensures forall t :: Get(table', t, o) == Plus(Get(table, t, o), Occurrences(f.terms, t), f.weight)
  {
    hide Plus, Add, Get;
    table' := table;
    NoneYet(table, o, f.weight);
    assert f.terms[..0] == [];
    for j := 0 to |f.terms|
      invariant forall t :: t in table' ==> table'[t] != map[]
      invariant forall t, x: nat :: x != o ==> Get(table', t, x) == Get(table, t, x)
      invariant forall t :: Get(table', t, o) == Plus(Get(table, t, o), Occurrences(f.terms[..j], t), f.weight)
    {
      var u := f.terms[j];
      AddsOne(table', u, o, f.weight);
      OneMore(Get(table, u, o), Occurrences(f.terms[..j], u), f.weight);
      assert f.terms[..j + 1] == f.terms[..j] + [u];
      table' := Add(table', u, o, f.weight);
    }
    assert f.terms[..|f.terms|] == f.terms;
  }

  lemma NoneYet(table: Table, o: nat, weight: int)
    ensures forall t :: Get(table, t, o) == Plus(Get(table, t, o), 0, weight)
  {
  }

  lemma AddsOne(table: Table, u: string, o: nat, weight: int)
    requires forall t :: t in table ==> table[t] != map[]
    ensures forall t :: t in Add(table, u, o, weight) ==> Add(table, u, o, weight)[t] != map[]
    ensures forall t, x: nat :: t != u || x != o ==> Get(Add(table, u, o, weight), t, x) == Get(table, t, x)
    ensures Get(Add(table, u, o, weight), u, o)
         == Some((if Get(table, u, o).Some? then Get(table, u, o).value else 0) + weight)
  {
  }

  /** All fields of one block. */
  method ApplyFields(table: Table, o: nat, fields: seq<Field>) returns (table': Table, length: nat, language: string)
    requires forall t :: t in table ==> table[t] != map[]
    requires forall t :: Get(table, t, o) == None
    ensures forall t :: t in table' ==> table'[t] != map[]
    ensures forall t, x: nat :: x != o ==> Get(table', t, x) == Get(table, t, x)
    ensures forall t :: Get(table', t, o) == WeightIn(fields, t)
    ensures length == LengthOf(fields) && language == LanguageOf(fields)
  {
    hide Get, Plus;
    table', length, language := table, 0, "en";
    assert fields[..0] == [];
    for i := 0 to |fields|
      invariant forall t :: t in table' ==> table'[t] != map[]
      invariant forall t, x: nat :: x != o ==> Get(table', t, x) == Get(table, t, x)
      invariant forall t :: Get(table', t, o) == WeightIn(fields[..i], t)
      invariant length == LengthOf(fields[..i]) && language == LanguageOf(fields[..i])
    {
      table' := ApplyField(table', o, fields[i]);
      assert fields[..i + 1][..i] == fields[..i];
      length := length + fields[i].length;
      language := fields[i].language;
    }
    assert fields[..|fields|] == fields;
  }

  /** What an index serializes: everything but the total, which can be counted again. */
  datatype Body = Body(postings: Table, lengths: map<nat, nat>, languages: map<nat, string>)

  /** The body holds exactly these blocks. */
  ghost predicate Describes(body: Body, docs: map<nat, seq<Field>>) {
    Posted(body.postings, docs) && Measured(body.lengths, body.languages, docs)
  }

  lemma PostedMore(before: Table, docs: map<nat, seq<Field>>, o: nat, fields: seq<Field>, after: Table)
    requires Posted(before, docs) && o !in docs
    requires forall t :: t in after ==> after[t] != map[]
    requires forall t, x: nat :: x != o ==> Get(after, t, x) == Get(before, t, x)
    requires forall t :: Get(after, t, o) == WeightIn(fields, t)
    ensures Posted(after, docs[o := fields])
  {
    hide Get, WeightIn;
    var docs' := docs[o := fields];
    forall t, x: nat
      ensures Get(after, t, x) == if x in docs' then WeightIn(docs'[x], t) else None
    {
      if x != o {
        assert Get(after, t, x) == Get(before, t, x);
      }
    }
  }

  lemma MeasuredMore(
    lengths: map<nat, nat>, languages: map<nat, string>, docs: map<nat, seq<Field>>, o: nat, fields: seq<Field>)
    requires Measured(lengths, languages, docs) && o !in docs
    ensures o !in lengths
    ensures LengthOf(fields) == 0 ==> Measured(lengths, languages, docs[o := fields])
    ensures LengthOf(fields) > 0 ==>
      Measured(lengths[o := LengthOf(fields)], languages[o := LanguageOf(fields)], docs[o := fields])
  {
    hide LengthOf, LanguageOf;
    assert MeasuredAt(lengths, languages, docs, o);
    var docs' := docs[o := fields];
    if LengthOf(fields) == 0 {
      forall x: nat
        ensures MeasuredAt(lengths, languages, docs', x)
      {
        assert MeasuredAt(lengths, languages, docs, x);
      }
    } else {
      var lengths', languages' := lengths[o := LengthOf(fields)], languages[o := LanguageOf(fields)];
      forall x: nat
        ensures MeasuredAt(lengths', languages', docs', x)
      {
        assert MeasuredAt(lengths, languages, docs, x);
      }
    }
  }

  class Index {
    var postings: Table
    var lengths: map<nat, nat>
    var languages: map<nat, string>
    var totalLength: nat

    ghost predicate Valid()
      reads this
    {
      totalLength == SumOf(lengths)
    }

    constructor ()
      ensures Valid() && Describes(Dump(), map[])
    {
      postings, lengths, languages, totalLength := map[], map[], map[], 0;
    }

    function Dump(): Body
      reads this
    {
      Body(postings, lengths, languages)
    }

    /** One block, with its fields that are not blank. */
    method Apply(ordinal: nat, fields: seq<Field>, ghost docs: map<nat, seq<Field>>)
      requires Valid() && Describes(Dump(), docs) && ordinal !in docs
      modifies this
      ensures Valid() && Describes(Dump(), docs[ordinal := fields])
    {
      var table, length, language := ApplyFields(postings, ordinal, fields);
      PostedMore(postings, docs, ordinal, fields, table);
      MeasuredMore(lengths, languages, docs, ordinal, fields);
      hide Posted, Measured, Get, WeightIn;
      postings := table;
      if length > 0 {
        SumGrows(lengths, ordinal, length);
        lengths := lengths[ordinal := length];
        languages := languages[ordinal := language];
        totalLength := totalLength + length;
      }
    }

    /** Restore a dumped body; the total is counted again. */
    method Load(body: Body)
      modifies this
      ensures Valid() && Dump() == body
    {
      postings, lengths, languages := body.postings, body.lengths, body.languages;
      totalLength := Total(body.lengths);
    }
  }

  // ---- The order of blocks -------------------------------------------------------------------

  /** The postings are determined by the blocks. */
  lemma PostingsForgetOrder(a: Table, b: Table, docs: map<nat, seq<Field>>)
    requires Posted(a, docs) && Posted(b, docs)
    ensures a == b
  {
    forall t, o: nat
      ensures Get(a, t, o) == Get(b, t, o)
    {
    }
    forall t
      ensures t in a <==> t in b
    {
      IsHeld(a, t);
      IsHeld(b, t);
    }
    forall t | t in a && t in b
      ensures a[t] == b[t]
    {
      forall o: nat
        ensures o in a[t] <==> o in b[t]
        ensures o in a[t] && o in b[t] ==> a[t][o] == b[t][o]
      {
        assert Get(a, t, o) == Get(b, t, o);
      }
    }
  }

  lemma IsHeld(table: Table, t: string)
    requires t in table ==> table[t] != map[]
    ensures t in table <==> exists o: nat :: Get(table, t, o).Some?
  {
    if t in table {
      var o: nat :| o in table[t];
      assert Get(table, t, o).Some?;
    }
  }

  /** So is the whole dump, in whatever order the blocks were applied. */
  lemma DumpForgetsOrder(a: Body, b: Body, docs: map<nat, seq<Field>>)
    requires Describes(a, docs) && Describes(b, docs)
    ensures a == b
  {
    PostingsForgetOrder(a.postings, b.postings, docs);
    forall o: nat
      ensures o in a.lengths <==> o in b.lengths
      ensures o in a.languages <==> o in b.languages
      ensures o in a.lengths && o in b.lengths ==> a.lengths[o] == b.lengths[o]
      ensures o in a.languages && o in b.languages ==> a.languages[o] == b.languages[o]
    {
      assert MeasuredAt(a.lengths, a.languages, docs, o) && MeasuredAt(b.lengths, b.languages, docs, o);
    }
    assert a.lengths == b.lengths && a.languages == b.languages;
  }
}
