/**
  Positional phrase matching over the raw term space: positions recorded field by field, with a gap between fields,
  and intersected to find a phrase. A field is the sequence of its tokens.
*/
module PhraseIndex {
  import opened Wrappers

  type Fields = seq<seq<string>>

  // ---- What a phrase is -------------------------------------------------------------------

  ghost predicate OccursIn(field: seq<string>, phrase: seq<string>, i: nat) {
    i + |phrase| <= |field| && field[i..i + |phrase|] == phrase
  }

  /** The phrase's tokens stand side by side inside one field. */
  ghost predicate Occurs(fields: Fields, phrase: seq<string>) {
    exists f: nat, i: nat :: f < |fields| && OccursIn(fields[f], phrase, i)
  }

  // ---- Where tokens stand --------------------------------------------------------------------

  function Marked(field: seq<string>): (slots: seq<Option<string>>)
    ensures |slots| == |field| && forall i :: 0 <= i < |field| ==> slots[i] == Some(field[i])
  {
    seq(|field|, i requires 0 <= i < |field| => Some(field[i]))
  }

  /** Every field's tokens in a row, each field followed by an empty slot. */
  function Flat(fields: Fields): seq<Option<string>> {
    if fields == [] then [] else
      var n := |fields| - 1;
      Flat(fields[..n]) + Marked(fields[n]) + [None]
  }

  /** The phrase fills consecutive slots. */
  ghost predicate StandsAt(slots: seq<Option<string>>, phrase: seq<string>, s: nat) {
    s + |phrase| <= |slots| && forall k :: 0 <= k < |phrase| ==> slots[s + k] == Some(phrase[k])
  }

  ghost predicate Stands(slots: seq<Option<string>>, phrase: seq<string>) {
    exists s: nat :: StandsAt(slots, phrase, s)
  }

  ghost predicate OccursWithin(field: seq<string>, phrase: seq<string>) {
    exists i: nat :: OccursIn(field, phrase, i)
  }

  /** A non-empty phrase fills consecutive slots exactly when it occurs in a field: empty slots keep fields apart. */
  lemma {:induction false} StandsIffOccurs(fields: Fields, phrase: seq<string>)
    requires phrase != []
    ensures Stands(Flat(fields), phrase) <==> Occurs(fields, phrase)
    decreases |fields|
  {
    if fields != [] {
      var init, last := fields[..|fields| - 1], fields[|fields| - 1];
      assert fields == init + [last];
      StandsIffOccurs(init, phrase);
      OccursSplits(init, last, phrase);
      hide Stands, Occurs, OccursWithin;
      StandsStep(Flat(init), last, phrase);
    }
  }

  lemma StandsStep(before: seq<Option<string>>, last: seq<string>, phrase: seq<string>)
    requires phrase != [] && (before == [] || before[|before| - 1] == None)
    ensures Stands(before + Marked(last) + [None], phrase) <==> Stands(before, phrase) || OccursWithin(last, phrase)
  {
    var slots := before + Marked(last) + [None];
    hide StandsAt, OccursIn;
    if Stands(slots, phrase) {
      var s: nat :| StandsAt(slots, phrase, s);
      StandsSplits(before, last, phrase, s);
    }
    if Stands(before, phrase) {
      var s: nat :| StandsAt(before, phrase, s);
      StandsEarlier(before, slots, phrase, s);
    }
    if OccursWithin(last, phrase) {
      var i: nat :| OccursIn(last, phrase, i);
      StandsInLast(before, last, phrase, i);
    }
  }

  lemma StandsEarlier(before: seq<Option<string>>, slots: seq<Option<string>>, phrase: seq<string>, s: nat)
    requires StandsAt(before, phrase, s) && before <= slots
    ensures StandsAt(slots, phrase, s)
  {
    forall k | 0 <= k < |phrase|
      ensures slots[s + k] == Some(phrase[k])
    {
      assert before[s + k] == slots[s + k];
    }
  }

  lemma OccursSplits(init: Fields, last: seq<string>, phrase: seq<string>)
    ensures Occurs(init + [last], phrase) <==> Occurs(init, phrase) || OccursWithin(last, phrase)
  {
    var all := init + [last];
    if Occurs(init, phrase) {
      var f: nat, i: nat :| f < |init| && OccursIn(init[f], phrase, i);
      assert all[f] == init[f];
    }
    if i: nat :| OccursIn(last, phrase, i) {
      assert all[|init|] == last;
    }
  }

  lemma Filled(slots: seq<Option<string>>, phrase: seq<string>, s: nat, k: nat)
    requires StandsAt(slots, phrase, s) && k < |phrase|
    ensures slots[s + k] == Some(phrase[k])
  {
  }

  /** A phrase in the slots of a row of fields and one more stands in the row or in the one more. */
  lemma StandsSplits(before: seq<Option<string>>, last: seq<string>, phrase: seq<string>, s: nat)
    requires phrase != [] && StandsAt(before + Marked(last) + [None], phrase, s)
    requires before == [] || before[|before| - 1] == None
    ensures StandsAt(before, phrase, s) || (s >= |before| && OccursIn(last, phrase, s - |before|))
  {
    var slots, n := before + Marked(last) + [None], |before|;
    assert n > 0 ==> slots[n - 1] == None;
    assert slots[|slots| - 1] == None;
    if s < n {
      if s + |phrase| > n { Filled(slots, phrase, s, n - 1 - s); }
      forall k | 0 <= k < |phrase|
        ensures before[s + k] == Some(phrase[k])
      {
        assert slots[s + k] == before[s + k];
      }
    } else {
      Filled(slots, phrase, s, |phrase| - 1);
      forall k | 0 <= k < |phrase|
        ensures last[s - n + k] == phrase[k]
      {
        assert slots[s + k] == Some(phrase[k]);
        assert slots[s + k] == Marked(last)[s - n + k];
      }
    }
  }

  lemma StandsInLast(before: seq<Option<string>>, last: seq<string>, phrase: seq<string>, i: nat)
    requires OccursIn(last, phrase, i)
    ensures StandsAt(before + Marked(last) + [None], phrase, |before| + i)
  {
    var slots := before + Marked(last) + [None];
    forall k | 0 <= k < |phrase|
      ensures slots[|before| + i + k] == Some(phrase[k])
    {
      assert slots[|before| + i + k] == Marked(last)[i + k];
      assert last[i..i + |phrase|][k] == phrase[k];
    }
  }

  // ---- Recording positions ---------------------------------------------------------------------

  type Positions = map<string, seq<nat>>

  ghost predicate Locates(positions: Positions, tokens: seq<string>) {
    && (forall t :: t in positions ==> forall p :: p in positions[t] ==> p < |tokens| && tokens[p] == t)
    && (forall p :: 0 <= p < |tokens| ==> tokens[p] in positions && p in positions[tokens[p]])
  }

  ghost predicate Ascending(ps: seq<nat>) {
    forall i, j :: 0 <= i < j < |ps| ==> ps[i] < ps[j]
  }

  lemma AscendingJoins(ps: seq<nat>, more: seq<nat>)
    requires Ascending(ps) && Ascending(more) && forall p, q :: p in ps && q in more ==> p < q
    ensures Ascending(ps + more)
  {
    forall i, j | 0 <= i < j < |ps + more|
      ensures (ps + more)[i] < (ps + more)[j]
    {
      if i < |ps| <= j { assert ps[i] in ps && more[j - |ps|] in more; }
    }
  }

  lemma LastIsGreatest(ps: seq<nat>)
    requires Ascending(ps) && ps != []
    ensures forall p :: p in ps ==> p <= ps[|ps| - 1]
    ensures Ascending(ps[..|ps| - 1])
    ensures forall p :: p in ps[..|ps| - 1] <==> p in ps && p != ps[|ps| - 1]
  {
    var m := |ps| - 1;
    assert ps == ps[..m] + [ps[m]];
    assert forall i :: 0 <= i < m ==> ps[..m][i] == ps[i];
  }

  /** An ascending list is determined by what is in it. */
  lemma {:induction false} AscendingIsUnique(s: seq<nat>, t: seq<nat>)
    requires Ascending(s) && Ascending(t) && forall p :: p in s <==> p in t
    ensures s == t
    decreases |s|
  {
    if t != [] {
      assert t[0] in t && t[0] in s;
    }
    if s != [] {
      assert s[0] in t;
      var m, n := |s| - 1, |t| - 1;
      assert s[m] in t && t[n] in s;
      LastIsGreatest(s);
      LastIsGreatest(t);
      hide Ascending;
      assert s[m] == t[n];
      forall p
        ensures p in s[..m] <==> p in t[..n]
      {
        assert p in s <==> p in t;
      }
      AscendingIsUnique(s[..m], t[..n]);
      assert s == s[..m] + [s[m]] && t == t[..n] + [t[n]];
    }
  }

  /** The positions part of `analyze`: where each raw term occurs. */
  method Analyze(tokens: seq<string>) returns (positions: Positions)
    ensures Locates(positions, tokens)
    ensures forall t :: t in positions ==> positions[t] != [] && Ascending(positions[t])
  {
    positions := map[];
    for i := 0 to |tokens|
      invariant Locates(positions, tokens[..i])
      invariant forall t :: t in positions ==> positions[t] != [] && Ascending(positions[t])
    {
      var t := tokens[i];
      var held := if t in positions then positions[t] else [];
      assert tokens[..i + 1] == tokens[..i] + [t];
      AscendingJoins(held, [i]);
      positions := positions[t := held + [i]];
    }
    assert tokens[..|tokens|] == tokens;
  }

  /** What the index holds of one term in one block. */
  function Held(table: map<string, map<nat, seq<nat>>>, t: string, o: nat): seq<nat> {
    if t in table && o in table[t] then table[t][o] else []
  }

  /** The index holds of one block exactly the slots its tokens fill. */
  ghost predicate Records(table: map<string, map<nat, seq<nat>>>, o: nat, slots: seq<Option<string>>) {
    forall t, p: nat :: p in Held(table, t, o) <==> p < |slots| && slots[p] == Some(t)
  }

  /** No entry is empty, and positions ascend. */
  ghost predicate Tidy(table: map<string, map<nat, seq<nat>>>) {
    forall t :: t in table ==>
      table[t] != map[] && forall o :: o in table[t] ==> table[t][o] != [] && Ascending(table[t][o])
  }

  lemma RecordsAt(table: map<string, map<nat, seq<nat>>>, o: nat, slots: seq<Option<string>>, t: string, p: nat)
    requires Records(table, o, slots)
    ensures p in Held(table, t, o) <==> p < |slots| && slots[p] == Some(t)
  {
  }

  lemma NothingRecorded(o: nat)
    ensures Records(map[], o, [])
  {
    var empty: map<string, map<nat, seq<nat>>> := map[];
    forall t, p: nat
      ensures p !in Held(empty, t, o)
    {
    }
  }

  function Shifted(ps: seq<nat>, offset: nat): (out: seq<nat>)
    ensures |out| == |ps| && forall i :: 0 <= i < |ps| ==> out[i] == offset + ps[i]
  {
    seq(|ps|, i requires 0 <= i < |ps| => offset + ps[i])
  }

  lemma ShiftedHolds(ps: seq<nat>, offset: nat, p: nat)
    ensures p in Shifted(ps, offset) <==> p >= offset && p - offset in ps
  {
    if p >= offset && p - offset in ps {
      var i :| 0 <= i < |ps| && ps[i] == p - offset;
      assert Shifted(ps, offset)[i] == p;
    }
  }

  lemma ShiftedAscends(ps: seq<nat>, offset: nat)
    requires Ascending(ps)
    ensures Ascending(Shifted(ps, offset)) && forall p :: p in Shifted(ps, offset) ==> p >= offset
  {
  }

  /** Add one term's positions in one field to what is held of the block. */
  function Extended(table: map<string, map<nat, seq<nat>>>, t: string, o: nat, more: seq<nat>)
    : map<string, map<nat, seq<nat>>>
  {
    var entries: map<nat, seq<nat>> := if t in table then table[t] else map[];
    table[t := entries[o := (if o in entries then entries[o] else []) + more]]
  }

  lemma ExtendedHolds(table: map<string, map<nat, seq<nat>>>, t: string, o: nat, more: seq<nat>, u: string, x: nat)
    ensures Held(Extended(table, t, o, more), u, x)
         == if u == t && x == o then Held(table, t, o) + more else Held(table, u, x)
  {
  }

  lemma ExtendedIsTidy(table: map<string, map<nat, seq<nat>>>, t: string, o: nat, more: seq<nat>)
    requires Tidy(table) && more != [] && Ascending(more)
    requires forall p, q :: p in Held(table, t, o) && q in more ==> p < q
    ensures Tidy(Extended(table, t, o, more))
  {
    AscendingJoins(Held(table, t, o), more);
  }

  /** One field: every term of its analysis, in whatever order. */
  method ApplyField(table: map<string, map<nat, seq<nat>>>, o: nat, tokens: seq<string>, offset: nat)
    returns (table': map<string, map<nat, seq<nat>>>)
    requires Tidy(table) && forall u, p: nat :: p in Held(table, u, o) ==> p < offset
    ensures Tidy(table')
    ensures forall u, x: nat :: x != o ==> Held(table', u, x) == Held(table, u, x)
    ensures forall u, p: nat :: p in Held(table', u, o) <==>
      p in Held(table, u, o) || (offset <= p < offset + |tokens| && tokens[p - offset] == u)
  {
    hide Held, Extended, Shifted, Tidy;
    table' := table;
    var positions := Analyze(tokens);
    var todo := positions.Keys;
    while todo != {}
      invariant todo <= positions.Keys
      invariant Tidy(table')
      invariant forall u, x: nat :: x != o || u in todo || u !in positions ==> Held(table', u, x) == Held(table, u, x)
      invariant forall u :: u in positions && u !in todo ==>
        Held(table', u, o) == Held(table, u, o) + Shifted(positions[u], offset)
      decreases |todo|
    {
      var t :| t in todo;
      forall u, x: nat {
        ExtendedHolds(table', t, o, Shifted(positions[t], offset), u, x);
      }
      ShiftedAscends(positions[t], offset);
      ExtendedIsTidy(table', t, o, Shifted(positions[t], offset));
      table' := Extended(table', t, o, Shifted(positions[t], offset));
      todo := todo - {t};
    }
    forall u, p: nat
      ensures p in Held(table', u, o) <==>
        p in Held(table, u, o) || (offset <= p < offset + |tokens| && tokens[p - offset] == u)
    {
      if u in positions {
        ShiftedHolds(positions[u], offset, p);
      }
    }
  }

  /** What stands in a block, by position; nothing for a block never applied. */
  ghost function SlotsOf(docs: map<nat, Fields>, o: nat): seq<Option<string>> {
    if o in docs then Flat(docs[o]) else []
  }

  ghost predicate AllRecorded(table: map<string, map<nat, seq<nat>>>, docs: map<nat, Fields>) {
    forall o: nat :: Records(table, o, SlotsOf(docs, o))
  }

  lemma FreshRecords(table: map<string, map<nat, seq<nat>>>, docs: map<nat, Fields>, o: nat)
    requires AllRecorded(table, docs) && o !in docs
    ensures Records(table, o, [])
  {
    assert SlotsOf(docs, o) == [];
  }

  lemma RecordedTogether(
    table: map<string, map<nat, seq<nat>>>, docs: map<nat, Fields>, grown: map<string, map<nat, seq<nat>>>,
    ordinal: nat, fields: Fields)
    requires AllRecorded(table, docs) && Records(grown, ordinal, Flat(fields))
    requires forall u, x: nat :: x != ordinal ==> Held(grown, u, x) == Held(table, u, x)
    ensures AllRecorded(grown, docs[ordinal := fields])
  {
    hide Flat, Held;
    var more := docs[ordinal := fields];
    forall o: nat
      ensures Records(grown, o, SlotsOf(more, o))
    {
      if o != ordinal {
        RecordsStay(table, grown, o, SlotsOf(docs, o));
      }
    }
  }

  class Index {
    var table: map<string, map<nat, seq<nat>>>
    ghost var docs: map<nat, Fields>

    ghost predicate Valid()
      reads this
    {
      AllRecorded(table, docs) && Tidy(table)
    }

    constructor ()
      ensures Valid() && docs == map[]
    {
      table, docs := map[], map[];
      new;
      forall o: nat ensures Records(table, o, SlotsOf(docs, o)) { NothingRecorded(o); }
    }

    /** A block's fields, each already known not to be blank: positions run on, with a gap after each field. */
    method Apply(ordinal: nat, fields: Fields)
      requires Valid() && ordinal !in docs
      modifies this
      ensures Valid() && docs == old(docs)[ordinal := fields]
    {
      hide Flat, Held, Records, AllRecorded, SlotsOf, Tidy;
      var offset := 0;
      var grown := table;
      NothingFlat();
      FreshRecords(table, docs, ordinal);
      for f := 0 to |fields|
        invariant table == old(table) && docs == old(docs)
        invariant Tidy(grown) && offset == |Flat(fields[..f])| && Records(grown, ordinal, Flat(fields[..f]))
        invariant forall u, x: nat :: x != ordinal ==> Held(grown, u, x) == Held(table, u, x)
      {
        ghost var before := grown;
        RecordsWithin(grown, ordinal, Flat(fields[..f]));
        grown := ApplyField(grown, ordinal, fields[f], offset);
        FlatGrows(fields, f);
        RecordsGrow(before, grown, ordinal, Flat(fields[..f]), fields[f]);
        offset := offset + |fields[f]| + 1;
      }
      assert fields[..|fields|] == fields;
      RecordedTogether(table, docs, grown, ordinal, fields);
      table := grown;
      docs := docs[ordinal := fields];
    }

    /** Whether a block holds a phrase, by intersecting positions. */
    method PhraseMatches(ordinal: nat, phrase: seq<string>) returns (found: bool)
      requires Valid()
      ensures found <==> phrase == [] || (ordinal in docs && Occurs(docs[ordinal], phrase))
    {
      if phrase == [] {
        return true;
      }
      StandsForBlock(docs, ordinal, phrase);
      found := StandsAnywhere(table, ordinal, phrase, SlotsOf(docs, ordinal));
    }
  }

  /** Try every position of the phrase's first term. */
  method StandsAnywhere(table: map<string, map<nat, seq<nat>>>, o: nat, phrase: seq<string>,
                        ghost slots: seq<Option<string>>) returns (found: bool)
    requires Records(table, o, slots) && phrase != []
    ensures found <==> Stands(slots, phrase)
  {
    hide StandsAt, Records, Held;
    var first := Held(table, phrase[0], o);
    for i := 0 to |first|
      invariant forall j :: 0 <= j < i ==> !StandsAt(slots, phrase, first[j])
    {
      var all := AllFollow(table, o, phrase, first[i], slots);
      if all {
        return true;
      }
    }
    NoStart(table, o, phrase, slots, first);
    return false;
  }

  lemma NoStart(table: map<string, map<nat, seq<nat>>>, o: nat, phrase: seq<string>, slots: seq<Option<string>>,
                first: seq<nat>)
    requires Records(table, o, slots) && phrase != [] && first == Held(table, phrase[0], o)
    requires forall j :: 0 <= j < |first| ==> !StandsAt(slots, phrase, first[j])
    ensures !Stands(slots, phrase)
  {
    forall s: nat
      ensures !StandsAt(slots, phrase, s)
    {
      RecordsAt(table, o, slots, phrase[0], s);
      if s !in first {
        StandsOnFirst(slots, phrase, s);
      }
    }
  }

  lemma StandsOnFirst(slots: seq<Option<string>>, phrase: seq<string>, s: nat)
    requires phrase != [] && !(s < |slots| && slots[s] == Some(phrase[0]))
    ensures !StandsAt(slots, phrase, s)
  {
    assert s + |phrase| <= |slots| ==> slots[s + 0] != Some(phrase[0]);
  }

  lemma StandsForBlock(docs: map<nat, Fields>, o: nat, phrase: seq<string>)
    requires phrase != []
    ensures Stands(SlotsOf(docs, o), phrase) <==> o in docs && Occurs(docs[o], phrase)
  {
    if o in docs {
      StandsIffOccurs(docs[o], phrase);
    } else {
      forall s: nat ensures !StandsAt([], phrase, s) {}
    }
  }

  /** The `all(...)` over the rest of the phrase from one start. */
  method AllFollow(table: map<string, map<nat, seq<nat>>>, o: nat, phrase: seq<string>, start: nat,
                   ghost slots: seq<Option<string>>) returns (all: bool)
    requires Records(table, o, slots) && phrase != [] && start in Held(table, phrase[0], o)
    ensures all <==> StandsAt(slots, phrase, start)
  {
    RecordsAt(table, o, slots, phrase[0], start);
    for k := 1 to |phrase|
      invariant forall j :: 0 <= j < k ==> start + j < |slots| && slots[start + j] == Some(phrase[j])
    {
      RecordsAt(table, o, slots, phrase[k], start + k);
      if start + k !in Held(table, phrase[k], o) {
        return false;
      }
    }
    assert phrase[|phrase| - 1] == phrase[|phrase| - 1] && start + (|phrase| - 1) < |slots|;
    return true;
  }

  lemma NothingFlat()
    ensures Flat([]) == []
  {
  }

  lemma FlatGrows(fields: Fields, f: nat)
    requires f < |fields|
    ensures Flat(fields[..f + 1]) == Flat(fields[..f]) + Marked(fields[f]) + [None]
  {
    assert fields[..f + 1][..f] == fields[..f];
  }

  lemma RecordsGrow(
    before: map<string, map<nat, seq<nat>>>, after: map<string, map<nat, seq<nat>>>, o: nat,
    slots: seq<Option<string>>, field: seq<string>)
    requires Records(before, o, slots)
    requires forall u, p: nat :: p in Held(after, u, o) <==>
      p in Held(before, u, o) || (|slots| <= p < |slots| + |field| && field[p - |slots|] == u)
    ensures Records(after, o, slots + Marked(field) + [None])
  {
    var more := slots + Marked(field) + [None];
    assert forall p :: 0 <= p < |slots| ==> more[p] == slots[p];
    assert forall p :: |slots| <= p < |slots| + |field| ==> more[p] == Some(field[p - |slots|]);
    forall t, p: nat
      ensures p in Held(after, t, o) <==> p < |more| && more[p] == Some(t)
    {
      assert p in Held(before, t, o) <==> p < |slots| && slots[p] == Some(t);
    }
  }

  lemma RecordsWithin(table: map<string, map<nat, seq<nat>>>, o: nat, slots: seq<Option<string>>)
    requires Records(table, o, slots)
    ensures forall t, p: nat :: p in Held(table, t, o) ==> p < |slots|
  {
    forall t, p: nat | p in Held(table, t, o)
      ensures p < |slots|
    {
      RecordsAt(table, o, slots, t, p);
    }
  }

  // ---- The order of blocks -----------------------------------------------------------------------

  lemma HeldAgrees(
    a: map<string, map<nat, seq<nat>>>, b: map<string, map<nat, seq<nat>>>, docs: map<nat, Fields>, t: string, o: nat)
    requires AllRecorded(a, docs) && Tidy(a) && AllRecorded(b, docs) && Tidy(b)
    ensures Held(a, t, o) == Held(b, t, o)
  {
    hide Flat, AllRecorded;
    assert Records(a, o, SlotsOf(docs, o)) && Records(b, o, SlotsOf(docs, o)) by { AllRecordedAt(a, b, docs, o); }
    forall p: nat
      ensures p in Held(a, t, o) <==> p in Held(b, t, o)
    {
      RecordsAt(a, o, SlotsOf(docs, o), t, p);
      RecordsAt(b, o, SlotsOf(docs, o), t, p);
    }
    AscendingIsUnique(Held(a, t, o), Held(b, t, o));
  }

  lemma AllRecordedAt(
    a: map<string, map<nat, seq<nat>>>, b: map<string, map<nat, seq<nat>>>, docs: map<nat, Fields>, o: nat)
    requires AllRecorded(a, docs) && AllRecorded(b, docs)
    ensures Records(a, o, SlotsOf(docs, o)) && Records(b, o, SlotsOf(docs, o))
  {
  }

  lemma TermIsHeld(table: map<string, map<nat, seq<nat>>>, t: string)
    requires Tidy(table)
    ensures t in table <==> exists o :: Held(table, t, o) != []
  {
    if t in table {
      var o :| o in table[t];
      assert Held(table, t, o) != [];
    }
  }

  /** What the index holds depends on nothing but the blocks applied: two indexes of the same blocks are equal. */
  lemma TableForgetsOrder(
    a: map<string, map<nat, seq<nat>>>, b: map<string, map<nat, seq<nat>>>, docs: map<nat, Fields>)
    requires AllRecorded(a, docs) && Tidy(a) && AllRecorded(b, docs) && Tidy(b)
    ensures a == b
  {
    hide AllRecorded;
    forall t: string, o: nat
      ensures Held(a, t, o) == Held(b, t, o)
    {
      HeldAgrees(a, b, docs, t, o);
    }
    forall t: string
      ensures t in a <==> t in b
    {
      TermIsHeld(a, t);
      TermIsHeld(b, t);
    }
    forall t: string
      ensures t in a && t in b ==> a[t] == b[t]
    {
      if t in a && t in b {
        forall o: nat
          ensures o in a[t] <==> o in b[t]
          ensures o in a[t] && o in b[t] ==> a[t][o] == b[t][o]
        {
          assert Held(a, t, o) == Held(b, t, o);
        }
      }
    }
  }

  lemma RecordsStay(
    before: map<string, map<nat, seq<nat>>>, after: map<string, map<nat, seq<nat>>>, o: nat, slots: seq<Option<string>>)
    requires Records(before, o, slots) && forall u :: Held(after, u, o) == Held(before, u, o)
    ensures Records(after, o, slots)
  {
    forall t, p: nat
      ensures p in Held(after, t, o) <==> p < |slots| && slots[p] == Some(t)
    {
      RecordsAt(before, o, slots, t, p);
    }
  }
}
