/** `setdefault(key, []).append(value)` over a sequence of entries: values listed by key, in order of arrival. */
module Grouping {

  datatype Keyed<K, V> = Keyed(key: K, value: V)

  /** `setdefault(key, []).append(value)`. */
  function Add<K, V>(table: map<K, seq<V>>, key: K, value: V): map<K, seq<V>> {
    table[key := (if key in table then table[key] else []) + [value]]
  }

  function Grouped<K, V>(entries: seq<Keyed<K, V>>): map<K, seq<V>> {
    if entries == [] then map[] else
      var last := entries[|entries| - 1];
      Add(Grouped(entries[..|entries| - 1]), last.key, last.value)
  }

  lemma GroupedGrows<K, V>(entries: seq<Keyed<K, V>>, e: Keyed<K, V>)
    ensures Grouped(entries + [e]) == Add(Grouped(entries), e.key, e.value)
  {
    assert (entries + [e])[..|entries|] == entries;
  }

  /** A key is listed exactly when it occurs, and then it lists something. */
  lemma {:induction false} GroupedKeys<K, V>(entries: seq<Keyed<K, V>>, key: K)
    ensures key in Grouped(entries) <==> exists e :: e in entries && e.key == key
    ensures key in Grouped(entries) ==> Grouped(entries)[key] != []
  {
    if entries != [] {
      var n := |entries| - 1;
      GroupedKeys(entries[..n], key);
      assert entries == entries[..n] + [entries[n]];
    }
  }

  /** A key lists each value as often as the two occur together. */
  lemma {:induction false} GroupedCounts<K, V>(entries: seq<Keyed<K, V>>, key: K, value: V)
    ensures multiset(entries)[Keyed(key, value)] ==
      if key in Grouped(entries) then multiset(Grouped(entries)[key])[value] else 0
  {
    if entries != [] {
      var n := |entries| - 1;
      GroupedCounts(entries[..n], key, value);
      GroupedGrows(entries[..n], entries[n]);
      hide Grouped;
      assert entries == entries[..n] + [entries[n]];
    }
  }

  /** The order of arrival shows only in the order of each key's list. */
  lemma GroupedPermutes<K, V>(p: seq<Keyed<K, V>>, q: seq<Keyed<K, V>>, key: K)
    requires multiset(p) == multiset(q)
    ensures key in Grouped(p) <==> key in Grouped(q)
    ensures key in Grouped(p) && key in Grouped(q) ==> multiset(Grouped(p)[key]) == multiset(Grouped(q)[key])
  {
    hide Grouped;
    forall e
      ensures e in p <==> e in q
    {
      assert e in multiset(p) <==> e in multiset(q);
    }
    GroupedKeys(p, key);
    GroupedKeys(q, key);
    if key in Grouped(p) && key in Grouped(q) {
      forall value
        ensures multiset(Grouped(p)[key])[value] == multiset(Grouped(q)[key])[value]
      {
        GroupedCounts(p, key, value);
        GroupedCounts(q, key, value);
      }
      SameCounts(Grouped(p)[key], Grouped(q)[key]);
    }
  }

  lemma SameCounts<V>(s: seq<V>, t: seq<V>)
    requires forall value :: multiset(s)[value] == multiset(t)[value]
    ensures multiset(s) == multiset(t)
  {
  }
}
