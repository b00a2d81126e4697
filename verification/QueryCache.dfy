/**
  `QueryCache` of the query server: a bounded map of installed brains, ordered by last use. Every operation here is one
  critical section of the lock, so it is atomic; what happens between them is in `QueryTasks`.

  The object changes its dictionary and its entries in place; beside each method stands what it does as a function of
  the cache as a value, which is what `QueryTasks` steps by.
*/
module QueryCache {
  import opened Wrappers

  type Key = nat
  type EntryId = nat
  type Signatures = nat

  datatype Future = Unresolved | Rejected | Ready(governed: bool)

  /**
    `users` counts the tasks that were handed the entry and have not released it. `cleaned` counts the disposals of
    its directory and `resolutions` those of its future; `stamp` is when it was last acquired.
  */
  datatype Entry = Entry(
    key: Key,
    users: int,
    future: Future,
    signatures: Option<Signatures>,
    stamp: nat,
    cleaned: nat,
    resolutions: nat)
  {
    predicate Idle() {
      users == 0 && !future.Unresolved?
    }
  }

  /** The dictionary is its insertion order, least recently acquired first, over the entries ever created. */
  datatype Cache = Cache(capacity: nat, order: seq<EntryId>, entries: map<EntryId, Entry>, clock: nat)

  predicate Distinct(order: seq<EntryId>)
    decreases |order|
  {
    order == [] || (order[0] !in order[1..] && Distinct(order[1..]))
  }

  /** The order lists an entry per key, by last use ascending. */
  ghost predicate Ranked(order: seq<EntryId>, entries: map<EntryId, Entry>)
    decreases |order|
  {
    order == [] || (
      && order[0] in entries
      && (forall id :: id in order[1..] ==> Before(entries, order[0], id))
      && Ranked(order[1..], entries))
  }

  predicate Before(entries: map<EntryId, Entry>, a: EntryId, b: EntryId) {
    a in entries && b in entries && entries[a].key != entries[b].key && entries[a].stamp < entries[b].stamp
  }

  ghost predicate Valid(c: Cache) {
    && Distinct(c.order)
    && (forall id :: id in c.order ==> id in c.entries)
    && Ranked(c.order, c.entries)
    && (forall id :: id in c.entries ==> id < c.clock && c.entries[id].stamp < c.clock)
  }

  /** The entry a key finds. */
  function Find(order: seq<EntryId>, entries: map<EntryId, Entry>, key: Key): (found: Option<EntryId>)
    requires forall id :: id in order ==> id in entries
    ensures found.Some? ==> found.value in order && entries[found.value].key == key
    ensures found.None? ==> forall i :: 0 <= i < |order| ==> entries[order[i]].key != key
  {
    if order == [] then None
    else if entries[order[0]].key == key then Some(order[0])
    else Find(order[1..], entries, key)
  }

  function Without(order: seq<EntryId>, id: EntryId): seq<EntryId> {
    if order == [] then []
    else if order[0] == id then order[1..]
    else [order[0]] + Without(order[1..], id)
  }

  lemma {:induction false} WithoutMembers(order: seq<EntryId>, id: EntryId)
    requires Distinct(order)
    ensures Distinct(Without(order, id))
    ensures forall other :: other in Without(order, id) <==> other in order && other != id
    ensures |Without(order, id)| == if id in order then |order| - 1 else |order|
    decreases |order|
  {
    if order != [] && order[0] != id {
      WithoutMembers(order[1..], id);
      var rest := Without(order[1..], id);
      assert ([order[0]] + rest)[1..] == rest;
      assert order == [order[0]] + order[1..];
    }
  }

  // ---- Specifications of the critical sections -------------------------------

  function Touch(c: Cache, id: EntryId): Cache
    requires id in c.entries
  {
    var e := c.entries[id];
    c.(order := Without(c.order, id) + [id],
       entries := c.entries[id := e.(users := e.users + 1, stamp := c.clock)],
       clock := c.clock + 1)
  }

  function Insert(c: Cache, key: Key): Cache {
    c.(order := c.order + [c.clock],
       entries := c.entries[c.clock := Entry(key, 1, Unresolved, None, c.clock, 0, 0)],
       clock := c.clock + 1)
  }

  /** The entry stops being reachable, if it still is what its key finds. */
  function Unlink(c: Cache, id: EntryId): Cache {
    c.(order := Without(c.order, id))
  }

  function Settle(c: Cache, id: EntryId, future: Future, signatures: Option<Signatures>): Cache
    requires id in c.entries
  {
    var e := c.entries[id];
    c.(entries := c.entries[id := e.(future := future, signatures := signatures, resolutions := e.resolutions + 1)])
  }

  function Dispose(entries: map<EntryId, Entry>, id: EntryId): map<EntryId, Entry>
    requires id in entries
  {
    entries[id := entries[id].(cleaned := entries[id].cleaned + 1)]
  }

  /** One user less; the last one of an unreachable entry disposes of it. */
  function Drop(c: Cache, id: EntryId): Cache
    requires id in c.entries
  {
    var e := c.entries[id].(users := c.entries[id].users - 1);
    var entries := c.entries[id := e];
    c.(entries := if e.users == 0 && id !in c.order then Dispose(entries, id) else entries)
  }

  predicate IdleIn(entries: map<EntryId, Entry>, id: EntryId) {
    id in entries && entries[id].Idle()
  }

  /** The least recently acquired idle entries, `excess` of them if there are that many. */
  function Victims(order: seq<EntryId>, entries: map<EntryId, Entry>, excess: int): seq<EntryId> {
    if order == [] || excess <= 0 then []
    else if IdleIn(entries, order[0]) then [order[0]] + Victims(order[1..], entries, excess - 1)
    else Victims(order[1..], entries, excess)
  }

  function Survivors(order: seq<EntryId>, victims: seq<EntryId>): seq<EntryId> {
    if order == [] then []
    else if order[0] in victims then Survivors(order[1..], victims)
    else [order[0]] + Survivors(order[1..], victims)
  }

  function Disposed(entries: map<EntryId, Entry>, victims: seq<EntryId>): map<EntryId, Entry> {
    map id | id in entries ::
      if id in victims then entries[id].(cleaned := entries[id].cleaned + 1) else entries[id]
  }

  function Evicted(c: Cache): Cache {
    var victims := Victims(c.order, c.entries, |c.order| - c.capacity);
    c.(order := Survivors(c.order, victims), entries := Disposed(c.entries, victims))
  }

  // ---- What eviction promises ------------------------------------------------

  lemma {:induction false} SurvivorsMembers(order: seq<EntryId>, victims: seq<EntryId>)
    requires Distinct(order)
    ensures Distinct(Survivors(order, victims))
    ensures forall id :: id in Survivors(order, victims) <==> id in order && id !in victims
    decreases |order|
  {
    if order != [] {
      SurvivorsMembers(order[1..], victims);
      var rest := Survivors(order[1..], victims);
      assert ([order[0]] + rest)[1..] == rest;
      assert order == [order[0]] + order[1..];
    }
  }

  lemma {:induction false} VictimsMembers(order: seq<EntryId>, entries: map<EntryId, Entry>, excess: int)
    requires Distinct(order)
    ensures forall id :: id in Victims(order, entries, excess) ==> id in order && IdleIn(entries, id)
    ensures |Victims(order, entries, excess)| <= if excess <= 0 then 0 else excess
    decreases |order|
  {
    if order != [] && excess > 0 {
      VictimsMembers(order[1..], entries, if IdleIn(entries, order[0]) then excess - 1 else excess);
      assert order == [order[0]] + order[1..];
    }
  }

  lemma {:induction false} SurvivorsCount(order: seq<EntryId>, entries: map<EntryId, Entry>, excess: int)
    requires Distinct(order)
    ensures var victims := Victims(order, entries, excess);
      |Survivors(order, victims)| == |order| - |victims|
    decreases |order|
  {
    if order != [] && excess > 0 {
      var rest := order[1..];
      if IdleIn(entries, order[0]) {
        SurvivorsCount(rest, entries, excess - 1);
        SurvivorsIgnore(rest, order[0], Victims(rest, entries, excess - 1));
      } else {
        SurvivorsCount(rest, entries, excess);
        VictimsMembers(rest, entries, excess);
      }
    } else {
      SurvivorsOfNone(order);
    }
  }

  lemma {:induction false} SurvivorsIgnore(order: seq<EntryId>, id: EntryId, victims: seq<EntryId>)
    requires Distinct(order) && id !in order
    ensures Survivors(order, [id] + victims) == Survivors(order, victims)
    decreases |order|
  {
    if order != [] {
      SurvivorsIgnore(order[1..], id, victims);
    }
  }

  lemma {:induction false} SurvivorsOfNone(order: seq<EntryId>)
    ensures Survivors(order, []) == order
    decreases |order|
  {
    if order != [] {
      SurvivorsOfNone(order[1..]);
    }
  }

  /** If fewer than `excess` are taken, nothing idle is left. */
  lemma {:induction false} ShortfallMeansBusy(order: seq<EntryId>, entries: map<EntryId, Entry>, excess: int)
    requires Distinct(order) && |Victims(order, entries, excess)| < excess
    ensures forall id :: id in order && IdleIn(entries, id) ==> id in Victims(order, entries, excess)
    decreases |order|
  {
    if order != [] {
      ShortfallMeansBusy(order[1..], entries, if IdleIn(entries, order[0]) then excess - 1 else excess);
      assert order == [order[0]] + order[1..];
    }
  }

  /** Victims were acquired before every idle entry that stays. */
  lemma {:induction false} VictimsComeFirst(
    order: seq<EntryId>, entries: map<EntryId, Entry>, excess: int, v: EntryId, s: EntryId)
    requires Distinct(order) && Ranked(order, entries)
    requires v in Victims(order, entries, excess)
    requires s in order && IdleIn(entries, s) && s !in Victims(order, entries, excess)
    ensures Before(entries, v, s)
    decreases |order|
  {
    var idle := IdleIn(entries, order[0]);
    var more := Victims(order[1..], entries, if idle then excess - 1 else excess);
    assert Victims(order, entries, excess) == if idle then [order[0]] + more else more;
    assert s in order[1..];
    if v in more {
      VictimsComeFirst(order[1..], entries, if idle then excess - 1 else excess, v, s);
    }
  }

  /**
    After an eviction the map is within capacity or everything left is in use or still installing; no more is removed
    than needed; and what is removed was idle and acquired less recently than every idle entry that stays.
  */
  lemma EvictionIsLeastRecentAndMinimal(c: Cache)
    requires Valid(c)
    ensures
      var c' := Evicted(c);
      && (|c'.order| <= c.capacity || forall id :: id in c'.order ==> !IdleIn(c'.entries, id))
      && (|c'.order| < |c.order| ==> |c'.order| >= c.capacity)
      && (forall v, s :: v in c.order && v !in c'.order && s in c'.order && IdleIn(c.entries, s) ==>
            IdleIn(c.entries, v) && c.entries[v].stamp < c.entries[s].stamp)
  {
    var excess := |c.order| - c.capacity;
    var victims := Victims(c.order, c.entries, excess);
    var c' := Evicted(c);
    SurvivorsCount(c.order, c.entries, excess);
    SurvivorsMembers(c.order, victims);
    VictimsMembers(c.order, c.entries, excess);
    if |c'.order| > c.capacity {
      ShortfallMeansBusy(c.order, c.entries, excess);
    }
    forall v, s | v in c.order && v !in c'.order && s in c'.order && IdleIn(c.entries, s)
      ensures IdleIn(c.entries, v) && c.entries[v].stamp < c.entries[s].stamp
    {
      VictimsComeFirst(c.order, c.entries, excess, v, s);
    }
  }

  // ---- What each critical section keeps --------------------------------------

  lemma {:induction false} SurvivorsRanked(order: seq<EntryId>, victims: seq<EntryId>, entries: map<EntryId, Entry>)
    requires Distinct(order) && Ranked(order, entries)
    ensures Ranked(Survivors(order, victims), entries)
    decreases |order|
  {
    if order != [] {
      SurvivorsMembers(order[1..], victims);
      SurvivorsRanked(order[1..], victims, entries);
      var rest := Survivors(order[1..], victims);
      assert ([order[0]] + rest)[1..] == rest;
    }
  }

  lemma {:induction false} WithoutRanked(order: seq<EntryId>, id: EntryId, entries: map<EntryId, Entry>)
    requires Distinct(order) && Ranked(order, entries)
    ensures Ranked(Without(order, id), entries)
    decreases |order|
  {
    if order != [] && order[0] != id {
      WithoutRanked(order[1..], id, entries);
      WithoutMembers(order[1..], id);
      var rest := Without(order[1..], id);
      assert ([order[0]] + rest)[1..] == rest;
    }
  }

  lemma {:induction false} AppendDistinct(order: seq<EntryId>, id: EntryId)
    requires Distinct(order) && id !in order
    ensures Distinct(order + [id])
    decreases |order|
  {
    if order == [] {
      assert order + [id] == [id];
    } else {
      AppendDistinct(order[1..], id);
      assert (order + [id])[1..] == order[1..] + [id];
    }
  }

  lemma {:induction false} AppendRanked(order: seq<EntryId>, id: EntryId, entries: map<EntryId, Entry>)
    requires Ranked(order, entries) && id in entries
    requires forall other :: other in order ==> Before(entries, other, id)
    ensures Ranked(order + [id], entries)
    decreases |order|
  {
    if order == [] {
      assert order + [id] == [id];
    } else {
      AppendRanked(order[1..], id, entries);
      assert (order + [id])[1..] == order[1..] + [id];
    }
  }

  /** Only these two parts of an entry matter to the order of the map. */
  lemma {:induction false} SameRank(order: seq<EntryId>, entries: map<EntryId, Entry>, entries': map<EntryId, Entry>)
    requires Ranked(order, entries)
    requires forall id :: id in order ==>
      id in entries && id in entries' && entries'[id].key == entries[id].key && entries'[id].stamp == entries[id].stamp
    ensures Ranked(order, entries')
    decreases |order|
  {
    if order != [] {
      SameRank(order[1..], entries, entries');
      assert order[0] in order;
    }
  }

  lemma {:induction false} RankedAt(order: seq<EntryId>, entries: map<EntryId, Entry>, i: nat, j: nat)
    requires Ranked(order, entries) && i < j < |order|
    ensures Before(entries, order[i], order[j])
    decreases |order|
  {
    if i == 0 {
      assert order[j] == order[1..][j - 1];
    } else {
      RankedAt(order[1..], entries, i - 1, j - 1);
    }
  }

  /** Two entries of the map never share a key. */
  lemma KeysAreUnique(c: Cache, a: EntryId, b: EntryId)
    requires Valid(c) && a in c.order && b in c.order && a != b
    ensures c.entries[a].key != c.entries[b].key
  {
    var i :| 0 <= i < |c.order| && c.order[i] == a;
    var j :| 0 <= j < |c.order| && c.order[j] == b;
    if i < j { RankedAt(c.order, c.entries, i, j); } else { RankedAt(c.order, c.entries, j, i); }
  }

  lemma EvictionKeeps(c: Cache)
    requires Valid(c)
    ensures
      var c' := Evicted(c);
      && Valid(c') && c'.capacity == c.capacity && c'.clock == c.clock && c'.entries.Keys == c.entries.Keys
      && (forall id :: id in c'.order ==> id in c.order)
      && (forall id :: id in c.order && id !in c'.order ==> IdleIn(c.entries, id))
      && (forall id :: id in c.entries ==>
            c'.entries[id] == if id in c.order && id !in c'.order
                              then c.entries[id].(cleaned := c.entries[id].cleaned + 1) else c.entries[id])
  {
    var victims := Victims(c.order, c.entries, |c.order| - c.capacity);
    SurvivorsRanked(c.order, victims, c.entries);
    SurvivorsMembers(c.order, victims);
    VictimsMembers(c.order, c.entries, |c.order| - c.capacity);
    var rest := Survivors(c.order, victims);
    SameRank(rest, c.entries, Disposed(c.entries, victims));
    assert Evicted(c).order == rest;
  }

  lemma TouchKeeps(c: Cache, id: EntryId)
    requires Valid(c) && id in c.order
    ensures Valid(Touch(c, id))
    ensures forall other :: other in Touch(c, id).order <==> other in c.order
  {
    var c' := Touch(c, id);
    var rest := Without(c.order, id);
    WithoutRanked(c.order, id, c.entries);
    WithoutMembers(c.order, id);
    SameRank(rest, c.entries, c'.entries);
    forall other | other in rest
      ensures Before(c'.entries, other, id)
    {
      KeysAreUnique(c, other, id);
    }
    AppendRanked(rest, id, c'.entries);
    AppendDistinct(rest, id);
  }

  lemma InsertKeeps(c: Cache, key: Key)
    requires Valid(c) && Find(c.order, c.entries, key).None?
    ensures Valid(Insert(c, key))
  {
    assert c.clock !in c.entries;
    var c' := Insert(c, key);
    SameRank(c.order, c.entries, c'.entries);
    forall other | other in c.order
      ensures Before(c'.entries, other, c.clock)
    {
      var i :| 0 <= i < |c.order| && c.order[i] == other;
    }
    AppendRanked(c.order, c.clock, c'.entries);
    AppendDistinct(c.order, c.clock);
  }

  lemma UnlinkKeeps(c: Cache, id: EntryId)
    requires Valid(c)
    ensures Valid(Unlink(c, id))
    ensures forall other :: other in Unlink(c, id).order <==> other in c.order && other != id
  {
    WithoutRanked(c.order, id, c.entries);
    WithoutMembers(c.order, id);
  }

  lemma SettleKeeps(c: Cache, id: EntryId, future: Future, signatures: Option<Signatures>)
    requires Valid(c) && id in c.entries
    ensures Valid(Settle(c, id, future, signatures))
  {
    SameRank(c.order, c.entries, Settle(c, id, future, signatures).entries);
  }

  lemma DropKeeps(c: Cache, id: EntryId)
    requires Valid(c) && id in c.entries
    ensures Valid(Drop(c, id))
  {
    SameRank(c.order, c.entries, Drop(c, id).entries);
  }

  // ---- What cutting an entry out means ---------------------------------------

  /** One occurrence is taken out of the order, if there is one, and the rest stays as it is. */
  ghost predicate CutFrom(before: seq<EntryId>, id: EntryId, after: seq<EntryId>) {
    if id in before then exists i :: 0 <= i < |before| && before[i] == id && after == before[..i] + before[i + 1..]
    else after == before
  }

  lemma {:induction false} WithoutCuts(order: seq<EntryId>, id: EntryId)
    ensures CutFrom(order, id, Without(order, id))
    decreases |order|
  {
    if order != [] {
      if order[0] == id {
        assert Without(order, id) == order[..0] + order[0 + 1..];
      } else {
        hide CutFrom;
        WithoutCuts(order[1..], id);
        CutGrows(order[0], order[1..], id, Without(order[1..], id));
        assert order == [order[0]] + order[1..];
      }
    }
  }

  lemma CutGrows(first: EntryId, before: seq<EntryId>, id: EntryId, after: seq<EntryId>)
    requires first != id && CutFrom(before, id, after)
    ensures CutFrom([first] + before, id, [first] + after)
  {
    if id in before {
      var i :| 0 <= i < |before| && before[i] == id && after == before[..i] + before[i + 1..];
      var more := [first] + before;
      assert more[i + 1] == id && more[..i + 1] == [first] + before[..i] && more[i + 1 + 1..] == before[i + 1..];
      assert [first] + after == more[..i + 1] + more[i + 1 + 1..];
    }
  }

  /** A future resolved at most once, and by now exactly if it is. */
  predicate ResolvedOnce(e: Entry) {
    e.resolutions == if e.future.Unresolved? then 0 else 1
  }

  /** The key of an entry that was cut out finds nothing, and other keys find what they found. */
  lemma UnlinkedIsNotFound(c: Cache, id: EntryId)
    requires Valid(c) && id in c.entries
    ensures
      var order := Without(c.order, id);
      && (forall other :: other in order ==> other in c.entries)
      && (id in c.order ==> Find(order, c.entries, c.entries[id].key).None?)
      && (forall key :: key != c.entries[id].key ==> Find(order, c.entries, key) == Find(c.order, c.entries, key))
  {
    WithoutMembers(c.order, id);
    var order := Without(c.order, id);
    if id in c.order && Find(order, c.entries, c.entries[id].key).Some? {
      KeysAreUnique(c, id, Find(order, c.entries, c.entries[id].key).value);
    }
    forall key | key != c.entries[id].key
      ensures Find(order, c.entries, key) == Find(c.order, c.entries, key)
    {
      FindSkips(c.order, c.entries, id, key);
    }
  }

  lemma {:induction false} FindSkips(order: seq<EntryId>, entries: map<EntryId, Entry>, id: EntryId, key: Key)
    requires id in entries && key != entries[id].key && forall other :: other in order ==> other in entries
    ensures forall other :: other in Without(order, id) ==> other in entries
    ensures Find(Without(order, id), entries, key) == Find(order, entries, key)
    decreases |order|
  {
    if order != [] {
      assert order[0] in order && forall other :: other in order[1..] ==> other in order;
      FindSkips(order[1..], entries, id, key);
      if order[0] != id {
        assert ([order[0]] + Without(order[1..], id))[1..] == Without(order[1..], id);
      }
    }
  }

  lemma FindIgnoresFutures(c: Cache, id: EntryId, future: Future, signatures: Option<Signatures>, key: Key)
    requires id in c.entries && forall other :: other in c.order ==> other in c.entries
    ensures Find(c.order, Settle(c, id, future, signatures).entries, key) == Find(c.order, c.entries, key)
  {
    SameKeysFindAlike(c.order, c.entries, Settle(c, id, future, signatures).entries, key);
  }

  lemma {:induction false} SameKeysFindAlike(
    order: seq<EntryId>, a: map<EntryId, Entry>, b: map<EntryId, Entry>, key: Key)
    requires forall id :: id in order ==> id in a && id in b && a[id].key == b[id].key
    ensures Find(order, a, key) == Find(order, b, key)
    decreases |order|
  {
    if order != [] {
      SameKeysFindAlike(order[1..], a, b, key);
    }
  }

  // ---- The object ------------------------------------------------------------

  /** The dictionary and the entries it has handed out, changed in place under the lock. */
  class Store {
    const capacity: nat
    var order: seq<EntryId>
    var entries: map<EntryId, Entry>
    var clock: nat

    constructor (capacity: nat := 4)
      ensures State() == Cache(capacity, [], map[], 0) && Valid(State())
    {
      this.capacity, order, entries, clock := capacity, [], map[], 0;
    }

    function State(): Cache
      reads this
    {
      Cache(capacity, order, entries, clock)
    }

    /** The entry for a key, created if there is none, and one user more of it; the most recently used goes last. */
    method Lookup(key: Key) returns (id: EntryId, installing: bool)
      requires Valid(State())
      modifies this
      ensures installing <==> Find(old(order), old(entries), key).None?
      ensures id == if installing then old(clock) else Find(old(order), old(entries), key).value
      ensures State() == if installing then Insert(old(State()), key) else Touch(old(State()), id)
      ensures id in entries && entries[id].key == key && order != [] && order[|order| - 1] == id
      ensures forall other :: other in entries && other != id ==>
        other in old(entries) && entries[other] == old(entries)[other] && entries[other].stamp < entries[id].stamp
      ensures entries[id].users == if installing then 1 else old(entries)[id].users + 1
      ensures installing ==> id !in old(entries) && entries[id].future.Unresolved?
      ensures !installing ==> entries[id].future == old(entries)[id].future
    {
      var found := Find(order, entries, key);
      installing := found.None?;
      if installing {
        id := clock;
        entries := entries[id := Entry(key, 0, Unresolved, None, clock, 0, 0)];
        order := order + [id];
      } else {
        id := found.value;
        order := Without(order, id) + [id];
      }
      entries := entries[id := entries[id].(users := entries[id].users + 1, stamp := clock)];
      clock := clock + 1;
    }

    /** The entry is cut out of the map: its key finds nothing, and every other entry keeps its place. */
    method Retire(id: EntryId)
      requires Valid(State()) && id in entries
      modifies this`order
      ensures Valid(State()) && CutFrom(old(order), id, order)
      ensures id in old(order) ==> Find(order, entries, entries[id].key).None?
      ensures forall key :: key != entries[id].key ==> Find(order, entries, key) == Find(old(order), entries, key)
      ensures State() == Unlink(old(State()), id)
    {
      UnlinkKeeps(State(), id);
      WithoutCuts(order, id);
      UnlinkedIsNotFound(State(), id);
      order := Without(order, id);
    }

    /** The future is resolved, for the first time, with the signatures in place; nothing else about the map changes. */
    method SetResult(id: EntryId, governed: bool, signatures: Signatures)
      requires Valid(State()) && id in entries && ResolvedOnce(entries[id]) && entries[id].future.Unresolved?
      modifies this`entries
      ensures Valid(State()) && id in entries && ResolvedOnce(entries[id])
      ensures entries[id].future == Ready(governed) && entries[id].signatures == Some(signatures)
      ensures entries[id].users == old(entries)[id].users && entries[id].key == old(entries)[id].key
      ensures entries[id].Idle() <==> entries[id].users == 0
      ensures entries.Keys == old(entries).Keys && forall other :: other in entries && other != id ==>
        entries[other] == old(entries)[other]
      ensures State() == Settle(old(State()), id, Ready(governed), Some(signatures))
    {
      SettleKeeps(State(), id, Ready(governed), Some(signatures));
      entries := entries[id := entries[id].(signatures := Some(signatures))];
      entries := entries[id := entries[id].(future := Ready(governed), resolutions := entries[id].resolutions + 1)];
      assert State() == Settle(old(State()), id, Ready(governed), Some(signatures));
    }

    /** The entry is cut out of the map and its future rejected, for the first time. */
    method SetException(id: EntryId)
      requires Valid(State()) && id in entries && ResolvedOnce(entries[id]) && entries[id].future.Unresolved?
      modifies this`order, this`entries
      ensures Valid(State()) && id in entries && CutFrom(old(order), id, order)
      ensures id in old(order) ==> Find(order, entries, entries[id].key).None?
      ensures ResolvedOnce(entries[id]) && entries[id].future == Rejected
      ensures entries.Keys == old(entries).Keys && forall other :: other in entries && other != id ==>
        entries[other] == old(entries)[other]
      ensures State() == Settle(Unlink(old(State()), id), id, Rejected, old(entries)[id].signatures)
    {
      UnlinkKeeps(State(), id);
      SettleKeeps(Unlink(State(), id), id, Rejected, entries[id].signatures);
      WithoutCuts(order, id);
      UnlinkedIsNotFound(State(), id);
      FindIgnoresFutures(Unlink(State(), id), id, Rejected, entries[id].signatures, entries[id].key);
      order := Without(order, id);
      entries := entries[id := entries[id].(future := Rejected, resolutions := entries[id].resolutions + 1)];
    }

    method Release(id: EntryId)
      requires Valid(State()) && id in entries
      modifies this`order, this`entries
      ensures State() == Evicted(Drop(old(State()), id))
    {
      entries := entries[id := entries[id].(users := entries[id].users - 1)];
      if entries[id].users == 0 && id !in order {
        entries := Dispose(entries, id);
      }
      DropKeeps(old(State()), id);
      Evict();
    }

    method Discard(id: EntryId)
      requires id in entries
      modifies this`order, this`entries
      ensures order == Without(old(order), id) && entries == Dispose(old(entries), id)
    {
      order := Without(order, id);
      entries := Dispose(entries, id);
    }

    /** Walks a snapshot of the dictionary, least recently used first, and stops as soon as it fits. */
    method Evict()
      requires Valid(State())
      modifies this`order, this`entries
      ensures State() == Evicted(old(State()))
    {
      hide Ranked, Before, Victims, Survivors, Distinct;
      ghost var before, held := order, entries;
      ghost var excess := |order| - capacity;
      ghost var gone: seq<EntryId> := [];
      var snapshot := order;
      var i := 0;
      ScanStarts(before, held, excess);
      while i < |snapshot| && |order| > capacity
        invariant 0 <= i <= |snapshot| && snapshot == before
        invariant order == Survivors(before, gone) && |order| == |before| - |gone|
        invariant entries == Disposed(held, gone)
        invariant Scanned(before, held, excess, gone, i)
      {
        var id := snapshot[i];
        ScanOneMore(before, held, excess, gone, i);
        assert entries[id] == held[id];
        if entries[id].users == 0 && !entries[id].future.Unresolved? {
          GoneOneMore(before, held, gone, id);
          Discard(id);
          gone := gone + [id];
        }
        i := i + 1;
      }
      ScanIsOver(before, held, excess, gone, i);
    }
  }

  /** The walk has decided about the first `i` entries, and what it would still take completes the victims. */
  ghost predicate Scanned(order: seq<EntryId>, entries: map<EntryId, Entry>, excess: int, gone: seq<EntryId>, i: nat) {
    && i <= |order| && Distinct(order) && (forall id :: id in order ==> id in entries)
    && (forall id :: id in gone ==> id in order && id !in order[i..])
    && gone + Victims(order[i..], entries, excess - |gone|) == Victims(order, entries, excess)
  }

  lemma ScanStarts(order: seq<EntryId>, entries: map<EntryId, Entry>, excess: int)
    requires Distinct(order) && forall id :: id in order ==> id in entries
    ensures Scanned(order, entries, excess, [], 0)
    ensures Survivors(order, []) == order && Disposed(entries, []) == entries
  {
    SurvivorsOfNone(order);
    assert order[0..] == order;
    assert [] + Victims(order, entries, excess) == Victims(order, entries, excess);
  }

  lemma {:induction false} DistinctRest(order: seq<EntryId>, i: nat)
    requires Distinct(order) && i < |order|
    ensures order[i] !in order[i + 1..]
    decreases |order|
  {
    if i > 0 {
      DistinctRest(order[1..], i - 1);
      assert order[1..][i..] == order[i + 1..];
    }
  }

  lemma ScanOneMore(order: seq<EntryId>, entries: map<EntryId, Entry>, excess: int, gone: seq<EntryId>, i: nat)
    requires Scanned(order, entries, excess, gone, i) && i < |order| && excess > |gone|
    ensures order[i] !in gone
    ensures Scanned(order, entries, excess, if IdleIn(entries, order[i]) then gone + [order[i]] else gone, i + 1)
  {
    var rest := order[i..];
    assert order[i] == rest[0];
    assert rest[1..] == order[i + 1..];
    DistinctRest(order, i);
    if IdleIn(entries, order[i]) {
      var more := Victims(order[i + 1..], entries, excess - |gone| - 1);
      assert gone + ([order[i]] + more) == (gone + [order[i]]) + more;
    }
  }

  lemma ScanIsOver(order: seq<EntryId>, entries: map<EntryId, Entry>, excess: int, gone: seq<EntryId>, i: nat)
    requires Scanned(order, entries, excess, gone, i) && (i == |order| || excess <= |gone|)
    ensures gone == Victims(order, entries, excess)
  {
    assert gone + [] == gone;
  }

  lemma GoneOneMore(order: seq<EntryId>, entries: map<EntryId, Entry>, gone: seq<EntryId>, id: EntryId)
    requires Distinct(order) && id in order && id in entries && id !in gone
    ensures Survivors(order, gone + [id]) == Without(Survivors(order, gone), id)
    ensures |Survivors(order, gone + [id])| == |Survivors(order, gone)| - 1
    ensures Dispose(Disposed(entries, gone), id) == Disposed(entries, gone + [id])
  {
    SurvivorsWithout(order, gone, id);
    SurvivorsMembers(order, gone);
    WithoutMembers(Survivors(order, gone), id);
  }

  lemma {:induction false} SurvivorsWithout(order: seq<EntryId>, victims: seq<EntryId>, id: EntryId)
    requires Distinct(order) && id !in victims
    ensures Survivors(order, victims + [id]) == Without(Survivors(order, victims), id)
    decreases |order|
  {
    if order != [] {
      SurvivorsWithout(order[1..], victims, id);
      if order[0] == id {
        SurvivorsMembers(order[1..], victims);
        WithoutAbsent(Survivors(order[1..], victims), id);
      }
    }
  }

  lemma {:induction false} WithoutAbsent(order: seq<EntryId>, id: EntryId)
    requires id !in order
    ensures Without(order, id) == order
    decreases |order|
  {
    if order != [] {
      WithoutAbsent(order[1..], id);
    }
  }
}
