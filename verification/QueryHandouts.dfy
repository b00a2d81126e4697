/** What a request is handed: the brain it asked for, as it was installed, with the signatures it listed itself. */
module QueryHandouts {
  import opened Wrappers
  import opened QueryCache
  import opened QueryTasks

  // ---- Runs, from their end ------------------------------------------------------------

  lemma {:induction false} RunSplits(w: World, p: seq<Action>, q: seq<Action>)
    ensures Run(w, p + q) == Run(Run(w, p), q)
    decreases |p|
  {
    if p == [] {
      assert p + q == q;
    } else {
      assert (p + q)[0] == p[0] && (p + q)[1..] == p[1..] + q;
      RunSplits(Next(w, p[0]), p[1..], q);
    }
  }

  lemma RunOfOne(w: World, a: Action)
    ensures Run(w, [a]) == Next(w, a)
  {
    assert [a][1..] == [];
    assert Run(Next(w, a), []) == Next(w, a);
  }

  /** The last step of a run, taken from a world that satisfies the invariant. */
  lemma LastStep(capacity: nat, actions: seq<Action>)
    requires actions != []
    ensures
      var n := |actions| - 1;
      var w := Run(Initial(capacity), actions[..n]);
      && Inv(w, map[]) && Valid(w.cache) && KnownEntries(w)
      && Run(Initial(capacity), actions) == Next(w, actions[n])
  {
    var n := |actions| - 1;
    RunKeeps(Initial(capacity), map[], actions[..n]);
    var w := Run(Initial(capacity), actions[..n]);
    hide Step, Inv, Run, Next, Valid, KnownEntries;
    assert actions == actions[..n] + [actions[n]];
    RunSplits(Initial(capacity), actions[..n], [actions[n]]);
    RunOfOne(w, actions[n]);
    StepKeeps(w, map[], actions[n]);
    ValidHere(w);
  }

  lemma ValidHere(w: World)
    requires Inv(w, map[])
    ensures Valid(w.cache)
  {
  }

  // ---- What a step leaves as it was --------------------------------------------------------

  /** An entry keeps its key, and once it is ready, its future and its signatures. */
  ghost predicate Persist(c: Cache, c': Cache) {
    forall id :: id in c.entries ==> PersistsIn(c, c', id)
  }

  ghost predicate PersistsIn(c: Cache, c': Cache, id: EntryId)
    requires id in c.entries
  {
    && id in c'.entries && c'.entries[id].key == c.entries[id].key
    && (c.entries[id].future.Ready? ==>
          c'.entries[id].future == c.entries[id].future && c'.entries[id].signatures == c.entries[id].signatures)
  }

  lemma EvictedPersists(c: Cache)
    requires Valid(c)
    ensures Persist(c, Evicted(c)) && Alike(c, Evicted(c))
  {
    EvictionKeeps(c);
  }

  /** No future changes, and no entry is new. */
  ghost predicate Alike(c: Cache, c': Cache) {
    && c'.entries.Keys == c.entries.Keys
    && forall id :: id in c.entries && id in c'.entries ==> c'.entries[id].future == c.entries[id].future
  }

  lemma DroppedPersists(c: Cache, id: EntryId)
    requires Valid(c) && id in c.entries
    ensures Persist(c, Evicted(Drop(c, id))) && Alike(c, Evicted(Drop(c, id)))
  {
    DropKeeps(c, id);
    EvictionKeeps(Drop(c, id));
  }

  /** The step of an installer is the only one that makes an entry ready, and a ready entry never changes. */
  lemma StepPersists(w: World, a: Action)
    requires Inv(w, map[]) && KnownEntries(w)
    ensures Steady(w, a, Step(w, a))
  {
    ValidHere(w);
    hide Step, Inv, Steady;
    match PcOf(w, a.t)
    case Resolved(_) => LookupPersists(w, a);
    case InstallEvicting(_) => EvictingPersists(w, a);
    case Releasing(_, _) => ReleasePersists(w, a);
    case Installing(_) => InstallerPersists(w, a);
    case InstallFailing(_) => InstallerPersists(w, a);
    case Retiring(_) => InstallerPersists(w, a);
    case _ => PlainStepPersists(w, a);
  }

  ghost predicate Steady(w: World, a: Action, w': World) {
    && Persist(w.cache, w'.cache)
    && forall id :: id in w'.cache.entries ==> NewlyReady(w, a, w', id)
  }

  lemma LookupPersists(w: World, a: Action)
    requires Valid(w.cache) && KnownEntries(w) && PcOf(w, a.t).Resolved?
    ensures Steady(w, a, Step(w, a))
  {
    hide Find, Ranked, QueryCache.Distinct, Evicted, Drop, Unlink, Settle;
  }

  lemma EvictingPersists(w: World, a: Action)
    requires Valid(w.cache) && KnownEntries(w) && PcOf(w, a.t).InstallEvicting?
    ensures Steady(w, a, Step(w, a))
  {
    EvictedPersists(w.cache);
    hide Evicted, Drop, Unlink, Settle, DoLookup;
  }

  lemma ReleasePersists(w: World, a: Action)
    requires Valid(w.cache) && KnownEntries(w) && PcOf(w, a.t).Releasing?
    ensures Steady(w, a, Step(w, a))
  {
    var id := PcOf(w, a.t).id;
    DroppedPersists(w.cache, id);
    ReleaseStep(w, a, id);
    NothingNew(w, a, w);
    hide Evicted, Drop, Step, Valid;
  }

  lemma ReleaseStep(w: World, a: Action, id: EntryId)
    requires Valid(w.cache) && KnownEntries(w) && PcOf(w, a.t).Releasing? && PcOf(w, a.t).id == id
    ensures Step(w, a).cache == w.cache || Step(w, a).cache == Evicted(Drop(w.cache, id))
  {
    hide Evicted, Drop, DoLookup, Touch, Insert, Settle, Unlink, DoAwake, Valid;
  }

  /** What an installer and a retiring task do to the cache. */
  lemma InstallerStep(w: World, a: Action, id: EntryId)
    requires Valid(w.cache) && KnownEntries(w) && id in w.cache.entries && a.t in w.tasks
    requires var pc := w.tasks[a.t]; pc == Installing(id) || pc == InstallFailing(id) || pc == Retiring(id)
    ensures
      var c := Step(w, a).cache;
      || c == w.cache
      || c == Unlink(w.cache, id)
      || (w.tasks[a.t].InstallFailing? &&
            c == Settle(Unlink(w.cache, id), id, Rejected, w.cache.entries[id].signatures))
      || (w.tasks[a.t].Installing? && a.InstallSucceeds? &&
            c == Settle(w.cache, id, Ready(a.governed), Some(a.signatures)))
  {
    hide Evicted, Drop, DoLookup, Touch, Insert, Settle, DoAwake, DoRelease, Valid;
    hide Unlink;
  }

  lemma InstallerPersists(w: World, a: Action)
    requires Inv(w, map[]) && KnownEntries(w)
    requires var pc := PcOf(w, a.t); pc.Installing? || pc.InstallFailing? || pc.Retiring?
    ensures Steady(w, a, Step(w, a))
  {
    var id := w.tasks[a.t].id;
    assert TaskOk(w.cache, w.tasks[a.t]);
    ValidHere(w);
    InstallerStep(w, a, id);
    var w' := Step(w, a);
    hide Step, Inv, Without, Valid, Steady, TaskOk;
    if w'.cache.entries == w.cache.entries {
      NothingNew(w, a, w');
    } else {
      OneSettled(w, a, w', id);
    }
  }

  /** Only this entry changed, and it was being installed. */
  lemma OneSettled(w: World, a: Action, w': World, id: EntryId)
    requires id in w.cache.entries && w.cache.entries[id].future.Unresolved? && id in w'.cache.entries
    requires w'.cache.entries == w.cache.entries[id := w'.cache.entries[id]]
    requires w'.cache.entries[id].key == w.cache.entries[id].key && NewlyReady(w, a, w', id)
    ensures Steady(w, a, w')
  {
  }

  lemma PlainStepPersists(w: World, a: Action)
    requires Valid(w.cache) && KnownEntries(w)
    requires
      var pc := PcOf(w, a.t);
      && !pc.Resolved? && !pc.InstallEvicting? && !pc.Releasing?
      && !pc.Installing? && !pc.InstallFailing? && !pc.Retiring?
    ensures Step(w, a).cache == w.cache && Steady(w, a, Step(w, a))
  {
    hide Evicted, Drop, DoLookup, Unlink, Settle, Valid, NewlyReady, Persist;
    assert Step(w, a).cache == w.cache;
    NothingNew(w, a, Step(w, a));
  }

  lemma NothingNew(w: World, a: Action, w': World)
    requires w'.cache.entries == w.cache.entries
    ensures Steady(w, a, w')
  {
  }

  ghost predicate NewlyReady(w: World, a: Action, w': World, id: EntryId)
    requires id in w'.cache.entries
  {
    var e := w'.cache.entries[id];
    e.future.Ready? && !(id in w.cache.entries && w.cache.entries[id].future.Ready?) ==>
      && a.InstallSucceeds? && PcOf(w, a.t) == Installing(id)
      && e.future == Ready(a.governed) && e.signatures == Some(a.signatures)
  }

  // ---- What was asked for --------------------------------------------------------------------

  /** The key a task arrived with: that of its first arrival. */
  function Asked(actions: seq<Action>, t: TaskId): Option<Key> {
    if actions == [] then None else
      var n := |actions| - 1;
      var before := Asked(actions[..n], t);
      if before.Some? then before
      else if actions[n].Arrive? && actions[n].t == t then Some(actions[n].key)
      else None
  }

  /** What a task is looking for. */
  ghost predicate Seeks(w: World, t: TaskId, key: Key) {
    && t in w.tasks
    && match w.tasks[t]
       case Resolved(k) => k == key
       case Gone => true
       case pc => pc.id in w.cache.entries && w.cache.entries[pc.id].key == key
  }

  lemma StepLeavesOthers(w: World, a: Action, t: TaskId)
    requires Valid(w.cache) && KnownEntries(w) && t in w.tasks && a.t != t
    ensures t in Step(w, a).tasks && PcOf(Step(w, a), t) == PcOf(w, t)
  {
    hide Evicted, Drop, Touch, Insert, Unlink, Settle;
  }

  /** The task retires the entry it was handed, or is about to give it back and start over. */
  predicate GivesUp(pc: Pc) {
    pc.Retiring? || (pc.Releasing? && pc.again)
  }

  /** A step of a task that was handed an entry keeps it to that entry, or to its key. */
  lemma OwnStep(w: World, a: Action)
    requires Valid(w.cache) && KnownEntries(w) && a.t in w.tasks && !w.tasks[a.t].Resolved? && !w.tasks[a.t].Gone?
    ensures a.t in Step(w, a).tasks
    ensures
      var pc, pc' := w.tasks[a.t], Step(w, a).tasks[a.t];
      && (pc'.Gone? || pc' == Resolved(w.cache.entries[pc.id].key) || (!pc'.Resolved? && pc'.id == pc.id))
      && (pc'.Checking? ==> pc' == pc || w.cache.entries[pc.id].future == Ready(true))
      && (GivesUp(pc') ==> pc' == pc || pc.Checking? || pc.Retiring?)
  {
    hide Evicted, Drop, Touch, Insert, Unlink, Settle, DoLookup, Valid;
  }

  lemma EnteringSeeks(w: World, a: Action, key: Key)
    requires Valid(w.cache) && KnownEntries(w)
    requires PcOf(w, a.t) == Resolved(key) || (PcOf(w, a.t) == Gone && (a.t !in w.tasks ==> a == Arrive(a.t, key)))
    ensures Seeks(Step(w, a), a.t, key)
  {
    hide Evicted, Drop, Unlink, Settle, Ranked, QueryCache.Distinct, Without;
  }

  lemma EnteringChecksNothing(w: World, a: Action)
    requires Valid(w.cache) && KnownEntries(w) && (PcOf(w, a.t).Resolved? || PcOf(w, a.t).Gone?)
    ensures !PcOf(Step(w, a), a.t).Checking? && !GivesUp(PcOf(Step(w, a), a.t))
  {
    hide Evicted, Drop, Unlink, Settle, Ranked, QueryCache.Distinct, Touch, Insert;
  }

  lemma StepSeeks(w: World, a: Action, t: TaskId, key: Key)
    requires Inv(w, map[]) && KnownEntries(w)
    requires if t in w.tasks then Seeks(w, t, key) else a == Arrive(t, key)
    ensures Seeks(Step(w, a), t, key)
  {
    ValidHere(w);
    StepPersists(w, a);
    var pc := PcOf(w, t);
    hide Inv, Step, NewlyReady;
    if a.t != t {
      StepLeavesOthers(w, a, t);
      if !pc.Resolved? && !pc.Gone? { assert PersistsIn(w.cache, Step(w, a).cache, pc.id); }
    } else if pc.Resolved? || pc.Gone? {
      EnteringSeeks(w, a, key);
    } else {
      OwnStep(w, a);
      assert PersistsIn(w.cache, Step(w, a).cache, pc.id);
    }
  }

  lemma StepBrings(w: World, a: Action, t: TaskId)
    requires Valid(w.cache) && KnownEntries(w) && t !in w.tasks && t in Step(w, a).tasks
    ensures a.Arrive? && a.t == t
  {
    hide Evicted, Drop, Touch, Insert, Unlink, Settle;
  }

  /** A task in the cache seeks the key it arrived with, in every run and however often it starts over. */
  lemma {:induction false} SeeksWhatItAsked(capacity: nat, actions: seq<Action>, t: TaskId)
    requires t in Run(Initial(capacity), actions).tasks
    ensures Asked(actions, t).Some? && Seeks(Run(Initial(capacity), actions), t, Asked(actions, t).value)
    decreases |actions|
  {
    if actions != [] {
      hide Step, Inv, Seeks, Valid, KnownEntries;
      LastStep(capacity, actions);
      ValidHere(Run(Initial(capacity), actions[..|actions| - 1]));
      var n := |actions| - 1;
      var w := Run(Initial(capacity), actions[..n]);
      hide Run;
      if t in w.tasks {
        SeeksWhatItAsked(capacity, actions[..n], t);
      } else {
        StepBrings(w, actions[n], t);
        NotYetAsked(capacity, actions[..n], t);
      }
      StepSeeks(w, actions[n], t, Asked(actions, t).value);
    }
  }

  lemma {:induction false} NotYetAsked(capacity: nat, actions: seq<Action>, t: TaskId)
    requires t !in Run(Initial(capacity), actions).tasks
    ensures Asked(actions, t).None?
    decreases |actions|
  {
    if actions != [] {
      hide Inv;
      LastStep(capacity, actions);
      var n := |actions| - 1;
      ArrivalsStay(Run(Initial(capacity), actions[..n]), actions[n], t);
      hide Run, Step;
      NotYetAsked(capacity, actions[..n], t);
    }
  }

  lemma ArrivalsStay(w: World, a: Action, t: TaskId)
    requires Valid(w.cache) && KnownEntries(w)
    ensures t in w.tasks || (a.Arrive? && a.t == t) ==> t in Step(w, a).tasks
  {
    hide Evicted, Drop, Touch, Insert, Unlink, Settle;
  }

  // ---- What is handed out ------------------------------------------------------------------------

  /** At step `i` of the run a task installed the entry, having listed those signatures. */
  ghost predicate InstalledAt(
    capacity: nat, actions: seq<Action>, i: nat, id: EntryId, governed: bool, signatures: Signatures)
  {
    && i < |actions| && actions[i].InstallSucceeds?
    && actions[i] == InstallSucceeds(actions[i].t, governed, signatures)
    && PcOf(Run(Initial(capacity), actions[..i]), actions[i].t) == Installing(id)
  }

  /**
    What lets a task through to an entry: it installs it itself, or the entry needs no check, or the signatures it lists
    at this very step are those of the entry.
  */
  predicate LetThrough(pc: Pc, a: Action, id: EntryId, governed: bool, signatures: Signatures) {
    || (pc == Installing(id) && a == InstallSucceeds(a.t, governed, signatures))
    || (pc == Waiting(id) && a.Awake? && !governed)
    || (pc == Checking(id) && governed && a == CompareSignatures(a.t, signatures))
  }

  /** It was let through at step `j`, and has held the entry since. */
  ghost predicate HeldSince(
    capacity: nat, actions: seq<Action>, j: nat, t: TaskId, id: EntryId, governed: bool, signatures: Signatures)
  {
    && j < |actions| && actions[j].t == t
    && LetThrough(PlaceAt(capacity, actions, j, t), actions[j], id, governed, signatures)
    && forall m :: j < m <= |actions| ==> HasIt(PlaceAt(capacity, actions, m, t), id)
  }

  /** Where a task stands after the first `m` steps. */
  ghost function PlaceAt(capacity: nat, actions: seq<Action>, m: nat, t: TaskId): Pc
    requires m <= |actions|
  {
    PcOf(Run(Initial(capacity), actions[..m]), t)
  }

  lemma PlacesStay(capacity: nat, actions: seq<Action>, n: nat, m: nat, t: TaskId)
    requires m <= n <= |actions|
    ensures PlaceAt(capacity, actions[..n], m, t) == PlaceAt(capacity, actions, m, t)
  {
    assert actions[..n][..m] == actions[..m];
  }

  predicate HasIt(pc: Pc, id: EntryId) {
    pc == InstallEvicting(id) || pc == Holding(id)
  }

  /** Only a governed entry is checked, and only after a check is it retired. */
  ghost predicate ChecksGoverned(w: World, t: TaskId) {
    var pc := PcOf(w, t);
    pc.Checking? || GivesUp(pc) ==> pc.id in w.cache.entries && w.cache.entries[pc.id].future == Ready(true)
  }

  lemma StepChecks(w: World, a: Action, t: TaskId)
    requires Inv(w, map[]) && KnownEntries(w) && ChecksGoverned(w, t)
    ensures ChecksGoverned(Step(w, a), t)
  {
    ValidHere(w);
    StepPersists(w, a);
    var pc, pc' := PcOf(w, t), PcOf(Step(w, a), t);
    if pc'.Checking? || GivesUp(pc') {
      hide Inv, Step, NewlyReady;
      if a.t != t {
        StepLeavesOthers(w, a, t);
      } else if pc.Resolved? || pc.Gone? {
        EnteringChecksNothing(w, a);
      } else {
        OwnStep(w, a);
      }
      assert PersistsIn(w.cache, Step(w, a).cache, pc.id);
    }
  }

  lemma {:induction false} ChecksAreGoverned(capacity: nat, actions: seq<Action>, t: TaskId)
    ensures ChecksGoverned(Run(Initial(capacity), actions), t)
    decreases |actions|
  {
    if actions != [] {
      hide Step, Inv, ChecksGoverned, Valid, KnownEntries;
      LastStep(capacity, actions);
      var n := |actions| - 1;
      ChecksAreGoverned(capacity, actions[..n], t);
      var w := Run(Initial(capacity), actions[..n]);
      hide Run;
      StepChecks(w, actions[n], t);
    }
  }

  /** A step by which a task comes to hold an entry. */
  lemma StepHands(w: World, a: Action, t: TaskId, id: EntryId)
    requires Inv(w, map[]) && KnownEntries(w) && ChecksGoverned(w, t)
    requires HasIt(PcOf(Step(w, a), t), id) && !HasIt(PcOf(w, t), id)
    ensures a.t == t && id in Step(w, a).cache.entries
    ensures
      var e := Step(w, a).cache.entries[id];
      e.future.Ready? && e.signatures.Some? && LetThrough(PcOf(w, t), a, id, e.future.governed, e.signatures.value)
  {
    if a.t in w.tasks { assert TaskOk(w.cache, w.tasks[a.t]); }
    if a.t in w.tasks && !w.tasks[a.t].Resolved? && !w.tasks[a.t].Gone? {
      assert EntryOk(w.cache, w.tasks[a.t].id, Claims(w.tasks, map[], w.tasks[a.t].id));
    }
    ValidHere(w);
    hide Evicted, Drop, Inv, TaskOk, DoLookup, Touch, Insert, Unlink, DoRelease, Claims, EntryOk, Valid;
  }

  /** A ready entry is as some earlier step of the run installed it. */
  lemma {:induction false} ReadyWasInstalled(capacity: nat, actions: seq<Action>, id: EntryId)
    requires
      var w := Run(Initial(capacity), actions);
      id in w.cache.entries && w.cache.entries[id].future.Ready?
    ensures
      var e := Run(Initial(capacity), actions).cache.entries[id];
      && e.signatures.Some?
      && exists i: nat :: InstalledAt(capacity, actions, i, id, e.future.governed, e.signatures.value)
    decreases |actions|
  {
    hide Step, Inv, Valid, KnownEntries;
    if actions != [] {
      LastStep(capacity, actions);
      var n := |actions| - 1;
      var w, w' := Run(Initial(capacity), actions[..n]), Run(Initial(capacity), actions);
      hide Run;
      StepPersists(w, actions[n]);
      var e := w'.cache.entries[id];
      if id in w.cache.entries && w.cache.entries[id].future.Ready? {
        ReadyWasInstalled(capacity, actions[..n], id);
        assert PersistsIn(w.cache, w'.cache, id);
        var i: nat :| InstalledAt(capacity, actions[..n], i, id, e.future.governed, e.signatures.value);
        assert actions[..n][..i] == actions[..i];
        assert InstalledAt(capacity, actions, i, id, e.future.governed, e.signatures.value);
      } else {
        assert NewlyReady(w, actions[n], w', id);
        assert InstalledAt(capacity, actions, n, id, e.future.governed, e.signatures.value);
      }
    }
  }

  /** Whoever holds an entry was let through to it as it stands, and has held it since. */
  lemma {:induction false} HolderWasLetThrough(capacity: nat, actions: seq<Action>, t: TaskId, id: EntryId)
    requires HasIt(PcOf(Run(Initial(capacity), actions), t), id)
    ensures id in Run(Initial(capacity), actions).cache.entries
    ensures
      var e := Run(Initial(capacity), actions).cache.entries[id];
      && e.future.Ready? && e.signatures.Some?
      && exists j: nat :: HeldSince(capacity, actions, j, t, id, e.future.governed, e.signatures.value)
    decreases |actions|
  {
    hide Step, Inv, Valid, KnownEntries, LetThrough;
    assert actions != [];
    LastStep(capacity, actions);
    var n := |actions| - 1;
    var w, w' := Run(Initial(capacity), actions[..n]), Run(Initial(capacity), actions);
    assert actions[..|actions|] == actions;
    hide Run;
    if HasIt(PcOf(w, t), id) {
      HolderWasLetThrough(capacity, actions[..n], t, id);
      StepPersists(w, actions[n]);
      assert PersistsIn(w.cache, w'.cache, id);
      var e := w'.cache.entries[id];
      var j: nat :| HeldSince(capacity, actions[..n], j, t, id, e.future.governed, e.signatures.value);
      HeldLonger(capacity, actions, j, t, id, e.future.governed, e.signatures.value);
    } else {
      ChecksAreGoverned(capacity, actions[..n], t);
      StepHands(w, actions[n], t, id);
      var e := w'.cache.entries[id];
      assert HeldSince(capacity, actions, n, t, id, e.future.governed, e.signatures.value);
    }
  }

  lemma HeldLonger(
    capacity: nat, actions: seq<Action>, j: nat, t: TaskId, id: EntryId, governed: bool, signatures: Signatures)
    requires actions != []
    requires HeldSince(capacity, actions[..|actions| - 1], j, t, id, governed, signatures)
    requires HasIt(PlaceAt(capacity, actions, |actions|, t), id)
    ensures HeldSince(capacity, actions, j, t, id, governed, signatures)
  {
    hide LetThrough, HasIt, PlaceAt;
    PlacesStay(capacity, actions, |actions| - 1, j, t);
    forall m | j < m <= |actions|
      ensures HasIt(PlaceAt(capacity, actions, m, t), id)
    {
      if m < |actions| { PlacesStay(capacity, actions, |actions| - 1, m, t); }
    }
  }

  /**
    Whatever the schedule, a request that holds an entry holds the brain it asked for, as some task installed it: it
    installed it itself, or the brain is ungoverned, or at the step it was let through, and it has held it since, it had
    just listed the very signatures the installer listed.
  */
  lemma HeldIsWhatWasAsked(capacity: nat, actions: seq<Action>, t: TaskId, id: EntryId)
    requires PcOf(Run(Initial(capacity), actions), t) == Holding(id)
    ensures
      var w := Run(Initial(capacity), actions);
      && id in w.cache.entries && Asked(actions, t) == Some(w.cache.entries[id].key)
      && exists i: nat, j: nat, governed, signatures ::
           && InstalledAt(capacity, actions, i, id, governed, signatures)
           && HeldSince(capacity, actions, j, t, id, governed, signatures)
  {
    hide Step, Inv, InstalledAt, HeldSince, Run;
    SeeksWhatItAsked(capacity, actions, t);
    HolderWasLetThrough(capacity, actions, t, id);
    ReadyWasInstalled(capacity, actions, id);
    var e := Run(Initial(capacity), actions).cache.entries[id];
    var i: nat :| InstalledAt(capacity, actions, i, id, e.future.governed, e.signatures.value);
    var j: nat :| HeldSince(capacity, actions, j, t, id, e.future.governed, e.signatures.value);
  }

  // ---- What is refused ---------------------------------------------------------------------------

  /** At step `j` the task listed other signatures than the entry has. */
  ghost predicate RefusedAt(
    capacity: nat, actions: seq<Action>, j: nat, t: TaskId, id: EntryId, signatures: Signatures)
  {
    && j < |actions| && actions[j].CompareSignatures? && actions[j].t == t && actions[j].signatures != signatures
    && PcOf(Run(Initial(capacity), actions[..j]), t) == Checking(id)
  }

  /** A step by which a task comes to retire an entry. */
  lemma StepRefuses(w: World, a: Action, t: TaskId, id: EntryId)
    requires Inv(w, map[]) && KnownEntries(w) && ChecksGoverned(w, t)
    requires GivesUp(PcOf(Step(w, a), t)) && PcOf(Step(w, a), t).id == id && !GivesUp(PcOf(w, t))
    ensures a.CompareSignatures? && a.t == t && PcOf(w, t) == Checking(id)
    ensures id in w.cache.entries && Step(w, a).cache == w.cache
    ensures w.cache.entries[id].signatures.Some? && a.signatures != w.cache.entries[id].signatures.value
  {
    if a.t in w.tasks { assert TaskOk(w.cache, w.tasks[a.t]); }
    if a.t in w.tasks && !w.tasks[a.t].Resolved? && !w.tasks[a.t].Gone? {
      assert EntryOk(w.cache, w.tasks[a.t].id, Claims(w.tasks, map[], w.tasks[a.t].id));
    }
    hide Evicted, Drop, Inv, TaskOk, Touch, Insert, Unlink, Claims;
  }

  lemma StillGivesUp(w: World, a: Action, t: TaskId)
    requires Inv(w, map[]) && KnownEntries(w) && GivesUp(PcOf(w, t)) && GivesUp(PcOf(Step(w, a), t))
    ensures PcOf(Step(w, a), t).id == PcOf(w, t).id
  {
    ValidHere(w);
    hide Step, Valid;
    if a.t == t { OwnStep(w, a); } else { StepLeavesOthers(w, a, t); }
  }

  /**
    An entry is retired, and a request starts over, only because the entry is governed and the request listed other
    signatures than its installer did.
  */
  lemma {:induction false} RetiredOnlyWhenDifferent(capacity: nat, actions: seq<Action>, t: TaskId, id: EntryId)
    requires GivesUp(PcOf(Run(Initial(capacity), actions), t)) && PcOf(Run(Initial(capacity), actions), t).id == id
    ensures id in Run(Initial(capacity), actions).cache.entries
    ensures
      var e := Run(Initial(capacity), actions).cache.entries[id];
      && e.future == Ready(true) && e.signatures.Some?
      && exists j: nat :: RefusedAt(capacity, actions, j, t, id, e.signatures.value)
    decreases |actions|
  {
    hide Step, Inv, Valid, KnownEntries;
    assert actions != [];
    ChecksAreGoverned(capacity, actions, t);
    LastStep(capacity, actions);
    var n := |actions| - 1;
    var w, w' := Run(Initial(capacity), actions[..n]), Run(Initial(capacity), actions);
    hide Run;
    if GivesUp(PcOf(w, t)) {
      StillGivesUp(w, actions[n], t);
      RetiredOnlyWhenDifferent(capacity, actions[..n], t, id);
      StepPersists(w, actions[n]);
      assert PersistsIn(w.cache, w'.cache, id);
      var e := w'.cache.entries[id];
      var j: nat :| RefusedAt(capacity, actions[..n], j, t, id, e.signatures.value);
      assert actions[..n][..j] == actions[..j];
      assert RefusedAt(capacity, actions, j, t, id, e.signatures.value);
    } else {
      ChecksAreGoverned(capacity, actions[..n], t);
      StepRefuses(w, actions[n], t, id);
      assert RefusedAt(capacity, actions, n, t, id, w'.cache.entries[id].signatures.value);
    }
  }

  /** What can be found never failed to install. */
  ghost predicate FoundAreSound(c: Cache) {
    forall id :: id in c.order && id in c.entries ==> !c.entries[id].future.Rejected?
  }

  lemma StepKeepsSound(w: World, a: Action)
    requires Inv(w, map[]) && KnownEntries(w) && FoundAreSound(w.cache)
    ensures FoundAreSound(Step(w, a).cache)
    ensures forall id :: id in w.cache.entries && id !in w.cache.order ==> id !in Step(w, a).cache.order
  {
    var pc := PcOf(w, a.t);
    ValidHere(w);
    if a.t in w.tasks { assert TaskOk(w.cache, w.tasks[a.t]); }
    hide Inv, Step;
    match pc
    case Resolved(_) => LookupKeepsSound(w, a);
    case InstallFailing(_) => CutKeepsSound(w, a, pc.id);
    case Retiring(_) => CutKeepsSound(w, a, pc.id);
    case InstallEvicting(_) => EvictingKeepsSound(w, a);
    case Releasing(_, _) => EvictingKeepsSound(w, a);
    case _ => PlainKeepsSound(w, a);
  }

  ghost predicate SoundAfter(c: Cache, c': Cache) {
    && FoundAreSound(c')
    && forall id :: id in c.entries && id !in c.order ==> id !in c'.order
  }

  lemma LookupKeepsSound(w: World, a: Action)
    requires Valid(w.cache) && KnownEntries(w) && FoundAreSound(w.cache) && PcOf(w, a.t).Resolved?
    ensures SoundAfter(w.cache, Step(w, a).cache)
  {
    var key := PcOf(w, a.t).key;
    var found := Find(w.cache.order, w.cache.entries, key);
    if found.Some? { TouchKeeps(w.cache, found.value); }
    hide Find, Ranked, QueryCache.Distinct, Evicted, Drop, Unlink, Settle, Without;
  }

  lemma CutKeepsSound(w: World, a: Action, id: EntryId)
    requires Valid(w.cache) && KnownEntries(w) && FoundAreSound(w.cache) && a.t in w.tasks && id in w.cache.entries
    requires w.tasks[a.t] == InstallFailing(id) || w.tasks[a.t] == Retiring(id)
    ensures SoundAfter(w.cache, Step(w, a).cache)
  {
    UnlinkKeeps(w.cache, id);
    hide Find, Ranked, QueryCache.Distinct, Evicted, Drop, Without;
  }

  lemma EvictedIsSound(c: Cache)
    requires Valid(c) && FoundAreSound(c)
    ensures SoundAfter(c, Evicted(c))
  {
    EvictionKeeps(c);
    hide Evicted, Ranked;
  }

  lemma DroppedIsSound(c: Cache, id: EntryId)
    requires Valid(c) && FoundAreSound(c) && id in c.entries
    ensures Valid(Drop(c, id)) && FoundAreSound(Drop(c, id)) && Drop(c, id).order == c.order
    ensures Drop(c, id).entries.Keys == c.entries.Keys
  {
    DropKeeps(c, id);
    hide Ranked;
  }

  lemma EvictingKeepsSound(w: World, a: Action)
    requires Valid(w.cache) && KnownEntries(w) && FoundAreSound(w.cache)
    requires PcOf(w, a.t).InstallEvicting? || PcOf(w, a.t).Releasing?
    ensures SoundAfter(w.cache, Step(w, a).cache)
  {
    hide FoundAreSound, Evicted, Drop, DoLookup, Unlink, Settle;
    EvictedIsSound(w.cache);
    if PcOf(w, a.t).Releasing? {
      DroppedIsSound(w.cache, PcOf(w, a.t).id);
      EvictedIsSound(Drop(w.cache, PcOf(w, a.t).id));
    }
    hide Valid;
  }

  lemma PlainKeepsSound(w: World, a: Action)
    requires Valid(w.cache) && KnownEntries(w) && FoundAreSound(w.cache)
    requires
      var pc := PcOf(w, a.t);
      !pc.Resolved? && !pc.InstallFailing? && !pc.Retiring? && !pc.InstallEvicting? && !pc.Releasing?
    ensures SoundAfter(w.cache, Step(w, a).cache)
  {
    hide Evicted, Drop, DoLookup, Unlink, Without, Ranked, QueryCache.Distinct;
  }

  /** In every run, what a key finds is ready or on its way, never what failed to install. */
  lemma {:induction false} FoundIsNeverRejected(capacity: nat, actions: seq<Action>)
    ensures FoundAreSound(Run(Initial(capacity), actions).cache)
    decreases |actions|
  {
    if actions != [] {
      hide Step, Inv, FoundAreSound, Valid, KnownEntries;
      LastStep(capacity, actions);
      var n := |actions| - 1;
      FoundIsNeverRejected(capacity, actions[..n]);
      hide Run;
      StepKeepsSound(Run(Initial(capacity), actions[..n]), actions[n]);
    } else {
      assert Run(Initial(capacity), actions) == Initial(capacity);
    }
  }

  predicate Fits(c: Cache) {
    |c.order| <= c.capacity || forall id :: id in c.order ==> !IdleIn(c.entries, id)
  }

  lemma EvictedFits(c: Cache)
    requires Valid(c)
    ensures Fits(Evicted(c))
  {
    EvictionKeeps(c);
    EvictionIsLeastRecentAndMinimal(c);
  }

  lemma StepFits(w: World, a: Action)
    requires Valid(w.cache) && KnownEntries(w)
    requires var pc := PcOf(w, a.t); (a.FinishInstall? && pc.InstallEvicting?) || (a.Release? && pc.Releasing?)
    ensures Fits(Step(w, a).cache)
  {
    hide Fits, Evicted;
    if a.Release? {
      DropKeeps(w.cache, PcOf(w, a.t).id);
      EvictedFits(Drop(w.cache, PcOf(w, a.t).id));
    } else {
      EvictedFits(w.cache);
    }
    hide Valid, Drop;
  }

  /** After an installation and after a release the map fits, or whatever is in it is in use or being installed. */
  lemma EveryReleaseEvicts(capacity: nat, actions: seq<Action>, a: Action)
    requires
      var pc := PcOf(Run(Initial(capacity), actions), a.t);
      (a.FinishInstall? && pc.InstallEvicting?) || (a.Release? && pc.Releasing?)
    ensures
      var c := Next(Run(Initial(capacity), actions), a).cache;
      |c.order| <= capacity || forall id :: id in c.order ==> !IdleIn(c.entries, id)
  {
    RunKeeps(Initial(capacity), map[], actions);
    hide Inv, Step, Valid, KnownEntries;
    var w := Run(Initial(capacity), actions);
    CapacityStays(capacity, actions + [a]);
    ValidHere(w);
    StepKeeps(w, map[], a);
    StepFits(w, a);
    RunSplits(Initial(capacity), actions, [a]);
    RunOfOne(w, a);
  }

  lemma StepKeepsCapacity(w: World, a: Action)
    requires Valid(w.cache) && KnownEntries(w)
    ensures Step(w, a).cache.capacity == w.cache.capacity
  {
    hide Survivors, Disposed, Victims, Without, Find, Dispose, Valid;
  }

  lemma {:induction false} CapacityStays(capacity: nat, actions: seq<Action>)
    ensures Run(Initial(capacity), actions).cache.capacity == capacity
    decreases |actions|
  {
    if actions != [] {
      hide Inv, Run, Step;
      LastStep(capacity, actions);
      CapacityStays(capacity, actions[..|actions| - 1]);
      StepKeepsCapacity(Run(Initial(capacity), actions[..|actions| - 1]), actions[|actions| - 1]);
    } else {
      assert Run(Initial(capacity), actions) == Initial(capacity);
    }
  }

  // ---- What a request gets -------------------------------------------------------------------------

  ghost predicate Others(actions: seq<Action>, t: TaskId) {
    forall a :: a in actions ==> a.t != t
  }

  /** The task is at that place, and the ready entry is as given. */
  ghost predicate Faces(w: World, t: TaskId, pc: Pc, id: EntryId, key: Key, governed: bool, signatures: Signatures) {
    && Inv(w, map[]) && PcOf(w, t) == pc && t in w.tasks
    && id in w.cache.entries && w.cache.entries[id].key == key
    && w.cache.entries[id].future == Ready(governed) && w.cache.entries[id].signatures == Some(signatures)
  }

  /** Whatever the others do, the task stays where it is, and the entry as it is. */
  lemma {:induction false} OthersLeaveItSo(
    w: World, others: seq<Action>, t: TaskId, pc: Pc, id: EntryId, key: Key, governed: bool, signatures: Signatures)
    requires Faces(w, t, pc, id, key, governed, signatures) && Others(others, t)
    ensures Faces(Run(w, others), t, pc, id, key, governed, signatures)
    decreases |others|
  {
    if others != [] {
      var a := others[0];
      ValidHere(w);
      StepKeeps(w, map[], a);
      StepLeavesOthers(w, a, t);
      StepPersists(w, a);
      assert PersistsIn(w.cache, Step(w, a).cache, id);
      hide Step, Inv;
      OthersLeaveItSo(Next(w, a), others[1..], t, pc, id, key, governed, signatures);
    }
  }

  /** A step of the task itself moves it on, and leaves the entry as it is. */
  lemma MovesOn(
    w: World, a: Action, t: TaskId, pc: Pc, pc': Pc, id: EntryId, key: Key, governed: bool, signatures: Signatures)
    requires Faces(w, t, pc, id, key, governed, signatures) && a.t == t
    requires Valid(w.cache) && KnownEntries(w) && PcOf(Step(w, a), t) == pc' && t in Step(w, a).tasks
    ensures Faces(Run(w, [a]), t, pc', id, key, governed, signatures)
  {
    StepKeeps(w, map[], a);
    StepPersists(w, a);
    assert PersistsIn(w.cache, Step(w, a).cache, id);
    RunOfOne(w, a);
    hide Step, Inv;
  }

  /** A request that looks the entry up waits for it. */
  lemma LookupFinds(w: World, t: TaskId, id: EntryId, key: Key, governed: bool, signatures: Signatures)
    requires Faces(w, t, Resolved(key), id, key, governed, signatures)
    requires Valid(w.cache) && Find(w.cache.order, w.cache.entries, key) == Some(id)
    ensures Faces(Run(w, [Lookup(t)]), t, Waiting(id), id, key, governed, signatures)
  {
    StepKeeps(w, map[], Lookup(t));
    MovesOn(w, Lookup(t), t, Resolved(key), Waiting(id), id, key, governed, signatures);
  }

  /** It wakes to check a governed entry, and to hold any other. */
  lemma WakesUp(w: World, t: TaskId, id: EntryId, key: Key, governed: bool, signatures: Signatures)
    requires Faces(w, t, Waiting(id), id, key, governed, signatures)
    ensures Faces(Run(w, [Awake(t)]), t, if governed then Checking(id) else Holding(id), id, key, governed, signatures)
  {
    StepKeeps(w, map[], Awake(t));
    var pc' := if governed then Checking(id) else Holding(id);
    MovesOn(w, Awake(t), t, Waiting(id), pc', id, key, governed, signatures);
  }

  lemma Compares(w: World, t: TaskId, id: EntryId, key: Key, signatures: Signatures, listed: Signatures)
    requires Faces(w, t, Checking(id), id, key, true, signatures)
    ensures
      var pc := if listed == signatures then Holding(id) else Retiring(id);
      Faces(Run(w, [CompareSignatures(t, listed)]), t, pc, id, key, true, signatures)
  {
    StepKeeps(w, map[], CompareSignatures(t, listed));
    var pc' := if listed == signatures then Holding(id) else Retiring(id);
    MovesOn(w, CompareSignatures(t, listed), t, Checking(id), pc', id, key, true, signatures);
  }

  /** What a request does that finds a ready entry, with the others' steps in between. */
  function Checked(t: TaskId, o1: seq<Action>, o2: seq<Action>, listed: Signatures): seq<Action> {
    [Lookup(t)] + (o1 + ([Awake(t)] + (o2 + [CompareSignatures(t, listed)])))
  }

  /**
    A request that finds a governed brain and lists the signatures it was installed with ends holding it, whatever the
    others do meanwhile; one that lists any others ends retiring it.
  */
  lemma ServedIffSignaturesAgree(
    capacity: nat, before: seq<Action>, t: TaskId, key: Key, id: EntryId, signatures: Signatures,
    o1: seq<Action>, o2: seq<Action>, listed: Signatures)
    requires Others(o1, t) && Others(o2, t)
    requires
      var w := Run(Initial(capacity), before);
      && Valid(w.cache) && PcOf(w, t) == Resolved(key) && Find(w.cache.order, w.cache.entries, key) == Some(id)
      && w.cache.entries[id].future == Ready(true) && w.cache.entries[id].signatures == Some(signatures)
    ensures
      var w' := Run(Initial(capacity), before + Checked(t, o1, o2, listed));
      && id in w'.cache.entries && w'.cache.entries[id].key == key
      && PcOf(w', t) == if listed == signatures then Holding(id) else Retiring(id)
  {
    var w := Run(Initial(capacity), before);
    RunKeeps(Initial(capacity), map[], before);
    assert Faces(w, t, Resolved(key), id, key, true, signatures);
    hide Inv;
    LookupFinds(w, t, id, key, true, signatures);
    var w1 := Run(w, [Lookup(t)]);
    hide Find, Valid, Run;
    OthersLeaveItSo(w1, o1, t, Waiting(id), id, key, true, signatures);
    WakesUp(Run(w1, o1), t, id, key, true, signatures);
    var w2 := Run(Run(w1, o1), [Awake(t)]);
    OthersLeaveItSo(w2, o2, t, Checking(id), id, key, true, signatures);
    Compares(Run(w2, o2), t, id, key, signatures, listed);
    RunSplits(w2, o2, [CompareSignatures(t, listed)]);
    RunSplits(Run(w1, o1), [Awake(t)], o2 + [CompareSignatures(t, listed)]);
    RunSplits(w1, o1, [Awake(t)] + (o2 + [CompareSignatures(t, listed)]));
    RunSplits(w, [Lookup(t)], o1 + ([Awake(t)] + (o2 + [CompareSignatures(t, listed)])));
    RunSplits(Initial(capacity), before, Checked(t, o1, o2, listed));
  }

  /** A request that finds any other brain ready ends holding it. */
  lemma UngovernedIsServed(
    capacity: nat, before: seq<Action>, t: TaskId, key: Key, id: EntryId, signatures: Signatures, o1: seq<Action>)
    requires Others(o1, t)
    requires
      var w := Run(Initial(capacity), before);
      && Valid(w.cache) && PcOf(w, t) == Resolved(key) && Find(w.cache.order, w.cache.entries, key) == Some(id)
      && w.cache.entries[id].future == Ready(false) && w.cache.entries[id].signatures == Some(signatures)
    ensures
      var w' := Run(Initial(capacity), before + ([Lookup(t)] + (o1 + [Awake(t)])));
      id in w'.cache.entries && w'.cache.entries[id].key == key && PcOf(w', t) == Holding(id)
  {
    var w := Run(Initial(capacity), before);
    RunKeeps(Initial(capacity), map[], before);
    assert Faces(w, t, Resolved(key), id, key, false, signatures);
    hide Inv;
    LookupFinds(w, t, id, key, false, signatures);
    var w1 := Run(w, [Lookup(t)]);
    hide Find, Valid, Run;
    OthersLeaveItSo(w1, o1, t, Waiting(id), id, key, false, signatures);
    WakesUp(Run(w1, o1), t, id, key, false, signatures);
    RunSplits(w1, o1, [Awake(t)]);
    RunSplits(w, [Lookup(t)], o1 + [Awake(t)]);
    RunSplits(Initial(capacity), before, [Lookup(t)] + (o1 + [Awake(t)]));
  }

  // ---- Starting over ------------------------------------------------------------------------------------

  lemma {:induction false} CutOutForEver(w: World, later: seq<Action>, id: EntryId)
    requires Inv(w, map[]) && FoundAreSound(w.cache) && id in w.cache.entries && id !in w.cache.order
    ensures id in Run(w, later).cache.entries && id !in Run(w, later).cache.order
    decreases |later|
  {
    if later != [] {
      StepKeeps(w, map[], later[0]);
      ValidHere(w);
      StepKeepsSound(w, later[0]);
      StepPersists(w, later[0]);
      assert PersistsIn(w.cache, Step(w, later[0]).cache, id);
      hide Step, Inv;
      CutOutForEver(Next(w, later[0]), later[1..], id);
    }
  }

  lemma RetireCuts(w: World, t: TaskId, id: EntryId)
    requires Inv(w, map[]) && PcOf(w, t) == Retiring(id)
    ensures
      var w' := Next(w, Retire(t));
      PcOf(w', t) == Releasing(id, true) && id in w'.cache.entries && id !in w'.cache.order
  {
    StepKeeps(w, map[], Retire(t));
    ValidHere(w);
    assert TaskOk(w.cache, w.tasks[t]);
    UnlinkKeeps(w.cache, id);
    RetireStep(w, t, id);
    hide Inv, Step, Valid, Without;
  }

  lemma RetireStep(w: World, t: TaskId, id: EntryId)
    requires Valid(w.cache) && KnownEntries(w) && PcOf(w, t) == Retiring(id)
    ensures Step(w, Retire(t)) == Goto(w.(cache := Unlink(w.cache, id)), t, Releasing(id, true))
  {
    hide Evicted, Drop, DoLookup, Touch, Insert, Settle, Unlink, DoAwake, DoRelease, Valid;
  }

  /**
    An entry whose signatures differ is never found again, in any continuation; and once it is given back the request
    looks for the same key again.
  */
  lemma StaleEntryIsReplaced(
    capacity: nat, before: seq<Action>, t: TaskId, id: EntryId, o1: seq<Action>, later: seq<Action>)
    requires Others(o1, t) && PcOf(Run(Initial(capacity), before), t) == Retiring(id)
    ensures id !in Run(Initial(capacity), before + ([Retire(t)] + later)).cache.order
    ensures Asked(before, t).Some?
    ensures PcOf(Run(Initial(capacity), before + ([Retire(t)] + (o1 + [Release(t)]))), t)
         == Resolved(Asked(before, t).value)
  {
    var w := Run(Initial(capacity), before);
    SeeksWhatItAsked(capacity, before, t);
    RunKeeps(Initial(capacity), map[], before);
    FoundIsNeverRejected(capacity, before);
    ChecksAreGoverned(capacity, before, t);
    RetiredOnlyWhenDifferent(capacity, before, t, id);
    var e := w.cache.entries[id];
    assert Faces(w, t, Retiring(id), id, e.key, true, e.signatures.value);
    RetireCuts(w, t, id);
    StepKeeps(w, map[], Retire(t));
    ValidHere(w);
    StepKeepsSound(w, Retire(t));
    hide Inv, Step;
    var w1 := Next(w, Retire(t));
    RunOfOne(w, Retire(t));
    MovesOn(w, Retire(t), t, Retiring(id), Releasing(id, true), id, e.key, true, e.signatures.value);
    hide Run;
    CutOutForEver(w1, later, id);
    OthersLeaveItSo(w1, o1, t, Releasing(id, true), id, e.key, true, e.signatures.value);
    GivingBackLeads(Run(w1, o1), t, id, true);
    RunOfOne(Run(w1, o1), Release(t));
    RunSplits(w1, o1, [Release(t)]);
    RunSplits(w, [Retire(t)], o1 + [Release(t)]);
    RunSplits(w, [Retire(t)], later);
    RunSplits(Initial(capacity), before, [Retire(t)] + (o1 + [Release(t)]));
    RunSplits(Initial(capacity), before, [Retire(t)] + later);
  }

  // ---- Leaving ------------------------------------------------------------------------------------------

  /** A step the task itself takes from a world that satisfies the invariant: it leads there, and leaks nothing. */
  ghost predicate LeadsTo(w: World, a: Action, pc: Pc) {
    Inv(w, map[]) && !Leaks(w, a) && PcOf(Next(w, a), a.t) == pc
  }

  /** The task's way out: a run of its own steps after which it is gone, and which gives back what it held. */
  ghost predicate WaysOut(w: World, actions: seq<Action>, t: TaskId) {
    PcOf(Run(w, actions), t) == Gone && GivesBack(w, actions) && forall a :: a in actions ==> a.t == t
  }

  lemma OneStepOn(w: World, a: Action, pc: Pc, rest: seq<Action>)
    requires LeadsTo(w, a, pc) && WaysOut(Next(w, a), rest, a.t)
    ensures WaysOut(w, [a] + rest, a.t)
  {
    hide Step, Inv, Next;
    assert ([a] + rest)[0] == a && ([a] + rest)[1..] == rest;
  }

  lemma NextKeeps(w: World, a: Action)
    requires Inv(w, map[])
    ensures Inv(Next(w, a), map[]) && Valid(w.cache) && KnownEntries(w) && Next(w, a) == Step(w, a)
  {
    StepKeeps(w, map[], a);
    ValidHere(w);
    hide Step, Inv;
  }

  lemma GivingBackLeads(w: World, t: TaskId, id: EntryId, again: bool)
    requires Inv(w, map[]) && PcOf(w, t) == Releasing(id, again)
    ensures id in w.cache.entries
    ensures LeadsTo(w, Release(t), if again then Resolved(w.cache.entries[id].key) else Gone)
  {
    NextKeeps(w, Release(t));
    hide Inv, Evicted, Drop, DoLookup, Touch, Insert, Settle, Unlink, Valid;
  }

  lemma HoldingLeads(w: World, t: TaskId, id: EntryId)
    requires Inv(w, map[]) && PcOf(w, t) == Holding(id)
    ensures LeadsTo(w, Done(t), Releasing(id, false))
  {
    NextKeeps(w, Done(t));
    hide Inv, Evicted, Drop, DoLookup, Touch, Insert, Settle, Unlink, DoRelease, Valid;
  }

  lemma FailingLeads(w: World, t: TaskId, id: EntryId)
    requires Inv(w, map[]) && PcOf(w, t) == InstallFailing(id)
    ensures LeadsTo(w, FailInstall(t), Releasing(id, false))
  {
    NextKeeps(w, FailInstall(t));
    hide Inv, Evicted, Drop, DoLookup, Touch, Insert, Settle, Unlink, DoRelease, Valid;
  }

  lemma WaitMayEnd(w: World, t: TaskId, id: EntryId)
    requires Inv(w, map[]) && PcOf(w, t) == Waiting(id)
    ensures LeadsTo(w, AwaitRaises(t), Releasing(id, false))
  {
    NextKeeps(w, AwaitRaises(t));
    hide Inv, Evicted, Drop, DoLookup, Touch, Insert, Settle, Unlink, DoRelease, Valid;
  }

  /**
    A waiting request is woken exactly by what it waits for: where the installation failed it gives the entry back, and
    until it is over it stays.
  */
  lemma WaitingLeads(w: World, t: TaskId, id: EntryId)
    requires Inv(w, map[]) && PcOf(w, t) == Waiting(id)
    ensures id in w.cache.entries
    ensures
      LeadsTo(w, Awake(t),
              match w.cache.entries[id].future
              case Unresolved => Waiting(id)
              case Rejected => Releasing(id, false)
              case Ready(governed) => if governed then Checking(id) else Holding(id))
  {
    NextKeeps(w, Awake(t));
    hide Inv, Evicted, Drop, DoLookup, Touch, Insert, Settle, Unlink, DoRelease, Valid;
  }

  lemma InstallingLeads(w: World, t: TaskId, id: EntryId)
    requires Inv(w, map[]) && PcOf(w, t) == Installing(id)
    ensures LeadsTo(w, InstallRaises(t), InstallFailing(id))
  {
    NextKeeps(w, InstallRaises(t));
    hide Inv, Evicted, Drop, DoLookup, Touch, Insert, Settle, Unlink, DoRelease, Valid;
  }

  lemma EvictingLeads(w: World, t: TaskId, id: EntryId)
    requires Inv(w, map[]) && PcOf(w, t) == InstallEvicting(id)
    ensures LeadsTo(w, FinishInstall(t), Holding(id))
  {
    NextKeeps(w, FinishInstall(t));
    hide Inv, Evicted, Drop, DoLookup, Touch, Insert, Settle, Unlink, DoRelease, Valid;
  }

  lemma RetiringLeads(w: World, t: TaskId, id: EntryId)
    requires Inv(w, map[]) && PcOf(w, t) == Retiring(id)
    ensures LeadsTo(w, Retire(t), Releasing(id, true))
  {
    NextKeeps(w, Retire(t));
    hide Inv, Evicted, Drop, DoLookup, Touch, Insert, Settle, Unlink, DoRelease, Valid;
  }

  lemma CheckingLeads(w: World, t: TaskId, id: EntryId)
    requires Inv(w, map[]) && PcOf(w, t) == Checking(id)
    ensures id in w.cache.entries && w.cache.entries[id].signatures.Some?
    ensures LeadsTo(w, CompareSignatures(t, w.cache.entries[id].signatures.value), Holding(id))
  {
    assert TaskOk(w.cache, w.tasks[t]);
    assert EntryOk(w.cache, id, Claims(w.tasks, map[], id));
    var signatures := w.cache.entries[id].signatures.value;
    NextKeeps(w, CompareSignatures(t, signatures));
    hide Inv, Evicted, Drop, DoLookup, Touch, Insert, Settle, Unlink, DoRelease, Valid;
  }

  lemma ResolvedLeads(w: World, t: TaskId, key: Key)
    requires Inv(w, map[]) && PcOf(w, t) == Resolved(key)
    ensures LeadsTo(w, LockWaitCancelled(t), Gone)
  {
    NextKeeps(w, LockWaitCancelled(t));
    hide Inv, Evicted, Drop, DoLookup, Touch, Insert, Settle, Unlink, DoRelease, Valid;
  }

  /** How many steps of its own a task is from being gone, at most. */
  function StepsLeft(pc: Pc): nat {
    match pc
    case Gone => 0
    case Resolved(_) => 1
    case Releasing(_, again) => if again then 2 else 1
    case Holding(_) => 2
    case Waiting(_) => 2
    case InstallFailing(_) => 2
    case Retiring(_) => 3
    case Checking(_) => 3
    case InstallEvicting(_) => 3
    case Installing(_) => 3
  }

  /** The next step of the way out. */
  lemma NextWayOut(w: World, t: TaskId) returns (a: Action, pc: Pc)
    requires Inv(w, map[]) && PcOf(w, t) != Gone
    ensures a.t == t && LeadsTo(w, a, pc) && StepsLeft(pc) < StepsLeft(PcOf(w, t))
  {
    hide Inv, LeadsTo;
    match PcOf(w, t)
    case Resolved(key) => ResolvedLeads(w, t, key); a, pc := LockWaitCancelled(t), Gone;
    case Installing(id) => InstallingLeads(w, t, id); a, pc := InstallRaises(t), InstallFailing(id);
    case InstallFailing(id) => FailingLeads(w, t, id); a, pc := FailInstall(t), Releasing(id, false);
    case InstallEvicting(id) => EvictingLeads(w, t, id); a, pc := FinishInstall(t), Holding(id);
    case Waiting(id) => WaitMayEnd(w, t, id); a, pc := AwaitRaises(t), Releasing(id, false);
    case Checking(id) =>
      CheckingLeads(w, t, id);
      a, pc := CompareSignatures(t, w.cache.entries[id].signatures.value), Holding(id);
    case Retiring(id) => RetiringLeads(w, t, id); a, pc := Retire(t), Releasing(id, true);
    case Releasing(id, again) =>
      GivingBackLeads(w, t, id, again);
      a, pc := Release(t), if again then Resolved(w.cache.entries[id].key) else Gone;
    case Holding(id) => HoldingLeads(w, t, id); a, pc := Done(t), Releasing(id, false);
  }

  /**
    In every run, whatever the others did and wherever it stands, a request can leave by its own steps, in at most three
    of them, giving back what it holds.
  */
  lemma {:induction false} EveryRequestCanLeave(w: World, t: TaskId) returns (actions: seq<Action>)
    requires Inv(w, map[])
    ensures WaysOut(w, actions, t) && |actions| <= StepsLeft(PcOf(w, t))
    decreases StepsLeft(PcOf(w, t))
  {
    if PcOf(w, t) == Gone {
      actions := [];
    } else {
      var a, pc := NextWayOut(w, t);
      NextKeeps(w, a);
      hide Inv, Step;
      var rest := EveryRequestCanLeave(Next(w, a), t);
      OneStepOn(w, a, pc, rest);
      actions := [a] + rest;
    }
  }
}
