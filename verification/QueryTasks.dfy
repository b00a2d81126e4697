/**
  The requests of the query server as tasks that interleave at their awaits: every step is a critical section of the
  cache's lock, or what a task does between two awaits.
*/
module QueryTasks {
  import opened Wrappers
  import opened QueryCache

  type TaskId = nat

  datatype Pc =
    | Resolved(key: Key)
    | Installing(id: EntryId)
    | InstallFailing(id: EntryId)
    | InstallEvicting(id: EntryId)
    | Waiting(id: EntryId)
    | Checking(id: EntryId)
    | Retiring(id: EntryId)
    | Releasing(id: EntryId, again: bool)
    | Holding(id: EntryId)
    | Gone
  {
    /** Whether the task was handed the entry and has not given it back. */
    predicate Holds(e: EntryId) {
      !Resolved? && !Gone? && id == e
    }

    predicate Installs(e: EntryId) {
      (Installing? || InstallFailing?) && id == e
    }
  }

  datatype World = World(cache: Cache, tasks: map<TaskId, Pc>)

  datatype Action =
    | Arrive(t: TaskId, key: Key)
    | Lookup(t: TaskId)
    | InstallSucceeds(t: TaskId, governed: bool, signatures: Signatures)
    | InstallRaises(t: TaskId)
    | FailInstall(t: TaskId)
    | FinishInstall(t: TaskId)
    | Awake(t: TaskId)
    | AwaitRaises(t: TaskId)
    | CompareSignatures(t: TaskId, signatures: Signatures)
    | CompareRaises(t: TaskId)
    | Retire(t: TaskId)
    | Release(t: TaskId)
    | Done(t: TaskId)
    | LockWaitCancelled(t: TaskId)

  function Goto(w: World, t: TaskId, pc: Pc): World {
    w.(tasks := w.tasks[t := pc])
  }

  /** The task an action belongs to, once it has arrived. */
  function PcOf(w: World, t: TaskId): Pc {
    if t in w.tasks then w.tasks[t] else Gone
  }

  function DoLookup(w: World, t: TaskId, key: Key): World
    requires Valid(w.cache)
  {
    match Find(w.cache.order, w.cache.entries, key)
    case None => Goto(w.(cache := Insert(w.cache, key)), t, Installing(w.cache.clock))
    case Some(id) => Goto(w.(cache := Touch(w.cache, id)), t, Waiting(id))
  }

  function DoRelease(w: World, t: TaskId, id: EntryId, again: bool): World
    requires Valid(w.cache) && id in w.cache.entries
  {
    Goto(w.(cache := Evicted(Drop(w.cache, id))), t, if again then Resolved(w.cache.entries[id].key) else Gone)
  }

  /** A resolved future wakes its waiters; a governed brain's signatures are listed before it is handed out. */
  function DoAwake(w: World, t: TaskId, id: EntryId): World
    requires id in w.cache.entries
  {
    match w.cache.entries[id].future
    case Unresolved => w
    case Rejected => Goto(w, t, Releasing(id, false))
    case Ready(governed) => Goto(w, t, if governed then Checking(id) else Holding(id))
  }

  ghost predicate KnownEntries(w: World) {
    forall t :: t in w.tasks && !w.tasks[t].Resolved? && !w.tasks[t].Gone? ==> w.tasks[t].id in w.cache.entries
  }

  ghost function Step(w: World, a: Action): World
    requires Valid(w.cache) && KnownEntries(w)
  {
    match (a, PcOf(w, a.t))
    case (Arrive(t, key), _) => if t in w.tasks then w else Goto(w, t, Resolved(key))
    case (Lookup(t), Resolved(key)) => DoLookup(w, t, key)
    case (InstallSucceeds(t, governed, signatures), Installing(id)) =>
      Goto(w.(cache := Settle(w.cache, id, Ready(governed), Some(signatures))), t, InstallEvicting(id))
    case (InstallRaises(t), Installing(id)) => Goto(w, t, InstallFailing(id))
    case (FailInstall(t), InstallFailing(id)) =>
      Goto(w.(cache := Settle(Unlink(w.cache, id), id, Rejected, w.cache.entries[id].signatures)), t,
           Releasing(id, false))
    case (FinishInstall(t), InstallEvicting(id)) => Goto(w.(cache := Evicted(w.cache)), t, Holding(id))
    case (Awake(t), Waiting(id)) => DoAwake(w, t, id)
    case (AwaitRaises(t), Waiting(id)) => Goto(w, t, Releasing(id, false))
    case (CompareSignatures(t, signatures), Checking(id)) =>
      Goto(w, t, if w.cache.entries[id].signatures == Some(signatures) then Holding(id) else Retiring(id))
    case (CompareRaises(t), Checking(id)) => Goto(w, t, Gone)
    case (Retire(t), Retiring(id)) => Goto(w.(cache := Unlink(w.cache, id)), t, Releasing(id, true))
    case (Release(t), Releasing(id, again)) => DoRelease(w, t, id, again)
    case (Done(t), Holding(id)) => Goto(w, t, Releasing(id, false))
    case (LockWaitCancelled(t), pc) =>
      if pc.Resolved? || pc.InstallFailing? || pc.InstallEvicting? || pc.Retiring? || pc.Releasing? then
        Goto(w, t, Gone)
      else w
    case _ => w
  }

  /**
    The steps after which a task never gives back what it holds: the comparison of signatures sits outside the `try`,
    and a lock wait may be cancelled.
  */
  predicate Leaks(w: World, a: Action) {
    var pc := PcOf(w, a.t);
    || (a.CompareRaises? && pc.Checking?)
    || (a.LockWaitCancelled? && (pc.InstallFailing? || pc.InstallEvicting? || pc.Retiring? || pc.Releasing?))
  }

  // ---- Holders ---------------------------------------------------------------

  ghost function Holders(tasks: map<TaskId, Pc>, id: EntryId): set<TaskId> {
    set t | t in tasks && tasks[t].Holds(id)
  }

  /** How one task's move changes the number of holders. */
  lemma HoldersMove(tasks: map<TaskId, Pc>, t: TaskId, pc: Pc, id: EntryId)
    ensures
      var was := t in tasks && tasks[t].Holds(id);
      |Holders(tasks[t := pc], id)| == |Holders(tasks, id)| - (if was then 1 else 0) + (if pc.Holds(id) then 1 else 0)
  {
    var rest := Holders(tasks, id) - {t};
    assert Holders(tasks[t := pc], id) == if pc.Holds(id) then rest + {t} else rest;
    if t in tasks && tasks[t].Holds(id) {
      assert Holders(tasks, id) == rest + {t};
    } else {
      assert Holders(tasks, id) == rest;
    }
  }

  // ---- The invariant of every run --------------------------------------------

  /**
    An entry that was disposed of is unreachable and unused; a future is resolved at most once, with the signatures
    known before it succeeds; and an entry leaves the map only after its future is resolved.
  */
  ghost predicate EntryOk(c: Cache, id: EntryId, claims: nat)
    requires id in c.entries
  {
    var e := c.entries[id];
    && e.users >= claims
    && e.cleaned <= 1 && (e.cleaned == 1 ==> id !in c.order && e.users == 0)
    && e.resolutions == (if e.future.Unresolved? then 0 else 1)
    && (e.future.Unresolved? ==> id in c.order)
    && (e.future.Ready? ==> e.signatures.Some?)
  }

  /** Those that hold an entry, and those that died holding it. */
  ghost function Claims(tasks: map<TaskId, Pc>, debts: map<EntryId, nat>, id: EntryId): nat {
    |Holders(tasks, id)| + if id in debts then debts[id] else 0
  }

  predicate TaskOk(c: Cache, pc: Pc) {
    !pc.Resolved? && !pc.Gone? ==>
      && pc.id in c.entries
      && (pc.Installs(pc.id) ==> c.entries[pc.id].future.Unresolved?)
      && (pc.InstallEvicting? || pc.Checking? || pc.Holding? || pc.Retiring? ==> c.entries[pc.id].future.Ready?)
  }

  ghost predicate OneInstaller(tasks: map<TaskId, Pc>) {
    forall t, u, id :: t in tasks && u in tasks && tasks[t].Installs(id) && tasks[u].Installs(id) ==> t == u
  }

  ghost predicate Inv(w: World, debts: map<EntryId, nat>) {
    && Valid(w.cache) && debts.Keys <= w.cache.entries.Keys
    && (forall t :: t in w.tasks ==> TaskOk(w.cache, w.tasks[t]))
    && (forall id :: id in w.cache.entries ==> EntryOk(w.cache, id, Claims(w.tasks, debts, id)))
    && OneInstaller(w.tasks)
  }

  /** A task that holds an entry is one of its holders. */
  lemma HolderCounts(w: World, debts: map<EntryId, nat>, t: TaskId)
    requires Inv(w, debts) && t in w.tasks && !w.tasks[t].Resolved? && !w.tasks[t].Gone?
    ensures w.cache.entries[w.tasks[t].id].users >= 1 && w.cache.entries[w.tasks[t].id].cleaned == 0
  {
    assert t in Holders(w.tasks, w.tasks[t].id);
    assert EntryOk(w.cache, w.tasks[t].id, |Holders(w.tasks, w.tasks[t].id)|);
  }

  /** A task moves on while the cache stays as it is. */
  lemma MoveKeeps(w: World, debts: map<EntryId, nat>, t: TaskId, pc: Pc)
    requires Inv(w, debts) && TaskOk(w.cache, pc)
    requires forall id :: pc.Holds(id) ==> t in w.tasks && w.tasks[t].Holds(id)
    requires forall id :: pc.Installs(id) ==> t in w.tasks && w.tasks[t].Installs(id)
    ensures Inv(Goto(w, t, pc), debts)
  {
    var w' := Goto(w, t, pc);
    forall u, v, id | u in w'.tasks && v in w'.tasks && w'.tasks[u].Installs(id) && w'.tasks[v].Installs(id)
      ensures u == v
    {
      assert w.tasks[u].Installs(id) && w.tasks[v].Installs(id);
    }
    forall id | id in w'.cache.entries
      ensures EntryOk(w'.cache, id, Claims(w'.tasks, debts, id))
    {
      HoldersMove(w.tasks, t, pc, id);
      assert EntryOk(w.cache, id, Claims(w.tasks, debts, id));
    }
  }

  /** An eviction disposes only of entries nobody holds. */
  lemma EvictKeeps(w: World, debts: map<EntryId, nat>)
    requires Inv(w, debts)
    ensures Inv(w.(cache := Evicted(w.cache)), debts)
  {
    EvictionKeeps(w.cache);
    var c' := Evicted(w.cache);
    forall id | id in c'.entries
      ensures EntryOk(c', id, Claims(w.tasks, debts, id))
    {
      assert EntryOk(w.cache, id, Claims(w.tasks, debts, id));
    }
    forall t | t in w.tasks
      ensures TaskOk(c', w.tasks[t])
    {
      assert TaskOk(w.cache, w.tasks[t]);
    }
  }

  lemma LookupMissKeeps(w: World, debts: map<EntryId, nat>, t: TaskId, key: Key)
    requires Inv(w, debts) && t in w.tasks && w.tasks[t] == Resolved(key)
    requires Find(w.cache.order, w.cache.entries, key).None?
    ensures Inv(Goto(w.(cache := Insert(w.cache, key)), t, Installing(w.cache.clock)), debts)
  {
    var w' := Goto(w.(cache := Insert(w.cache, key)), t, Installing(w.cache.clock));
    InsertKeeps(w.cache, key);
    forall id | id in w'.cache.entries
      ensures EntryOk(w'.cache, id, Claims(w'.tasks, debts, id))
    {
      HoldersMove(w.tasks, t, Installing(w.cache.clock), id);
      if id in w.cache.entries {
        assert EntryOk(w.cache, id, Claims(w.tasks, debts, id));
      }
    }
    forall u | u in w'.tasks
      ensures TaskOk(w'.cache, w'.tasks[u])
    {
      if u != t { assert TaskOk(w.cache, w.tasks[u]); }
    }
  }

  lemma LookupHitKeeps(w: World, debts: map<EntryId, nat>, t: TaskId, key: Key, found: EntryId)
    requires Inv(w, debts) && t in w.tasks && w.tasks[t] == Resolved(key) && found in w.cache.order
    ensures Inv(Goto(w.(cache := Touch(w.cache, found)), t, Waiting(found)), debts)
  {
    var w' := Goto(w.(cache := Touch(w.cache, found)), t, Waiting(found));
    TouchKeeps(w.cache, found);
    forall id | id in w'.cache.entries
      ensures EntryOk(w'.cache, id, Claims(w'.tasks, debts, id))
    {
      HoldersMove(w.tasks, t, Waiting(found), id);
      assert EntryOk(w.cache, id, Claims(w.tasks, debts, id));
    }
    forall u | u in w'.tasks
      ensures TaskOk(w'.cache, w'.tasks[u])
    {
      if u != t { assert TaskOk(w.cache, w.tasks[u]); }
    }
  }

  lemma LookupKeeps(w: World, debts: map<EntryId, nat>, t: TaskId, key: Key)
    requires Inv(w, debts) && t in w.tasks && w.tasks[t] == Resolved(key)
    ensures Inv(DoLookup(w, t, key), debts)
  {
    match Find(w.cache.order, w.cache.entries, key)
    case None => LookupMissKeeps(w, debts, t, key);
    case Some(id) => LookupHitKeeps(w, debts, t, key, id);
  }

  /** The one installer resolves the future of its entry, successfully or not. */
  lemma ResolveKeeps(
    w: World, debts: map<EntryId, nat>, t: TaskId, id: EntryId, c: Cache, future: Future,
    signatures: Option<Signatures>, pc: Pc)
    requires Inv(w, debts) && t in w.tasks && w.tasks[t].Installs(id)
    requires c == w.cache || (c == Unlink(w.cache, id) && future == Rejected)
    requires !future.Unresolved? && (future.Ready? ==> signatures.Some?)
    requires pc.Holds(id) && !pc.Installs(id) && id in c.entries && TaskOk(Settle(c, id, future, signatures), pc)
    ensures Inv(Goto(w.(cache := Settle(c, id, future, signatures)), t, pc), debts)
  {
    var w' := Goto(w.(cache := Settle(c, id, future, signatures)), t, pc);
    UnlinkKeeps(w.cache, id);
    SettleKeeps(c, id, future, signatures);
    HolderCounts(w, debts, t);
    forall other | other in w'.cache.entries
      ensures EntryOk(w'.cache, other, Claims(w'.tasks, debts, other))
    {
      HoldersMove(w.tasks, t, pc, other);
      assert EntryOk(w.cache, other, Claims(w.tasks, debts, other));
    }
    forall u | u in w'.tasks
      ensures TaskOk(w'.cache, w'.tasks[u])
    {
      if u != t {
        assert TaskOk(w.cache, w.tasks[u]);
        assert w.tasks[t].Installs(id);
      }
    }
  }

  lemma RetireKeeps(w: World, debts: map<EntryId, nat>, t: TaskId, id: EntryId)
    requires Inv(w, debts) && t in w.tasks && w.tasks[t] == Retiring(id)
    ensures Inv(Goto(w.(cache := Unlink(w.cache, id)), t, Releasing(id, true)), debts)
  {
    var w' := Goto(w.(cache := Unlink(w.cache, id)), t, Releasing(id, true));
    UnlinkKeeps(w.cache, id);
    HolderCounts(w, debts, t);
    assert TaskOk(w.cache, w.tasks[t]);
    forall other | other in w'.cache.entries
      ensures EntryOk(w'.cache, other, Claims(w'.tasks, debts, other))
    {
      HoldersMove(w.tasks, t, Releasing(id, true), other);
      assert EntryOk(w.cache, other, Claims(w.tasks, debts, other));
    }
    forall u | u in w'.tasks
      ensures TaskOk(w'.cache, w'.tasks[u])
    {
      if u != t { assert TaskOk(w.cache, w.tasks[u]); }
    }
  }

  lemma DropHolderKeeps(w: World, debts: map<EntryId, nat>, t: TaskId, id: EntryId, pc: Pc)
    requires Inv(w, debts) && t in w.tasks && w.tasks[t].Holds(id) && !w.tasks[t].Installs(id)
    requires pc.Resolved? || pc.Gone?
    ensures Inv(Goto(w.(cache := Drop(w.cache, id)), t, pc), debts)
  {
    var w' := Goto(w.(cache := Drop(w.cache, id)), t, pc);
    DropKeeps(w.cache, id);
    HolderCounts(w, debts, t);
    forall other | other in w'.cache.entries
      ensures EntryOk(w'.cache, other, Claims(w'.tasks, debts, other))
    {
      HoldersMove(w.tasks, t, pc, other);
      assert EntryOk(w.cache, other, Claims(w.tasks, debts, other));
    }
    forall u | u in w'.tasks
      ensures TaskOk(w'.cache, w'.tasks[u])
    {
      if u != t { assert TaskOk(w.cache, w.tasks[u]); }
    }
  }

  lemma InstallStepsKeep(w: World, debts: map<EntryId, nat>, a: Action, id: EntryId)
    requires Inv(w, debts) && KnownEntries(w) && a.t in w.tasks
    requires w.tasks[a.t] == Installing(id) || w.tasks[a.t] == InstallFailing(id) || w.tasks[a.t] == InstallEvicting(id)
    ensures Inv(Step(w, a), debts)
  {
    var t, pc := a.t, w.tasks[a.t];
    assert TaskOk(w.cache, pc);
    match pc
    case Installing(_) =>
      if a.InstallSucceeds? {
        ResolveKeeps(w, debts, t, id, w.cache, Ready(a.governed), Some(a.signatures), InstallEvicting(id));
      }
      MoveKeeps(w, debts, t, InstallFailing(id));
    case InstallFailing(_) =>
      if a.FailInstall? {
        ResolveKeeps(
          w, debts, t, id, Unlink(w.cache, id), Rejected, w.cache.entries[id].signatures, Releasing(id, false));
      }
      MoveKeeps(w, debts, t, Gone);
    case InstallEvicting(_) =>
      if a.FinishInstall? {
        MoveKeeps(w, debts, t, Holding(id));
        EvictKeeps(Goto(w, t, Holding(id)), debts);
      }
      MoveKeeps(w, debts, t, Gone);
  }

  lemma ReleaseStepsKeep(w: World, debts: map<EntryId, nat>, a: Action, id: EntryId)
    requires Inv(w, debts) && KnownEntries(w) && a.t in w.tasks
    requires w.tasks[a.t] == Retiring(id) || (w.tasks[a.t].Releasing? && w.tasks[a.t].id == id)
    ensures Inv(Step(w, a), debts)
  {
    var t, pc := a.t, w.tasks[a.t];
    assert TaskOk(w.cache, pc);
    MoveKeeps(w, debts, t, Gone);
    if a.Retire? && pc.Retiring? { RetireKeeps(w, debts, t, id); }
    if a.Release? && pc.Releasing? {
      var next := if pc.again then Resolved(w.cache.entries[id].key) else Gone;
      DropHolderKeeps(w, debts, t, id, next);
      EvictKeeps(Goto(w.(cache := Drop(w.cache, id)), t, next), debts);
    }
  }

  lemma OuterStepsKeep(w: World, debts: map<EntryId, nat>, a: Action)
    requires Inv(w, debts) && KnownEntries(w)
    requires var pc := PcOf(w, a.t); pc.Resolved? || pc.Gone? || pc.Holding?
    ensures Inv(Step(w, a), debts)
  {
    match PcOf(w, a.t)
    case Resolved(key) =>
      if a.Lookup? { LookupKeeps(w, debts, a.t, key); }
      MoveKeeps(w, debts, a.t, Gone);
    case Holding(id) =>
      assert TaskOk(w.cache, Holding(id));
      MoveKeeps(w, debts, a.t, Releasing(id, false));
    case Gone =>
      if a.Arrive? && a.t !in w.tasks { MoveKeeps(w, debts, a.t, Resolved(a.key)); }
  }

  lemma StepKeeps(w: World, debts: map<EntryId, nat>, a: Action)
    requires Inv(w, debts)
    ensures KnownEntries(w) && Inv(Step(w, a), debts)
  {
    match PcOf(w, a.t)
    case Installing(id) => InstallStepsKeep(w, debts, a, id);
    case InstallFailing(id) => InstallStepsKeep(w, debts, a, id);
    case InstallEvicting(id) => InstallStepsKeep(w, debts, a, id);
    case Waiting(id) => WaitingKeeps(w, debts, a, id);
    case Checking(id) => CheckingKeeps(w, debts, a, id);
    case Retiring(id) => ReleaseStepsKeep(w, debts, a, id);
    case Releasing(id, _) => ReleaseStepsKeep(w, debts, a, id);
    case _ => OuterStepsKeep(w, debts, a);
  }

  lemma WaitingKeeps(w: World, debts: map<EntryId, nat>, a: Action, id: EntryId)
    requires Inv(w, debts) && KnownEntries(w) && a.t in w.tasks && w.tasks[a.t] == Waiting(id)
    ensures Inv(Step(w, a), debts)
  {
    assert TaskOk(w.cache, w.tasks[a.t]);
    MoveKeeps(w, debts, a.t, Releasing(id, false));
    if a.Awake? && w.cache.entries[id].future.Ready? {
      MoveKeeps(w, debts, a.t, DoAwake(w, a.t, id).tasks[a.t]);
    }
  }

  lemma CheckingKeeps(w: World, debts: map<EntryId, nat>, a: Action, id: EntryId)
    requires Inv(w, debts) && KnownEntries(w) && a.t in w.tasks && w.tasks[a.t] == Checking(id)
    ensures Inv(Step(w, a), debts)
  {
    assert TaskOk(w.cache, w.tasks[a.t]);
    MoveKeeps(w, debts, a.t, Holding(id));
    MoveKeeps(w, debts, a.t, Retiring(id));
    MoveKeeps(w, debts, a.t, Gone);
  }

  // ---- Runs that give everything back ----------------------------------------

  ghost predicate HasInstaller(tasks: map<TaskId, Pc>, id: EntryId) {
    exists t :: t in tasks && tasks[t].Installs(id)
  }

  predicate Busy(tasks: map<TaskId, Pc>) {
    exists t :: t in tasks && !tasks[t].Resolved? && !tasks[t].Gone?
  }

  /**
    The counts are exact: an entry's users are its holders; what is unresolved is being installed; and with no request
    in progress the map is within its capacity.
  */
  ghost predicate EntryExact(c: Cache, tasks: map<TaskId, Pc>, id: EntryId)
    requires id in c.entries
  {
    var e := c.entries[id];
    && e.users == |Holders(tasks, id)|
    && (e.future.Unresolved? ==> HasInstaller(tasks, id))
  }

  ghost predicate EntriesExact(w: World) {
    forall id :: id in w.cache.entries ==> EntryExact(w.cache, w.tasks, id)
  }

  ghost predicate Exact(w: World) {
    EntriesExact(w) && (!Busy(w.tasks) ==> |w.cache.order| <= w.cache.capacity)
  }

  lemma InstallerMoves(tasks: map<TaskId, Pc>, t: TaskId, pc: Pc, id: EntryId)
    requires HasInstaller(tasks, id)
    requires t in tasks && tasks[t].Installs(id) ==> pc.Installs(id)
    ensures HasInstaller(tasks[t := pc], id)
  {
    var u :| u in tasks && tasks[u].Installs(id);
    assert tasks[t := pc][u].Installs(id);
  }

  lemma BusyMoves(tasks: map<TaskId, Pc>, t: TaskId, pc: Pc)
    requires Busy(tasks)
    requires t in tasks && !tasks[t].Resolved? && !tasks[t].Gone? ==> !pc.Resolved? && !pc.Gone?
    ensures Busy(tasks[t := pc])
  {
    var u :| u in tasks && !tasks[u].Resolved? && !tasks[u].Gone?;
    assert u in tasks[t := pc];
  }

  /** A task moves on, holding what it held. */
  lemma MoveKeepsExact(w: World, t: TaskId, pc: Pc)
    requires Inv(w, map[]) && Exact(w)
    requires forall id :: pc.Holds(id) <==> t in w.tasks && w.tasks[t].Holds(id)
    requires forall id :: t in w.tasks && w.tasks[t].Installs(id) ==> pc.Installs(id)
    ensures Exact(Goto(w, t, pc))
  {
    var w' := Goto(w, t, pc);
    forall id | id in w'.cache.entries
      ensures EntryExact(w'.cache, w'.tasks, id)
    {
      HoldersMove(w.tasks, t, pc, id);
      assert EntryExact(w.cache, w.tasks, id);
      if w.cache.entries[id].future.Unresolved? { InstallerMoves(w.tasks, t, pc, id); }
    }
    if Busy(w.tasks) {
      if t in w.tasks && !w.tasks[t].Resolved? && !w.tasks[t].Gone? {
        assert w.tasks[t].Holds(w.tasks[t].id);
        assert pc.Holds(w.tasks[t].id);
      }
      BusyMoves(w.tasks, t, pc);
    }
  }

  /** With nothing held, everything in the map is idle, so an eviction fits the map into its capacity. */
  lemma EvictKeepsExact(w: World)
    requires Inv(w, map[]) && EntriesExact(w)
    ensures Exact(w.(cache := Evicted(w.cache)))
  {
    EvictionKeeps(w.cache);
    EvictionIsLeastRecentAndMinimal(w.cache);
    var c' := Evicted(w.cache);
    forall id | id in c'.entries
      ensures EntryExact(c', w.tasks, id)
    {
      assert EntryExact(w.cache, w.tasks, id) && EntryOk(w.cache, id, Claims(w.tasks, map[], id));
    }
    if !Busy(w.tasks) && c'.order != [] {
      var id := c'.order[0];
      assert EntryExact(w.cache, w.tasks, id);
      assert Holders(w.tasks, id) == {};
      assert c'.entries[id].Idle();
    }
  }

  lemma LookupKeepsExact(w: World, t: TaskId, key: Key)
    requires Inv(w, map[]) && Exact(w) && t in w.tasks && w.tasks[t] == Resolved(key)
    ensures Exact(DoLookup(w, t, key))
  {
    var w' := DoLookup(w, t, key);
    var found := Find(w.cache.order, w.cache.entries, key);
    var pc := w'.tasks[t];
    if found.None? {
      assert w'.tasks[t].Installs(w.cache.clock);
    } else {
      TouchKeeps(w.cache, found.value);
    }
    forall id | id in w'.cache.entries
      ensures EntryExact(w'.cache, w'.tasks, id)
    {
      HoldersMove(w.tasks, t, pc, id);
      if id in w.cache.entries {
        assert EntryExact(w.cache, w.tasks, id);
        if w.cache.entries[id].future.Unresolved? { InstallerMoves(w.tasks, t, pc, id); }
      }
    }
    assert !w'.tasks[t].Resolved? && !w'.tasks[t].Gone?;
  }

  lemma ResolveKeepsExact(
    w: World, t: TaskId, id: EntryId, c: Cache, future: Future, signatures: Option<Signatures>, pc: Pc)
    requires Inv(w, map[]) && Exact(w) && t in w.tasks && w.tasks[t].Installs(id) && id in w.cache.entries
    requires c == w.cache || c == Unlink(w.cache, id)
    requires !future.Unresolved? && pc.Holds(id)
    ensures Exact(Goto(w.(cache := Settle(c, id, future, signatures)), t, pc))
  {
    var w' := Goto(w.(cache := Settle(c, id, future, signatures)), t, pc);
    UnlinkKeeps(w.cache, id);
    HolderCounts(w, map[], t);
    forall other | other in w'.cache.entries
      ensures EntryExact(w'.cache, w'.tasks, other)
    {
      HoldersMove(w.tasks, t, pc, other);
      assert EntryExact(w.cache, w.tasks, other);
      if other != id && w.cache.entries[other].future.Unresolved? { InstallerMoves(w.tasks, t, pc, other); }
    }
    assert !w'.tasks[t].Resolved? && !w'.tasks[t].Gone?;
  }

  lemma RetireKeepsExact(w: World, t: TaskId, id: EntryId)
    requires Inv(w, map[]) && Exact(w) && t in w.tasks && w.tasks[t] == Retiring(id)
    ensures Exact(Goto(w.(cache := Unlink(w.cache, id)), t, Releasing(id, true)))
  {
    var w' := Goto(w.(cache := Unlink(w.cache, id)), t, Releasing(id, true));
    UnlinkKeeps(w.cache, id);
    HolderCounts(w, map[], t);
    forall other | other in w'.cache.entries
      ensures EntryExact(w'.cache, w'.tasks, other)
    {
      HoldersMove(w.tasks, t, Releasing(id, true), other);
      assert EntryExact(w.cache, w.tasks, other);
      if w.cache.entries[other].future.Unresolved? { InstallerMoves(w.tasks, t, Releasing(id, true), other); }
    }
    assert !w'.tasks[t].Resolved? && !w'.tasks[t].Gone?;
  }

  /** One holder less is one user less. */
  lemma DropKeepsExact(w: World, t: TaskId, id: EntryId, pc: Pc)
    requires Inv(w, map[]) && Exact(w) && t in w.tasks && w.tasks[t].Holds(id) && !w.tasks[t].Installs(id)
    requires pc.Resolved? || pc.Gone?
    requires id in w.cache.entries
    ensures EntriesExact(Goto(w.(cache := Drop(w.cache, id)), t, pc))
  {
    var w' := Goto(w.(cache := Drop(w.cache, id)), t, pc);
    HolderCounts(w, map[], t);
    forall other | other in w'.cache.entries
      ensures EntryExact(w'.cache, w'.tasks, other)
    {
      HoldersMove(w.tasks, t, pc, other);
      assert EntryExact(w.cache, w.tasks, other);
      if w.cache.entries[other].future.Unresolved? { InstallerMoves(w.tasks, t, pc, other); }
    }
  }

  lemma InstallStepsKeepExact(w: World, a: Action, id: EntryId)
    requires Inv(w, map[]) && KnownEntries(w) && Exact(w) && !Leaks(w, a) && a.t in w.tasks
    requires w.tasks[a.t] == Installing(id) || w.tasks[a.t] == InstallFailing(id) || w.tasks[a.t] == InstallEvicting(id)
    ensures Exact(Step(w, a))
  {
    var t, pc := a.t, w.tasks[a.t];
    assert TaskOk(w.cache, pc);
    match pc
    case Installing(_) =>
      if a.InstallSucceeds? {
        ResolveKeepsExact(w, t, id, w.cache, Ready(a.governed), Some(a.signatures), InstallEvicting(id));
      }
      MoveKeepsExact(w, t, InstallFailing(id));
    case InstallFailing(_) =>
      if a.FailInstall? {
        ResolveKeepsExact(
          w, t, id, Unlink(w.cache, id), Rejected, w.cache.entries[id].signatures, Releasing(id, false));
      }
    case InstallEvicting(_) =>
      if a.FinishInstall? {
        MoveKeeps(w, map[], t, Holding(id));
        MoveKeepsExact(w, t, Holding(id));
        EvictKeepsExact(Goto(w, t, Holding(id)));
      }
  }

  lemma ReleaseStepsKeepExact(w: World, a: Action, id: EntryId)
    requires Inv(w, map[]) && KnownEntries(w) && Exact(w) && !Leaks(w, a) && a.t in w.tasks
    requires w.tasks[a.t] == Retiring(id) || (w.tasks[a.t].Releasing? && w.tasks[a.t].id == id)
    ensures Exact(Step(w, a))
  {
    var t, pc := a.t, w.tasks[a.t];
    assert TaskOk(w.cache, pc);
    if a.Retire? && pc.Retiring? { RetireKeepsExact(w, t, id); }
    if a.Release? && pc.Releasing? {
      var next := if pc.again then Resolved(w.cache.entries[id].key) else Gone;
      DropHolderKeeps(w, map[], t, id, next);
      DropKeepsExact(w, t, id, next);
      EvictKeepsExact(Goto(w.(cache := Drop(w.cache, id)), t, next));
    }
  }

  lemma WaitStepsKeepExact(w: World, a: Action, id: EntryId)
    requires Inv(w, map[]) && KnownEntries(w) && Exact(w) && !Leaks(w, a) && a.t in w.tasks
    requires w.tasks[a.t] == Waiting(id) || w.tasks[a.t] == Checking(id) || w.tasks[a.t] == Holding(id)
    ensures Exact(Step(w, a))
  {
    assert TaskOk(w.cache, w.tasks[a.t]);
    var w' := Step(w, a);
    assert w' == w || w' == Goto(w, a.t, w'.tasks[a.t]);
    if w' != w {
      MoveKeepsExact(w, a.t, w'.tasks[a.t]);
    }
  }

  lemma StepKeepsExact(w: World, a: Action)
    requires Inv(w, map[]) && Exact(w) && !Leaks(w, a)
    ensures KnownEntries(w) && Exact(Step(w, a))
  {
    match PcOf(w, a.t)
    case Resolved(key) =>
      if a.Lookup? { LookupKeepsExact(w, a.t, key); }
      MoveKeepsExact(w, a.t, Gone);
    case Installing(id) => InstallStepsKeepExact(w, a, id);
    case InstallFailing(id) => InstallStepsKeepExact(w, a, id);
    case InstallEvicting(id) => InstallStepsKeepExact(w, a, id);
    case Retiring(id) => ReleaseStepsKeepExact(w, a, id);
    case Releasing(id, _) => ReleaseStepsKeepExact(w, a, id);
    case Waiting(id) => WaitStepsKeepExact(w, a, id);
    case Checking(id) => WaitStepsKeepExact(w, a, id);
    case Holding(id) => WaitStepsKeepExact(w, a, id);
    case Gone =>
      if a.Arrive? && a.t !in w.tasks { MoveKeepsExact(w, a.t, Resolved(a.key)); }
  }

  // ---- Runs ------------------------------------------------------------------

  function Initial(capacity: nat): World {
    World(Cache(capacity, [], map[], 0), map[])
  }

  /** A step of any world; every world a run reaches satisfies the guard. */
  ghost function Next(w: World, a: Action): World {
    if Valid(w.cache) && KnownEntries(w) then Step(w, a) else w
  }

  ghost function Run(w: World, actions: seq<Action>): World
    decreases |actions|
  {
    if actions == [] then w else Run(Next(w, actions[0]), actions[1..])
  }

  /** Every request gives back what it holds: no comparison raises, and no wait for the lock is cancelled. */
  ghost predicate GivesBack(w: World, actions: seq<Action>)
    decreases |actions|
  {
    actions == [] || (!Leaks(w, actions[0]) && GivesBack(Next(w, actions[0]), actions[1..]))
  }

  lemma {:induction false} RunKeeps(w: World, debts: map<EntryId, nat>, actions: seq<Action>)
    requires Inv(w, debts)
    ensures Inv(Run(w, actions), debts)
    decreases |actions|
  {
    if actions != [] {
      StepKeeps(w, debts, actions[0]);
      RunKeeps(Next(w, actions[0]), debts, actions[1..]);
    }
  }

  lemma {:induction false} RunKeepsExact(w: World, actions: seq<Action>)
    requires Inv(w, map[]) && Exact(w) && GivesBack(w, actions)
    ensures Exact(Run(w, actions))
    decreases |actions|
  {
    if actions != [] {
      StepKeeps(w, map[], actions[0]);
      StepKeepsExact(w, actions[0]);
      RunKeepsExact(Next(w, actions[0]), actions[1..]);
    }
  }

  /**
    Under any schedule: an entry's directory is never cleaned while a task holds it, is cleaned at most once, and only
    after the entry left the map; its future is resolved at most once, and never without its signatures.
  */
  lemma DirectoriesOutliveTheirHolders(capacity: nat, actions: seq<Action>, id: EntryId)
    requires id in Run(Initial(capacity), actions).cache.entries
    ensures
      var w := Run(Initial(capacity), actions);
      var e := w.cache.entries[id];
      && e.cleaned <= 1 && e.resolutions <= 1
      && (e.cleaned == 1 ==> Holders(w.tasks, id) == {} && id !in w.cache.order)
      && (e.future.Ready? ==> e.signatures.Some?)
  {
    RunKeeps(Initial(capacity), map[], actions);
    var w := Run(Initial(capacity), actions);
    assert EntryOk(w.cache, id, Claims(w.tasks, map[], id));
  }

  /** Two tasks never install the same key at the same time, and what is being installed can be found. */
  lemma SingleFlight(capacity: nat, actions: seq<Action>, t: TaskId, u: TaskId)
    requires
      var w := Run(Initial(capacity), actions);
      PcOf(w, t).Installing? && PcOf(w, u).Installing?
    ensures
      var w := Run(Initial(capacity), actions);
      var a, b := PcOf(w, t).id, PcOf(w, u).id;
      && a in w.cache.order && a in w.cache.entries && b in w.cache.entries
      && (w.cache.entries[a].key == w.cache.entries[b].key ==> t == u)
  {
    RunKeeps(Initial(capacity), map[], actions);
    var w := Run(Initial(capacity), actions);
    var a, b := PcOf(w, t).id, PcOf(w, u).id;
    assert TaskOk(w.cache, w.tasks[t]) && TaskOk(w.cache, w.tasks[u]);
    assert EntryOk(w.cache, a, Claims(w.tasks, map[], a)) && EntryOk(w.cache, b, Claims(w.tasks, map[], b));
    if a != b { KeysAreUnique(w.cache, a, b); }
    assert w.tasks[t].Installs(a) && w.tasks[u].Installs(b);
  }

  // ---- Counting the leaks ----------------------------------------------------

  /** By how much an entry's user count exceeds its holders. */
  ghost function Excess(w: World, id: EntryId): int {
    Users(w.cache, id) - |Holders(w.tasks, id)|
  }

  ghost function LeaksOf(w: World, a: Action, id: EntryId): nat {
    if Leaks(w, a) && PcOf(w, a.t).id == id then 1 else 0
  }

  /** How many tasks of a run died holding the entry. */
  ghost function Leaked(w: World, actions: seq<Action>, id: EntryId): nat
    decreases |actions|
  {
    if actions == [] then 0 else LeaksOf(w, actions[0], id) + Leaked(Next(w, actions[0]), actions[1..], id)
  }

  /** A task's move and the cache's step balance. */
  lemma ExcessMoves(w: World, t: TaskId, pc: Pc, c: Cache, id: EntryId)
    ensures
      Excess(Goto(w.(cache := c), t, pc), id) - Excess(w, id)
        == Users(c, id) - Users(w.cache, id) - HoldCount(pc, id) + HoldCount(PcOf(w, t), id)
  {
    HoldersMove(w.tasks, t, pc, id);
  }

  function Users(c: Cache, id: EntryId): int {
    if id in c.entries then c.entries[id].users else 0
  }

  function HoldCount(pc: Pc, id: EntryId): nat {
    if pc.Holds(id) then 1 else 0
  }

  /** A step of a task changes the user count by what it changes about holding, but for what it leaks. */
  ghost predicate Balances(w: World, a: Action, id: EntryId)
    requires Valid(w.cache) && KnownEntries(w)
  {
    var w' := Step(w, a);
    && w.cache.entries.Keys <= w'.cache.entries.Keys
    && w' == Goto(w.(cache := w'.cache), a.t, PcOf(w', a.t))
    && Users(w'.cache, id) - Users(w.cache, id)
         == HoldCount(PcOf(w', a.t), id) - HoldCount(PcOf(w, a.t), id) + LeaksOf(w, a, id)
  }

  lemma CacheStepBalances(w: World, debts: map<EntryId, nat>, a: Action, id: EntryId)
    requires Inv(w, debts) && KnownEntries(w) && Step(w, a) != w
    requires var pc := PcOf(w, a.t); pc.InstallEvicting? || pc.Releasing? || pc.Resolved?
    ensures Balances(w, a, id)
  {
    hide Evicted, Holders, OneInstaller, EntryOk, Claims;
    assert TaskOk(w.cache, w.tasks[a.t]);
    match PcOf(w, a.t)
    case InstallEvicting(_) => EvictionKeeps(w.cache);
    case Releasing(e, _) => DropKeeps(w.cache, e); EvictionKeeps(Drop(w.cache, e));
    case _ =>
  }

  lemma PlainStepBalances(w: World, debts: map<EntryId, nat>, a: Action, id: EntryId)
    requires Inv(w, debts) && KnownEntries(w) && Step(w, a) != w
    requires var pc := PcOf(w, a.t); !pc.InstallEvicting? && !pc.Releasing? && !pc.Resolved?
    ensures Balances(w, a, id)
  {
    hide Evicted, Drop, Touch, Insert, Holders, OneInstaller, EntryOk, Claims;
    if a.t in w.tasks { assert TaskOk(w.cache, w.tasks[a.t]); }
  }

  /** Every step leaves each entry's excess as it is, except that a leak adds one to the entry it leaves behind. */
  lemma StepCounts(w: World, debts: map<EntryId, nat>, a: Action, id: EntryId)
    requires Inv(w, debts)
    ensures KnownEntries(w) && Excess(Step(w, a), id) == Excess(w, id) + LeaksOf(w, a, id)
    ensures w.cache.entries.Keys <= Step(w, a).cache.entries.Keys
  {
    hide Excess, Leaks, TaskOk, EntryOk, OneInstaller;
    StepMoves(w, debts, a);
    hide Step, Inv;
    var w' := Step(w, a);
    var pc := PcOf(w, a.t);
    if w' != w {
      if pc.InstallEvicting? || pc.Releasing? || pc.Resolved? {
        CacheStepBalances(w, debts, a, id);
      } else {
        PlainStepBalances(w, debts, a, id);
      }
      ExcessMoves(w, a.t, PcOf(w', a.t), w'.cache, id);
    }
  }

  lemma StepMoves(w: World, debts: map<EntryId, nat>, a: Action)
    requires Inv(w, debts)
    ensures KnownEntries(w) && (Leaks(w, a) ==> Step(w, a) != w)
  {
    forall t | t in w.tasks
      ensures TaskOk(w.cache, w.tasks[t])
    {
    }
    hide Evicted, Drop, Touch, Insert, Holders;
  }

  lemma {:induction false} RunCounts(w: World, actions: seq<Action>, id: EntryId)
    requires Inv(w, map[])
    ensures Excess(Run(w, actions), id) == Excess(w, id) + Leaked(w, actions, id)
    decreases |actions|
  {
    if actions != [] {
      StepCounts(w, map[], actions[0], id);
      StepKeeps(w, map[], actions[0]);
      RunCounts(Next(w, actions[0]), actions[1..], id);
    }
  }

  lemma {:induction false} LeaksAreKnown(w: World, actions: seq<Action>)
    requires Inv(w, map[])
    ensures w.cache.entries.Keys <= Run(w, actions).cache.entries.Keys
    ensures GivesBack(w, actions) ==> forall id :: Leaked(w, actions, id) == 0
    ensures !GivesBack(w, actions) ==> exists id :: id in Run(w, actions).cache.entries && Leaked(w, actions, id) >= 1
    decreases |actions|
  {
    if actions != [] {
      var a := actions[0];
      StepCounts(w, map[], a, 0);
      StepKeeps(w, map[], a);
      LeaksAreKnown(Next(w, a), actions[1..]);
      if Leaks(w, a) {
        var id := PcOf(w, a.t).id;
        assert TaskOk(w.cache, w.tasks[a.t]) && id in w.cache.entries;
        assert Leaked(w, actions, id) >= 1;
      } else if !GivesBack(w, actions) {
        var id :| id in Run(Next(w, a), actions[1..]).cache.entries && Leaked(Next(w, a), actions[1..], id) >= 1;
        assert Leaked(w, actions, id) >= 1;
      }
    }
  }

  /**
    After any run each entry's user count is the number of its holders and of the tasks that died holding it; so counts
    equal holders for every entry exactly when every request gave back what it held.
  */
  lemma CountsAreHoldersIff(capacity: nat, actions: seq<Action>)
    ensures
      var w := Run(Initial(capacity), actions);
      && (forall id :: id in w.cache.entries ==>
            w.cache.entries[id].users == |Holders(w.tasks, id)| + Leaked(Initial(capacity), actions, id))
      && ((forall id :: id in w.cache.entries ==> w.cache.entries[id].users == |Holders(w.tasks, id)|)
            <==> GivesBack(Initial(capacity), actions))
  {
    var w0, w := Initial(capacity), Run(Initial(capacity), actions);
    forall id | id in w.cache.entries
      ensures w.cache.entries[id].users == |Holders(w.tasks, id)| + Leaked(w0, actions, id)
    {
      RunCounts(w0, actions, id);
      assert Holders(w0.tasks, id) == {};
    }
    LeaksAreKnown(w0, actions);
  }

  // ---- When a directory is cleaned ----------------------------------------------

  /** What nothing can find and nobody counts has been disposed of. */
  ghost predicate Swept(c: Cache) {
    forall id :: id in c.entries && id !in c.order && c.entries[id].users == 0 ==> c.entries[id].cleaned == 1
  }

  lemma EvictionSweeps(w: World)
    requires Inv(w, map[]) && Swept(w.cache)
    ensures Swept(Evicted(w.cache))
  {
    hide Evicted;
    EvictionKeeps(w.cache);
    forall id | id in w.cache.order
      ensures w.cache.entries[id].cleaned == 0
    {
      assert EntryOk(w.cache, id, Claims(w.tasks, map[], id));
    }
  }

  lemma DropSweeps(w: World, t: TaskId, id: EntryId)
    requires Inv(w, map[]) && Swept(w.cache) && t in w.tasks && w.tasks[t].Holds(id)
    ensures id in w.cache.entries && Swept(Drop(w.cache, id))
  {
    assert TaskOk(w.cache, w.tasks[t]);
    HolderCounts(w, map[], t);
  }

  lemma UnlinkSweeps(w: World, t: TaskId, id: EntryId)
    requires Inv(w, map[]) && Swept(w.cache) && t in w.tasks && w.tasks[t].Holds(id)
    ensures id in w.cache.entries && Swept(Unlink(w.cache, id))
  {
    assert TaskOk(w.cache, w.tasks[t]);
    HolderCounts(w, map[], t);
    UnlinkKeeps(w.cache, id);
  }

  lemma LookupSweeps(w: World, t: TaskId, key: Key)
    requires Inv(w, map[]) && Swept(w.cache)
    ensures Swept(DoLookup(w, t, key).cache)
  {
    var found := Find(w.cache.order, w.cache.entries, key);
    if found.Some? {
      TouchKeeps(w.cache, found.value);
      assert EntryOk(w.cache, found.value, Claims(w.tasks, map[], found.value));
    }
  }

  lemma ReleaseSweeps(w: World, t: TaskId, id: EntryId, again: bool)
    requires Inv(w, map[]) && Swept(w.cache) && t in w.tasks && w.tasks[t] == Releasing(id, again)
    ensures id in w.cache.entries && Swept(DoRelease(w, t, id, again).cache)
  {
    DropSweeps(w, t, id);
    var next := if again then Resolved(w.cache.entries[id].key) else Gone;
    DropHolderKeeps(w, map[], t, id, next);
    EvictionSweeps(Goto(w.(cache := Drop(w.cache, id)), t, next));
  }

  lemma StepSweeps(w: World, a: Action)
    requires Inv(w, map[]) && Swept(w.cache)
    ensures KnownEntries(w) && Swept(Step(w, a).cache)
  {
    StepMoves(w, map[], a);
    if a.t in w.tasks { assert TaskOk(w.cache, w.tasks[a.t]); }
    hide Inv, TaskOk, Evicted, Drop, Unlink, Touch, Insert;
    match PcOf(w, a.t)
    case Resolved(key) => if a.Lookup? { LookupSweeps(w, a.t, key); }
    case InstallFailing(id) => UnlinkSweeps(w, a.t, id);
    case InstallEvicting(_) => EvictionSweeps(w);
    case Retiring(id) => UnlinkSweeps(w, a.t, id);
    case Releasing(id, again) => ReleaseSweeps(w, a.t, id, again);
    case _ =>
  }

  lemma {:induction false} RunSweeps(w: World, actions: seq<Action>)
    requires Inv(w, map[]) && Swept(w.cache)
    ensures Swept(Run(w, actions).cache)
    decreases |actions|
  {
    if actions != [] {
      StepSweeps(w, actions[0]);
      StepKeeps(w, map[], actions[0]);
      RunSweeps(Next(w, actions[0]), actions[1..]);
    }
  }

  /**
    After any run, whatever was cancelled or raised in it, an entry's directory has been cleaned exactly when nothing
    can find the entry, nobody holds it, and no task died holding it.
  */
  lemma CleanedIff(capacity: nat, actions: seq<Action>, id: EntryId)
    requires id in Run(Initial(capacity), actions).cache.entries
    ensures
      var w := Run(Initial(capacity), actions);
      w.cache.entries[id].cleaned == 1 <==>
        id !in w.cache.order && Holders(w.tasks, id) == {} && Leaked(Initial(capacity), actions, id) == 0
  {
    var w := Run(Initial(capacity), actions);
    RunKeeps(Initial(capacity), map[], actions);
    RunSweeps(Initial(capacity), actions);
    CountsAreHoldersIff(capacity, actions);
    assert EntryOk(w.cache, id, Claims(w.tasks, map[], id));
    assert |Holders(w.tasks, id)| == 0 <==> Holders(w.tasks, id) == {};
  }

  /**
    When every request gives back what it holds, an entry's directory is cleaned exactly when the entry can no longer
    be found and nobody holds it, and once no request is in progress the cache is within its capacity.
  */
  lemma NothingLeaks(capacity: nat, actions: seq<Action>)
    requires GivesBack(Initial(capacity), actions)
    ensures
      var w := Run(Initial(capacity), actions);
      && (forall id :: id in w.cache.entries ==>
            (w.cache.entries[id].cleaned == 1 <==> id !in w.cache.order && Holders(w.tasks, id) == {}))
      && (forall id :: id in w.cache.entries ==> w.cache.entries[id].users == |Holders(w.tasks, id)|)
      && (!Busy(w.tasks) ==> |w.cache.order| <= w.cache.capacity)
  {
    RunKeepsExact(Initial(capacity), actions);
    RunKeeps(Initial(capacity), map[], actions);
    LeaksAreKnown(Initial(capacity), actions);
    CountsAreHoldersIff(capacity, actions);
    var w := Run(Initial(capacity), actions);
    forall id | id in w.cache.entries
      ensures w.cache.entries[id].cleaned == 1 <==> id !in w.cache.order && Holders(w.tasks, id) == {}
    {
      CleanedIff(capacity, actions, id);
    }
  }

  /** A task that dies holding an entry leaves a user behind. */
  lemma LeakLeavesADebt(w: World, a: Action, id: EntryId)
    requires Inv(w, map[]) && Leaks(w, a) && PcOf(w, a.t).id == id
    ensures Inv(Next(w, a), map[id := 1])
  {
    var t := a.t;
    StepKeeps(w, map[], a);
    var w' := Next(w, a);
    assert w' == Goto(w, t, Gone);
    assert TaskOk(w.cache, w.tasks[t]);
    forall other | other in w'.cache.entries
      ensures EntryOk(w'.cache, other, Claims(w'.tasks, map[id := 1], other))
    {
      HoldersMove(w.tasks, t, Gone, other);
      assert EntryOk(w.cache, other, Claims(w.tasks, map[], other));
    }
  }

  /**
    So after one task died holding an entry, its directory is never cleaned, not even when nobody holds it and nothing
    can find it.
  */
  lemma LeakedDirectoryIsNeverCleaned(
    capacity: nat, actions: seq<Action>, leak: Action, id: EntryId, later: seq<Action>)
    requires
      var w := Run(Initial(capacity), actions);
      Leaks(w, leak) && PcOf(w, leak.t).id == id
    ensures
      var w' := Run(Next(Run(Initial(capacity), actions), leak), later);
      id in w'.cache.entries && w'.cache.entries[id].cleaned == 0 && w'.cache.entries[id].users >= 1
  {
    RunKeeps(Initial(capacity), map[], actions);
    var w := Run(Initial(capacity), actions);
    LeakLeavesADebt(w, leak, id);
    RunKeeps(Next(w, leak), map[id := 1], later);
    var w' := Run(Next(w, leak), later);
    assert EntryOk(w'.cache, id, Claims(w'.tasks, map[id := 1], id));
  }
}
