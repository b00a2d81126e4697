/**
  The promises of the ingest worker, over every run: fenced writes, jobs that are never lost, terminal states that
  stay, and outcomes that tell the truth about what was published.
*/
module IngestTheorems {
  import opened Wrappers
  import opened IngestProtocol
  import opened IngestSafety

  /** The attempt that takes a step, when an attempt takes it. */
  function Actor(a: Action): Option<Token> {
    match a
    case Submit(_) => None
    case Expire => None
    case PushLands(_) => None
    case SignaturesLand(_) => None
    case _ => Some(a.t)
  }

  /** The steps that are guarded writes. */
  predicate Guarded(a: Action) {
    || a.FinishMalformed? || a.MarkRunning? || a.Progress? || a.Prepare?
    || a.Finish? || a.FailFinish? || a.RecoveredFinish?
  }

  /** The steps of the recovery check. */
  predicate Checks(a: Action) {
    a.Resolve? || a.Install? || a.Sign? || a.CompletionReturns? || a.Reverify?
  }

  function StatusIn(w: World): Option<Status> {
    if w.hash.Some? then Some(w.hash.value.status) else None
  }

  /** The events a step adds to the history. */
  function Added(w: World, a: Action): seq<Event> {
    if w.log <= Step(w, a).log then Step(w, a).log[|w.log|..] else []
  }

  ghost predicate Reachable(w: World) {
    exists governed, actions :: w == Run(Initial(governed), actions)
  }

  lemma ReachableOk(w: World)
    requires Reachable(w)
    ensures Inv(w)
  {
    var governed, actions :| w == Run(Initial(governed), actions);
    InitialOk(governed);
    RunKeeps(Initial(governed), actions);
  }

  lemma {:induction false} RunSplits(w: World, first: seq<Action>, second: seq<Action>)
    ensures Run(w, first + second) == Run(Run(w, first), second)
    decreases |first|
  {
    if first == [] {
      assert first + second == second;
    } else {
      assert (first + second)[1..] == first[1..] + second;
      RunSplits(Step(w, first[0]), first[1..], second);
    }
  }

  // ---- What one step can touch -----------------------------------------------

  /** The lease is only taken where nobody holds it, and only let go by its owner or by its expiry. */
  lemma LeaseMoves(w: World, a: Action)
    ensures
      var w' := Step(w, a);
      || w'.lease == w.lease
      || (w'.lease == None && (a.Expire? || w.lease == Actor(a)))
      || (w.lease == None && w'.lease == Actor(a) && w'.lease.Some? && At(w, w'.lease.value, HoldsDelivery))
  {
  }

  lemma GuardedKeepsHistory(w: World, a: Action)
    requires Guarded(a)
    ensures w.log <= Step(w, a).log
  {
    hide DoSubmit, DoDeliver, DoAcquire, DoReadJob, DoResolve, DoInstall, DoSign, DoCompletionReturns, DoReverify,
      DoProcessRaises, DoProcessUnchanged, DoPushReturns, DoPushRaises, DoPushLands, DoSignaturesLand, DoFailRead,
      DoAck, DoRelease, DoCrash;
  }

  lemma HistoryStays(w: World, a: Action)
    ensures w.log <= Step(w, a).log
  {
    if Guarded(a) {
      GuardedKeepsHistory(w, a);
    } else {
      hide DoFinishMalformed, DoMarkRunning, DoProgress, DoPrepare, DoFinish, DoFailFinish, DoRecoveredFinish;
    }
  }

  lemma HashMoves(w: World, a: Action)
    requires w.hash.Some? && Step(w, a).hash != w.hash
    ensures a.Submit? || (Actor(a).Some? && w.lease == Actor(a) && Actor(a).value in w.attempts)
  {
  }

  /** Only the owner of the lease changes an existing job record, and it is the attempt that acquired last. */
  lemma OnlyTheOwnerWrites(w: World, a: Action)
    requires Inv(w)
    requires w.hash.Some? && Step(w, a).hash != w.hash
    ensures Actor(a).Some? && w.lease == Actor(a)
    ensures LastAcquirer(w.log) == Actor(a)
  {
    assert w.submitted.Some?;
    assert a.Submit? ==> Step(w, a) == w;
    HashMoves(w, a);
  }

  // ---- Fencing ---------------------------------------------------------------

  /** The attempt acquired the lease once and does not own it any more. */
  predicate Lost(w: World, t: Token) {
    Acquisition(t) in w.log && w.lease != Some(t)
  }

  lemma LostStays(w: World, a: Action, t: Token)
    requires Inv(w) && Lost(w, t)
    ensures Lost(Step(w, a), t)
  {
    LeaseMoves(w, a);
    HistoryStays(w, a);
    assert AttemptOk(w, t);
  }

  /** A token that was lost never comes back, whatever else happens. */
  lemma {:induction false} LostTokenNeverReturns(w: World, actions: seq<Action>, t: Token)
    requires Inv(w) && Lost(w, t)
    ensures Lost(Run(w, actions), t)
    decreases |actions|
  {
    if actions != [] {
      StepKeeps(w, actions[0]);
      LostStays(w, actions[0], t);
      LostTokenNeverReturns(Step(w, actions[0]), actions[1..], t);
    }
  }

  /**
    Once another attempt has acquired the job, no step an earlier attempt still takes, at any later time, changes the
    job record.
  */
  lemma StaleAttemptNeverWrites(w: World, t: Token, later: seq<Action>, a: Action)
    requires Reachable(w)
    requires Acquisition(t) in w.log && LastAcquirer(w.log) != Some(t)
    requires Actor(a) == Some(t)
    ensures Step(Run(w, later), a).hash == Run(w, later).hash
  {
    ReachableOk(w);
    RunKeeps(w, later);
    LostTokenNeverReturns(w, later, t);
    var w' := Run(w, later);
    if w'.hash.Some? && Step(w', a).hash != w'.hash {
      OnlyTheOwnerWrites(w', a);
    }
  }

  // ---- No job is lost --------------------------------------------------------

  /**
    In every reachable world a job that is not terminal still has its request and a stream entry that is not deleted;
    so an entry is deleted only once its job is terminal.
  */
  lemma NoJobIsLost(w: World)
    requires Reachable(w)
    ensures w.submitted.Some? ==> w.hash.Some?
    ensures Open(w) ==> w.hash.value.request == w.submitted && w.entry.Live()
    ensures w.entry == Deleted ==> Over(w)
  {
    ReachableOk(w);
  }

  /** A token that neither an attempt nor an outstanding push has. */
  lemma FreshToken(w: World) returns (t: Token)
    ensures t !in w.attempts && forall push :: push in w.outstanding ==> push.who != t
  {
    var taken := w.attempts.Keys + set push | push in w.outstanding :: push.who;
    t := 0;
    var seen: set<Token> := {};
    while t in taken
      invariant seen <= taken && forall u :: u in seen <==> 0 <= u < t
      decreases taken - seen
    {
      seen := seen + {t};
      t := t + 1;
    }
  }

  /** A fresh attempt can take over an open job. */
  lemma TakeOver(w: World, t: Token) returns (actions: seq<Action>)
    requires Inv(w) && Open(w) && t !in w.attempts
    ensures
      var w' := Run(w, actions);
      && Inv(w') && w'.hash == w.hash && w'.lease == Some(t) && w'.tag == w.tag && w'.outstanding == w.outstanding
      && w'.landed == w.landed && w'.signed == w.signed && w'.governed == w.governed
      && (WellFormed(w) ==> At(w', t, MarkingRunning(w.hash.value)))
      && (At(w', t, FinishingMalformed) || At(w', t, MarkingRunning(w'.hash.value)))
  {
    actions := [Expire, Deliver(t), Acquire(t), ReadJob(t)];
    RunOfFour(w, Expire, Deliver(t), Acquire(t), ReadJob(t));
    RunKeeps(w, actions);
  }

  /** What took over can reach the failure handler. */
  lemma Start(w: World, t: Token) returns (actions: seq<Action>)
    requires Inv(w) && Open(w) && w.lease == Some(t) && At(w, t, MarkingRunning(w.hash.value))
    ensures
      var w' := Run(w, actions);
      Inv(w') && Open(w') && At(w', t, FailReading) && w'.lease == Some(t)
  {
    var w1 := DoMarkRunning(w, t, NoFault);
    assert w1 == Step(w, MarkRunning(t, NoFault));
    var last := if w1.attempts[t].Working? then ProcessRaises(t) else Resolve(t, ResolveRaised(Retryable));
    actions := [MarkRunning(t, NoFault), last];
    RunOfTwo(w, MarkRunning(t, NoFault), last);
    RunKeeps(w, actions);
  }

  lemma RunOfOne(w: World, a: Action)
    ensures Run(w, [a]) == Step(w, a)
  {
    assert Run(Step(w, a), [a][1..]) == Step(w, a);
  }

  lemma RunOfTwo(w: World, a: Action, b: Action)
    ensures Run(w, [a, b]) == Step(Step(w, a), b)
  {
    assert [a, b][1..] == [b];
    RunOfOne(Step(w, a), b);
  }

  lemma RunOfFour(w: World, a: Action, b: Action, c: Action, d: Action)
    ensures Run(w, [a, b, c, d]) == Step(Step(Step(Step(w, a), b), c), d)
  {
    assert [a, b, c, d] == [a, b] + [c, d];
    RunSplits(w, [a, b], [c, d]);
    RunOfTwo(w, a, b);
    RunOfTwo(Step(Step(w, a), b), c, d);
  }

  lemma FailReadLeads(w: World, t: Token)
    requires w.hash.Some? && At(w, t, FailReading) && w.lease == Some(t)
    ensures
      var w' := Step(w, FailRead(t));
      && w'.hash == w.hash && w'.lease == w.lease && t in w'.attempts
      && (w'.attempts[t].FailFinishing? || (w'.attempts[t].Resolving? && w'.attempts[t].ctx == InFail))
  {
  }

  /** From the failure handler, an owner can always record a terminal state. */
  lemma FailOut(w: World, t: Token) returns (actions: seq<Action>)
    requires w.hash.Some? && At(w, t, FailReading) && w.lease == Some(t)
    ensures StatusIn(Run(w, actions)) == Some(Failed)
  {
    hide Run, Step;
    FailReadLeads(w, t);
    var w1 := Step(w, FailRead(t));
    if w1.attempts[t].FailFinishing? {
      actions := [FailRead(t), FailFinish(t, NoFault)];
      RunOfTwo(w, FailRead(t), FailFinish(t, NoFault));
      FailFinishFails(w1, t);
    } else {
      var refuse := Resolve(t, ResolveRaised(NonRetryable));
      RefusalFails(w1, t, w1.attempts[t]);
      actions := [FailRead(t), refuse] + [FailFinish(t, NoFault)];
      RunSplits(w, [FailRead(t), refuse], [FailFinish(t, NoFault)]);
      RunOfTwo(w, FailRead(t), refuse);
      RunOfOne(Step(w1, refuse), FailFinish(t, NoFault));
      FailFinishFails(Step(w1, refuse), t);
    }
  }

  /** No job is ever wedged: from every reachable world with an open job, some run brings it to a terminal state. */
  lemma NoJobIsWedged(w: World) returns (actions: seq<Action>)
    requires Reachable(w) && Open(w)
    ensures Over(Run(w, actions))
  {
    ReachableOk(w);
    var t := FreshToken(w);
    actions := TakeOver(w, t);
    var w1 := Run(w, actions);
    if At(w1, t, FinishingMalformed) {
      RunOfOne(w1, FinishMalformed(t, NoFault));
      RunSplits(w, actions, [FinishMalformed(t, NoFault)]);
      actions := actions + [FinishMalformed(t, NoFault)];
    } else {
      var start := Start(w1, t);
      var fail := FailOut(Run(w1, start), t);
      RunSplits(w1, start, fail);
      RunSplits(w, actions, start + fail);
      actions := actions + (start + fail);
    }
  }

  // ---- Terminal states -------------------------------------------------------

  /**
    The owner of a finished job is still inside its failure handler. It gets there only when the reply to its own
    finishing write was lost after the write had been applied.
  */
  predicate Endangered(w: World) {
    && w.hash.Some? && w.lease.Some? && w.lease.value in w.attempts
    && var pc := w.attempts[w.lease.value];
       || pc.InFailureHandler()
       || (pc.RecoveredFinishing? && StatusFor(pc.p.reports) != w.hash.value.status)
  }

  predicate Settled(w: World) {
    Over(w) && !Endangered(w)
  }

  /** What the owner of the lease can still do to a job that ended, judged by what it knows. */
  lemma SettledOwner(w: World, a: Action, t: Token)
    requires Settled(w) && w.hash.value.request.None?
    requires w.lease == Some(t) && t in w.attempts && Knows(w, t, w.attempts[t])
    requires Actor(a) == Some(t)
    ensures Step(w, a).hash == w.hash
    ensures !Endangered(Step(w, a))
  {
  }

  lemma OthersWriteNothing(w: World, a: Action)
    requires Settled(w) && w.submitted.Some?
    requires w.lease.Some? ==> Actor(a) != w.lease
    ensures Step(w, a).hash == w.hash
  {
    hide Endangered;
  }

  /** Whoever else moves, the owner stays where it is; and who becomes the owner only starts. */
  lemma SettledOther(w: World, a: Action)
    requires Settled(w) && w.submitted.Some?
    requires w.lease.Some? ==> Actor(a) != w.lease && w.lease.value in w.attempts
    ensures Step(w, a).hash == w.hash
    ensures !Endangered(Step(w, a))
  {
    OthersWriteNothing(w, a);
    LeaseMoves(w, a);
    hide StatusFor;
    var w' := Step(w, a);
    if w'.lease.Some? && w'.lease == w.lease {
      OthersStay(w, a, w.lease.value);
    } else if w'.lease.Some? {
      NewOwnerStarts(w, a, w'.lease.value);
    }
    hide Step;
  }

  lemma GuardedLeavesOthers(w: World, a: Action, t: Token)
    requires Guarded(a) && t in w.attempts && Actor(a) != Some(t)
    ensures t in Step(w, a).attempts && Step(w, a).attempts[t] == w.attempts[t]
  {
    hide DoSubmit, DoDeliver, DoAcquire, DoReadJob, DoResolve, DoInstall, DoSign, DoCompletionReturns, DoReverify,
      DoProcessRaises, DoProcessUnchanged, DoPushReturns, DoPushRaises, DoPushLands, DoSignaturesLand, DoFailRead,
      DoAck, DoRelease, DoCrash;
  }

  lemma CheckLeavesOthers(w: World, a: Action, t: Token)
    requires Checks(a) && t in w.attempts && Actor(a) != Some(t)
    ensures t in Step(w, a).attempts && Step(w, a).attempts[t] == w.attempts[t]
  {
    hide DoSubmit, DoDeliver, DoAcquire, DoReadJob, DoFinishMalformed, DoMarkRunning, DoProgress, DoPrepare, DoFinish,
      DoProcessRaises, DoProcessUnchanged, DoPushReturns, DoPushRaises, DoPushLands, DoSignaturesLand, DoFailRead,
      DoAck, DoFailFinish, DoRecoveredFinish, DoRelease, DoCrash;
  }

  /** An attempt moves only by its own steps. */
  lemma OthersStay(w: World, a: Action, t: Token)
    requires t in w.attempts && Actor(a) != Some(t)
    ensures t in Step(w, a).attempts && Step(w, a).attempts[t] == w.attempts[t]
  {
    if Guarded(a) {
      GuardedLeavesOthers(w, a, t);
    } else if Checks(a) {
      CheckLeavesOthers(w, a, t);
    }
    hide DoResolve, DoInstall, DoSign, DoCompletionReturns, DoReverify, DoFinishMalformed, DoMarkRunning, DoProgress,
      DoPrepare, DoFinish, DoFailFinish, DoRecoveredFinish;
  }

  lemma NewOwnerStarts(w: World, a: Action, t: Token)
    requires At(w, t, HoldsDelivery) && Actor(a) == Some(t) && Step(w, a).lease == Some(t) && w.lease != Some(t)
    ensures At(Step(w, a), t, Acquired)
  {
  }

  lemma SettledStays(w: World, a: Action)
    requires Inv(w) && Settled(w)
    ensures Step(w, a).hash == w.hash
    ensures !Endangered(Step(w, a))
  {
    if w.lease.Some? && Actor(a) == w.lease {
      assert AttemptOk(w, w.lease.value);
      SettledOwner(w, a, w.lease.value);
    } else {
      SettledOther(w, a);
    }
  }

  lemma {:induction false} SettledForever(w: World, actions: seq<Action>)
    requires Inv(w) && Settled(w)
    ensures Run(w, actions).hash == w.hash
    decreases |actions|
  {
    if actions != [] {
      StepKeeps(w, actions[0]);
      SettledStays(w, actions[0]);
      SettledForever(Step(w, actions[0]), actions[1..]);
    }
  }

  /** A refused check brings the failure handler to its finishing write. */
  lemma RefusalFails(w: World, t: Token, pc: Pc)
    requires At(w, t, pc) && pc.InFailureHandler() && !pc.FailReading? && !pc.FailFinishing?
    ensures
      var w' := Step(w, Refusal(pc, t));
      w'.hash == w.hash && w'.lease == w.lease && t in w'.attempts && w'.attempts[t].FailFinishing?
  {
  }

  lemma FailFinishFails(w: World, t: Token)
    requires w.hash.Some? && w.lease == Some(t) && t in w.attempts && w.attempts[t].FailFinishing?
    ensures StatusIn(Step(w, FailFinish(t, NoFault))) == Some(Failed)
  {
  }

  lemma RecoveredFinishRecords(w: World, t: Token)
    requires w.hash.Some? && w.lease == Some(t) && t in w.attempts && w.attempts[t].RecoveredFinishing?
    ensures StatusIn(Step(w, RecoveredFinish(t, NoFault))) == Some(StatusFor(w.attempts[t].p.reports))
  {
  }

  /** An endangered job can still change its status: the condition is exact. */
  lemma EndangeredCanChange(w: World, t: Token, pc: Pc) returns (actions: seq<Action>)
    requires Over(w) && Endangered(w) && w.lease == Some(t) && w.attempts[t] == pc && Knows(w, t, pc)
    ensures StatusIn(Run(w, actions)) != StatusIn(w)
  {
    if pc.RecoveredFinishing? {
      RecoveredFinishRecords(w, t);
      actions := [RecoveredFinish(t, NoFault)];
      RunOfOne(w, actions[0]);
    } else if pc.FailReading? {
      actions := FailOut(w, t);
    } else if pc.FailFinishing? {
      FailFinishFails(w, t);
      actions := [FailFinish(t, NoFault)];
      RunOfOne(w, actions[0]);
    } else {
      var refuse := Refusal(pc, t);
      RefusalFails(w, t, pc);
      FailFinishFails(Step(w, refuse), t);
      actions := [refuse, FailFinish(t, NoFault)];
      RunOfTwo(w, refuse, FailFinish(t, NoFault));
    }
  }

  /** The registry refusing the check, wherever in the check the attempt is. */
  function Refusal(pc: Pc, t: Token): Action {
    match pc
    case Installing(_, _) => Install(t, PullRaised(NonRetryable))
    case Signing(_, _) => Sign(t, Some(NonRetryable))
    case Completing(_, _) => CompletionReturns(t, Some(NonRetryable))
    case Reverifying(_, _) => Reverify(t, PullRaised(NonRetryable))
    case _ => Resolve(t, ResolveRaised(NonRetryable))
  }

  ghost predicate StatusIsFinal(w: World) {
    forall actions :: StatusIn(Run(w, actions)) == StatusIn(w)
  }

  /**
    A recorded terminal status stays for ever exactly when its finisher is not still inside the failure handler with
    the lease in its hands.
  */
  lemma TerminalStatusIsFinalIff(w: World)
    requires Reachable(w) && Over(w)
    ensures StatusIsFinal(w) <==> !Endangered(w)
  {
    ReachableOk(w);
    if Endangered(w) {
      var t := w.lease.value;
      assert AttemptOk(w, t);
      var actions := EndangeredCanChange(w, t, w.attempts[t]);
    } else {
      forall actions
        ensures Run(w, actions).hash == w.hash
      {
        SettledForever(w, actions);
      }
    }
  }

  /** No finishing write lost its reply after it was applied. */
  predicate RepliesArrive(actions: seq<Action>) {
    forall i :: 0 <= i < |actions| && actions[i].Finish? ==> !actions[i].fault.RaisedAfter?
  }

  /** The owner that ends an open job leaves its program for the acknowledgement or the release. */
  lemma OwnerEndingSettles(w: World, a: Action, t: Token)
    requires Open(w) && w.lease == Some(t) && t in w.attempts && Actor(a) == Some(t)
    requires a.Finish? ==> !a.fault.RaisedAfter?
    ensures !Over(Step(w, a)) || !Endangered(Step(w, a))
  {
  }

  lemma EndingSettles(w: World, a: Action)
    requires Inv(w) && Open(w) && (a.Finish? ==> !a.fault.RaisedAfter?)
    ensures !Over(Step(w, a)) || !Endangered(Step(w, a))
  {
    if Over(Step(w, a)) {
      OnlyTheOwnerWrites(w, a);
      OwnerEndingSettles(w, a, w.lease.value);
    }
  }

  lemma {:induction false} SettledWhileRepliesArrive(w: World, actions: seq<Action>)
    requires Inv(w) && RepliesArrive(actions) && (Over(w) ==> !Endangered(w))
    ensures Over(Run(w, actions)) ==> !Endangered(Run(w, actions))
    decreases |actions|
  {
    if actions != [] {
      var w' := Step(w, actions[0]);
      StepKeeps(w, actions[0]);
      if Over(w) {
        SettledStays(w, actions[0]);
      } else if Open(w) {
        EndingSettles(w, actions[0]);
      }
      SettledWhileRepliesArrive(w', actions[1..]);
    }
  }

  /** A terminal state, once recorded, never changes, when every finishing write that was applied is answered. */
  lemma TerminalStateNeverChanges(governed: set<Digest>, actions: seq<Action>, later: seq<Action>)
    requires RepliesArrive(actions)
    requires Over(Run(Initial(governed), actions))
    ensures Run(Run(Initial(governed), actions), later).hash == Run(Initial(governed), actions).hash
  {
    InitialOk(governed);
    RunKeeps(Initial(governed), actions);
    SettledWhileRepliesArrive(Initial(governed), actions);
    SettledForever(Run(Initial(governed), actions), later);
  }

  function LostReplyStart(): seq<Action> {
    [Submit(Request(true, 1)), Deliver(0), Acquire(0), ReadJob(0)]
  }

  function LostReplyFinish(): seq<Action> {
    [MarkRunning(0, NoFault), Progress(0, true, NoFault)] + [ProcessUnchanged(0), Finish(0, RaisedAfter)]
  }

  lemma StartReachesMarking()
    ensures
      var w := Run(Initial({}), LostReplyStart());
      && w.hash.Some? && w.hash.value.prepared.None? && w.lease == Some(0) && At(w, 0, MarkingRunning(w.hash.value))
      && ItemsOf(w) == 1
  {
    RunOfFour(Initial({}), Submit(Request(true, 1)), Deliver(0), Acquire(0), ReadJob(0));
  }

  lemma MarkingReachesWork(w: World, t: Token)
    requires w.hash.Some? && w.hash.value.prepared.None? && w.lease == Some(t)
    requires At(w, t, MarkingRunning(w.hash.value))
    ensures
      var w' := Step(w, MarkRunning(t, NoFault));
      w'.hash.Some? && w'.lease == Some(t) && At(w', t, Working([])) && w'.submitted == w.submitted
  {
  }

  lemma OneItemIsDone(w: World, t: Token)
    requires w.hash.Some? && w.lease == Some(t) && At(w, t, Working([])) && ItemsOf(w) == 1
    ensures
      var w' := Step(w, Progress(t, true, NoFault));
      w'.hash.Some? && w'.lease == Some(t) && At(w', t, Working([true])) && ItemsOf(w') == 1
  {
  }

  lemma UnchangedReachesFinish(w: World, t: Token)
    requires At(w, t, Working([true])) && ItemsOf(w) == 1
    ensures Step(w, ProcessUnchanged(t)) == Goto(w, t, Finishing(Processed(None, [true])))
  {
  }

  /** The finishing write is applied, and its reply is lost. */
  lemma FinishGoesUnheard(w: World, t: Token)
    requires w.hash.Some? && w.lease == Some(t) && At(w, t, Finishing(Processed(None, [true])))
    ensures
      var w' := Step(w, Finish(t, RaisedAfter));
      StatusIn(w') == Some(Completed) && w'.lease == Some(t) && At(w', t, FailReading)
  {
  }

  lemma FinishLosesItsReply(w: World)
    requires w.hash.Some? && w.hash.value.prepared.None? && w.lease == Some(0) && ItemsOf(w) == 1
    requires At(w, 0, MarkingRunning(w.hash.value))
    ensures
      var w' := Run(w, LostReplyFinish());
      StatusIn(w') == Some(Completed) && w'.lease == Some(0) && At(w', 0, FailReading)
  {
    hide Run, Step;
    var work := [MarkRunning(0, NoFault), Progress(0, true, NoFault)];
    var end := [ProcessUnchanged(0), Finish(0, RaisedAfter)];
    RunOfTwo(w, work[0], work[1]);
    MarkingReachesWork(w, 0);
    OneItemIsDone(Step(w, work[0]), 0);
    UnchangedReachesFinish(Run(w, work), 0);
    RunOfTwo(Run(w, work), end[0], end[1]);
    FinishGoesUnheard(Step(Run(w, work), end[0]), 0);
    RunSplits(w, work, end);
  }

  /** Without that premise it does change: a completed job is turned into a failed one. */
  lemma CompletedTurnsFailed() returns (more: seq<Action>)
    ensures StatusIn(Run(Initial({}), LostReplyStart() + LostReplyFinish())) == Some(Completed)
    ensures StatusIn(Run(Initial({}), LostReplyStart() + LostReplyFinish() + more)) == Some(Failed)
  {
    var w0 := Initial({});
    StartReachesMarking();
    var w1 := Run(w0, LostReplyStart());
    FinishLosesItsReply(w1);
    RunSplits(w0, LostReplyStart(), LostReplyFinish());
    more := FailOut(Run(w1, LostReplyFinish()), 0);
    RunSplits(w0, LostReplyStart() + LostReplyFinish(), more);
  }
}
