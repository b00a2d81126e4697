/** How a job ends: its record, its artifact, its items and its delivery. */
module IngestDelivery {
  import opened Wrappers
  import opened IngestProtocol
  import opened IngestSafety
  import opened IngestTheorems
  import opened IngestItems
  import opened IngestPublication

  // ---- Acknowledging --------------------------------------------------------------------------

  /** An acknowledgement deletes the entry exactly when its attempt owns the lease and the command got through. */
  lemma AckDeletesIff(w: World, t: Token, fault: Fault)
    requires Reachable(w) && At(w, t, Acking) && w.entry.Live()
    ensures Step(w, Ack(t, fault)).entry == Deleted <==> w.lease == Some(t) && !fault.RaisedBefore?
    ensures Step(w, Ack(t, fault)).hash == w.hash && Over(w)
  {
    ReachableOk(w);
    assert AttemptOk(w, t);
  }

  /** So an owner whose acknowledgement is answered leaves no live entry, in any continuation. */
  lemma AnsweredAckIsFinal(w: World, t: Token, fault: Fault, later: seq<Action>)
    requires Reachable(w) && At(w, t, Acking) && ReplyTo(w, t, fault) == Ok
    ensures !Run(Step(w, Ack(t, fault)), later).entry.Live()
  {
    ReachableOk(w);
    assert AttemptOk(w, t);
    StepKeeps(w, Ack(t, fault));
    var w' := Step(w, Ack(t, fault));
    assert w'.entry == Deleted;
    hide Inv, Step;
    GoneForEver(w', later);
  }

  lemma EntryStaysDeleted(w: World, a: Action)
    requires w.entry == Deleted && w.submitted.Some?
    ensures Step(w, a).entry == Deleted && Step(w, a).submitted.Some?
    ensures forall t :: t in Step(w, a).attempts ==> t in w.attempts
  {
    hide StatusFor, StatusOf, Applies;
    if Guarded(a) {
      GuardedKeepsEntry(w, a);
      hide Step;
    } else if Checks(a) {
      CheckKeepsEntry(w, a);
      hide Step;
    } else {
      hide DoResolve, DoInstall, DoSign, DoCompletionReturns, DoReverify, DoFinishMalformed, DoMarkRunning, DoProgress,
        DoPrepare, DoFinish, DoFailFinish, DoRecoveredFinish;
    }
  }

  lemma GuardedKeepsEntry(w: World, a: Action)
    requires Guarded(a)
    ensures Step(w, a).entry == w.entry && Step(w, a).submitted == w.submitted
    ensures forall t :: t in Step(w, a).attempts ==> t in w.attempts
  {
    hide StatusFor, StatusOf, Applies, DoSubmit, DoDeliver, DoAcquire, DoReadJob, DoResolve, DoInstall, DoSign,
      DoCompletionReturns, DoReverify, DoPushLands, DoFailRead, DoAck, DoRelease, DoCrash;
  }

  lemma CheckKeepsEntry(w: World, a: Action)
    requires Checks(a)
    ensures Step(w, a).entry == w.entry && Step(w, a).submitted == w.submitted
    ensures forall t :: t in Step(w, a).attempts ==> t in w.attempts
  {
  }

  /** A deleted entry stays deleted, and no attempt starts on it any more. */
  lemma {:induction false} GoneForEver(w: World, actions: seq<Action>)
    requires w.entry == Deleted && w.submitted.Some?
    ensures Run(w, actions).entry == Deleted
    ensures forall t :: t in Run(w, actions).attempts ==> t in w.attempts
    decreases |actions|
  {
    if actions != [] {
      EntryStaysDeleted(w, actions[0]);
      hide Step;
      GoneForEver(Step(w, actions[0]), actions[1..]);
    }
  }

  lemma EntryIsDeletedByAck(w: World, a: Action)
    requires Inv(w) && w.entry != Deleted
    ensures Step(w, a).entry == Deleted <==> exists e :: e in Added(w, a) && e.Acked?
  {
    if a.Ack? {
      assert Step(w, a).entry == Deleted <==> At(w, a.t, Acking) && Applies(w, a.t, a.fault);
      if At(w, a.t, Acking) && Applies(w, a.t, a.fault) {
        assert Acked(a.t) in Added(w, a);
      }
    } else {
      NothingElseDeletes(w, a);
    }
  }

  lemma NothingElseDeletes(w: World, a: Action)
    requires !a.Ack? && w.entry != Deleted
    ensures Step(w, a).entry != Deleted && forall e :: e in Added(w, a) ==> !e.Acked?
  {
    hide StatusFor, StatusOf, Works, WorkedThrough, DoAck;
    forall e | e in Added(w, a)
      ensures !e.Acked?
    {
      if Guarded(a) { GuardedRecords(w, a, e); } else if Checks(a) { CheckRecords(w, a, e); }
    }
    if Guarded(a) {
      GuardedKeepsEntry(w, a);
    } else if Checks(a) {
      CheckKeepsEntry(w, a);
    }
    hide DoResolve, DoInstall, DoSign, DoCompletionReturns, DoReverify, DoFinishMalformed, DoMarkRunning, DoProgress,
      DoPrepare, DoFinish, DoFailFinish, DoRecoveredFinish;
  }

  /** A delivery that finds the job held ends there and leaves everything as it is. */
  lemma HeldJobIsLeftAlone(w: World, t: Token)
    requires At(w, t, HoldsDelivery) && w.lease.Some?
    ensures Step(w, Acquire(t)) == Goto(w, t, Ended)
  {
  }

  /** What has been delivered is pending or gone. */
  predicate DeliveredIsPending(w: World) {
    w.attempts != map[] ==> w.entry == Pending || w.entry == Deleted
  }

  lemma StepKeepsPending(w: World, a: Action)
    requires Inv(w) && DeliveredIsPending(w)
    ensures DeliveredIsPending(Step(w, a))
  {
    if Guarded(a) {
      GuardedKeepsEntry(w, a);
      hide Step;
      if Step(w, a).attempts != map[] { SomeAttempt(Step(w, a).attempts, w.attempts); }
    } else if Checks(a) {
      CheckKeepsEntry(w, a);
      hide Step;
      if Step(w, a).attempts != map[] { SomeAttempt(Step(w, a).attempts, w.attempts); }
    } else {
      hide DoResolve, DoInstall, DoSign, DoCompletionReturns, DoReverify, DoFinishMalformed, DoMarkRunning, DoProgress,
        DoPrepare, DoFinish, DoFailFinish, DoRecoveredFinish;
    }
  }

  lemma SomeAttempt(a: map<Token, Pc>, b: map<Token, Pc>)
    requires a != map[] && forall t :: t in a ==> t in b
    ensures b != map[]
  {
    assert a.Keys != {};
    var t :| t in a.Keys;
    assert t in b;
  }

  /** In every run, once an attempt was started the entry is pending until its acknowledgement deletes it. */
  lemma {:induction false} EntryIsPendingWhileDelivered(governed: set<Digest>, actions: seq<Action>)
    ensures DeliveredIsPending(Run(Initial(governed), actions))
    decreases |actions|
  {
    var w0 := Initial(governed);
    InitialOk(governed);
    if actions != [] {
      hide Step, Inv, DeliveredIsPending;
      var n := |actions| - 1;
      EntryIsPendingWhileDelivered(governed, actions[..n]);
      RunKeeps(w0, actions[..n]);
      assert actions == actions[..n] + [actions[n]];
      RunSplits(w0, actions[..n], [actions[n]]);
      RunOfOne(Run(w0, actions[..n]), actions[n]);
      StepKeepsPending(Run(w0, actions[..n]), actions[n]);
    }
  }

  // ---- No delivery is wedged -------------------------------------------------------------------

  lemma FreshDelivery(w: World, t: Token)
    requires w.hash.Some? && w.entry.Live() && t !in w.attempts
    ensures
      var w' := Step(Step(w, Expire), Deliver(t));
      && w'.hash == w.hash && w'.lease.None? && At(w', t, HoldsDelivery) && w'.entry.Live()
      && w'.tag == w.tag && w'.outstanding == w.outstanding
  {
  }

  lemma EndedJobIsSeen(w: World, t: Token)
    requires Over(w) && w.lease.None? && At(w, t, HoldsDelivery)
    ensures
      var w' := Step(Step(w, Acquire(t)), ReadJob(t));
      && w'.hash == w.hash && w'.lease == Some(t) && At(w', t, Acking) && w'.entry == w.entry
      && w'.tag == w.tag && w'.outstanding == w.outstanding
  {
  }

  lemma TakingOverTheDelivery(w: World, t: Token)
    requires Inv(w) && Over(w) && w.entry.Live() && t !in w.attempts
    ensures
      var w' := Run(w, [Expire, Deliver(t), Acquire(t), ReadJob(t)]);
      && Inv(w') && w'.hash == w.hash && w'.lease == Some(t) && At(w', t, Acking) && w'.entry.Live()
      && w'.tag == w.tag && w'.outstanding == w.outstanding
  {
    hide Step, Run, Inv;
    FreshDelivery(w, t);
    EndedJobIsSeen(Step(Step(w, Expire), Deliver(t)), t);
    RunOfFour(w, Expire, Deliver(t), Acquire(t), ReadJob(t));
    RunKeeps(w, [Expire, Deliver(t), Acquire(t), ReadJob(t)]);
  }

  /** The owner acknowledges and lets go. */
  lemma OwnerLeaves(w: World, t: Token)
    requires w.lease == Some(t) && At(w, t, Acking)
    ensures
      var w' := Run(w, [Ack(t, NoFault), Release(t)]);
      && w'.entry == Deleted && w'.hash == w.hash && w'.lease.None? && At(w', t, Ended)
      && w'.tag == w.tag && w'.outstanding == w.outstanding && w'.signed == w.signed && w'.governed == w.governed
  {
    RunOfTwo(w, Ack(t, NoFault), Release(t));
  }

  /**
    From every reachable world whose job has ended and whose entry is still live, some run deletes the entry and leaves
    the job record as it is.
  */
  lemma NoDeliveryIsWedged(w: World) returns (actions: seq<Action>)
    requires Reachable(w) && Over(w) && w.entry.Live()
    ensures Run(w, actions).entry == Deleted && Run(w, actions).hash == w.hash && Run(w, actions).lease.None?
  {
    ReachableOk(w);
    hide Inv, Run, Step;
    var t := FreshToken(w);
    TakingOverTheDelivery(w, t);
    var first, last := [Expire, Deliver(t), Acquire(t), ReadJob(t)], [Ack(t, NoFault), Release(t)];
    OwnerLeaves(Run(w, first), t);
    RunSplits(w, first, last);
    actions := first + last;
  }

  lemma ReachesFurther(w: World, actions: seq<Action>)
    requires Reachable(w)
    ensures Reachable(Run(w, actions))
  {
    var governed, before :| w == Run(Initial(governed), before);
    RunSplits(Initial(governed), before, actions);
  }

  /** So every job that was submitted can end with a terminal record and no delivery left. */
  lemma EveryJobCanEnd(w: World) returns (actions: seq<Action>)
    requires Reachable(w) && w.hash.Some?
    ensures Over(Run(w, actions)) && Run(w, actions).entry == Deleted
  {
    ReachableOk(w);
    actions := [];
    if Open(w) { actions := NoJobIsWedged(w); }
    var w1 := Run(w, actions);
    ReachesFurther(w, actions);
    ReachableOk(w1);
    if w1.entry.Live() {
      hide Run, Step, Inv;
      var more := NoDeliveryIsWedged(w1);
      RunSplits(w, actions, more);
      actions := actions + more;
    }
  }

  // ---- A job can be carried out -------------------------------------------------------------------

  lemma PushingKeepsItems(w: World, t: Token, p: Prepared)
    requires Inv(w) && At(w, t, Pushing(p)) && w.lease == Some(t)
    ensures Reported(w, p.reports) && |p.reports| == ItemsOf(w)
  {
    assert AttemptOk(w, t);
  }

  /**
    From every reachable world with an open, well-formed job and nothing under its tag, a fresh attempt can process the
    items with any outcome, publish any artifact, and end the job with the status of its reports, the artifact under the
    tag, the reports in the record, and no delivery left.
  */
  lemma EveryOpenJobCanPublish(w: World, p: Prepared) returns (actions: seq<Action>)
    requires Reachable(w) && Open(w) && WellFormed(w) && w.tag.None? && |p.reports| == ItemsOf(w)
    ensures
      var w' := Run(w, actions);
      && StatusIn(w') == Some(StatusFor(p.reports)) && Holds(w', Some(p)) && Reported(w', p.reports)
      && w'.tag == Some(p.digest) && w'.entry == Deleted && w'.lease.None?
  {
    ReachableOk(w);
    hide Inv, Run, Step, Reported, StatusFor;
    var t := FreshToken(w);
    var first := NewcomerStartsPush(w, t, p);
    var w1 := Run(w, first);
    PushingKeepsItems(w1, t, p);
    var second := OwnerPublishes(w1, t, p);
    var w2 := Run(w1, second);
    SameItemsAlike(w1, w2, p.reports);
    OwnerLeaves(w2, t);
    var last := [Ack(t, NoFault), Release(t)];
    SameItemsAlike(w2, Run(w2, last), p.reports);
    RunSplits(w1, second, last);
    RunSplits(w, first, second + last);
    actions := first + (second + last);
  }

  lemma SameItemsAlike(w: World, w': World, reports: Reports)
    requires Reported(w, reports) && w.hash.Some? && w'.hash.Some? && w'.hash.value.items == w.hash.value.items
    ensures Reported(w', reports)
  {
  }

  // ---- An interrupted publication is recovered ------------------------------------------------------

  lemma TagIsFound(w: World, t: Token, p: Prepared)
    requires At(w, t, Resolving(p, InRun)) && w.tag == Some(p.digest)
    ensures Step(w, Resolve(t, Names(p.digest))) == Goto(w, t, Installing(p, InRun))
  {
  }

  /** Nothing has moved but the history, and attempts. */
  predicate SameState(w: World, w': World) {
    && w'.hash == w.hash && w'.lease == w.lease && w'.tag == w.tag && w'.outstanding == w.outstanding
    && w'.governed == w.governed && w'.entry == w.entry
  }

  lemma PullConfirms(w: World, t: Token, p: Prepared)
    requires At(w, t, Installing(p, InRun)) && w.tag == Some(p.digest)
    requires p.digest in w.governed ==> p.digest in w.signed
    ensures
      var w' := Step(w, Install(t, Pulled));
      SameState(w, w') && w'.signed == w.signed && At(w', t, Finishing(Recovered(p)))
  {
  }

  lemma PullAsksForSignatures(w: World, t: Token, p: Prepared)
    requires At(w, t, Installing(p, InRun)) && w.tag == Some(p.digest)
    requires p.digest in w.governed && p.digest !in w.signed
    ensures Step(w, Install(t, Pulled)) == Goto(w, t, Signing(p, InRun))
  {
  }

  lemma SigningPushes(w: World, t: Token, p: Prepared)
    requires At(w, t, Signing(p, InRun)) && w.tag == Some(p.digest) && Push(t, InRun, p.digest) !in w.outstanding
    ensures
      var w' := Step(Step(w, Sign(t, None)), PushLands(Push(t, InRun, p.digest)));
      SameState(w, w') && p.digest in w'.landed && At(w', t, Completing(p, InRun))
  {
    var push := Push(t, InRun, p.digest);
    assert w.outstanding + {push} - {push} == w.outstanding;
  }

  lemma SignaturesArrive(w: World, t: Token, p: Prepared)
    requires At(w, t, Completing(p, InRun)) && p.digest in w.landed && Push(t, InRun, p.digest) !in w.outstanding
    ensures
      var w' := Step(Step(w, SignaturesLand(p.digest)), CompletionReturns(t, None));
      SameState(w, w') && p.digest in w'.signed && At(w', t, Reverifying(p, InRun))
  {
  }

  lemma ReverificationConfirms(w: World, t: Token, p: Prepared)
    requires At(w, t, Reverifying(p, InRun)) && w.tag == Some(p.digest) && p.digest in w.signed
    ensures
      var w' := Step(w, Reverify(t, Pulled));
      SameState(w, w') && w'.signed == w.signed && At(w', t, Finishing(Recovered(p)))
  {
  }

  lemma RecoveryIsRecorded(w: World, t: Token, p: Prepared)
    requires w.hash.Some? && w.lease == Some(t) && At(w, t, Finishing(Recovered(p)))
    ensures
      var w' := Step(w, Finish(t, NoFault));
      && w'.hash == Some(w.hash.value.(status := StatusFor(p.reports), request := None)) && w'.lease == w.lease
      && w'.tag == w.tag && w'.outstanding == w.outstanding && w'.signed == w.signed && w'.governed == w.governed
      && At(w', t, Acking)
  {
  }

  /** The signatures an interrupted push left out are completed, and looked at again. */
  lemma SignaturesAreCompleted(w: World, t: Token, p: Prepared) returns (actions: seq<Action>)
    requires At(w, t, Signing(p, InRun)) && w.tag == Some(p.digest) && Push(t, InRun, p.digest) !in w.outstanding
    ensures
      var w' := Run(w, actions);
      SameState(w, w') && p.digest in w'.signed && At(w', t, Finishing(Recovered(p)))
  {
    hide Run, Step, At;
    var push := Push(t, InRun, p.digest);
    var first, second, last := [Sign(t, None), PushLands(push)], [SignaturesLand(p.digest), CompletionReturns(t, None)],
      [Reverify(t, Pulled)];
    SigningPushes(w, t, p);
    RunOfTwo(w, first[0], first[1]);
    var w1 := Run(w, first);
    SignaturesArrive(w1, t, p);
    RunOfTwo(w1, second[0], second[1]);
    var w2 := Run(w1, second);
    ReverificationConfirms(w2, t, p);
    RunOfOne(w2, last[0]);
    RunSplits(w1, second, last);
    RunSplits(w, first, second + last);
    actions := first + (second + last);
  }

  /** The check confirms what is under the tag, completing its signatures where they are missing. */
  lemma CheckSucceeds(w: World, t: Token, p: Prepared) returns (actions: seq<Action>)
    requires At(w, t, Resolving(p, InRun)) && w.tag == Some(p.digest) && Push(t, InRun, p.digest) !in w.outstanding
    ensures
      var w' := Run(w, actions);
      && SameState(w, w') && (p.digest in w.governed ==> p.digest in w'.signed)
      && At(w', t, Finishing(Recovered(p)))
  {
    hide Run, Step;
    var look := [Resolve(t, Names(p.digest)), Install(t, Pulled)];
    TagIsFound(w, t, p);
    RunOfTwo(w, look[0], look[1]);
    var w1 := Step(w, look[0]);
    if p.digest in w.governed && p.digest !in w.signed {
      PullAsksForSignatures(w1, t, p);
      var w2 := Run(w, look);
      var complete := SignaturesAreCompleted(w2, t, p);
      RunSplits(w, look, complete);
      actions := look + complete;
    } else {
      PullConfirms(w1, t, p);
      actions := look;
    }
  }

  /**
    From every reachable world with an open job whose prepared artifact is what its tag names, a fresh attempt recovers
    the publication: the job ends with the status of that artifact's reports, the same artifact, items and tag, nothing
    prepared or left outstanding anew, the signatures complete if it is governed, and no delivery left.
  */
  lemma EveryPublicationCanBeRecovered(w: World, p: Prepared) returns (actions: seq<Action>)
    requires Reachable(w) && Open(w) && WellFormed(w) && Holds(w, Some(p)) && w.tag == Some(p.digest)
    ensures
      var w' := Run(w, actions);
      && StatusIn(w') == Some(StatusFor(p.reports)) && Holds(w', Some(p)) && w'.tag == w.tag
      && w'.hash.value.items == w.hash.value.items && w'.outstanding == w.outstanding
      && (p.digest in w'.governed ==> p.digest in w'.signed) && w'.entry == Deleted && w'.lease.None?
  {
    ReachableOk(w);
    hide Run, Step, Inv;
    var t := FreshToken(w);
    var start := TakeOver(w, t);
    var w1 := Run(w, start);
    MarkingStarts(w1, t);
    var mark := [MarkRunning(t, NoFault)];
    RunOfOne(w1, mark[0]);
    var w2 := Run(w1, mark);
    var check := CheckSucceeds(w2, t, p);
    var w3 := Run(w2, check);
    RecoveryIsRecorded(w3, t, p);
    var record, leave := [Finish(t, NoFault)], [Ack(t, NoFault), Release(t)];
    RunOfOne(w3, record[0]);
    OwnerLeaves(Run(w3, record), t);
    RunSplits(w3, record, leave);
    RunSplits(w2, check, record + leave);
    RunSplits(w1, mark, check + (record + leave));
    RunSplits(w, start, mark + (check + (record + leave)));
    actions := start + (mark + (check + (record + leave)));
  }

  // ---- Statuses and items ------------------------------------------------------------------------------

  /**
    In every run, a job finished by the attempt that processed it is completed exactly when its record shows every item
    as a success, and otherwise partial.
  */
  lemma ProcessedStatusIff(governed: set<Digest>, actions: seq<Action>, a: Action, e: Event)
    requires e in Added(Run(Initial(governed), actions), a) && e.Finished? && e.via.Processed?
    ensures
      var w' := Step(Run(Initial(governed), actions), a);
      && (StatusIn(w') == Some(Completed) <==> AllSucceeded(w'))
      && (StatusIn(w') == Some(Partial) <==> !AllSucceeded(w'))
      && Reported(w', e.via.reports) && |e.via.reports| == ItemsOf(w')
  {
    var w := Run(Initial(governed), actions);
    assert Reachable(w);
    ReachableOk(w);
    WritesAreOwned(w, a, e);
    assert e.who in w.attempts;
    assert AttemptOk(w, e.who);
    var pc := w.attempts[e.who];
    FinishRecords(w, a, e, pc);
    assert pc == Finishing(e.via);
    assert Reported(w, e.via.reports) && |e.via.reports| == ItemsOf(w);
    hide Run, Inv;
    FinishKeepsItems(w, a, e);
    hide Step, Added, Reported, ItemsOf;
    var w' := Step(w, a);
    SameItemsAlike(w, w', e.via.reports);
    StatusOfReports(w', e.via.reports);
  }

  lemma FinishKeepsItems(w: World, a: Action, e: Event)
    requires e in Added(w, a) && e.Finished? && w.hash.Some?
    ensures Step(w, a).hash.Some? && Step(w, a).hash.value.items == w.hash.value.items
    ensures ItemsOf(Step(w, a)) == ItemsOf(w)
  {
    WritesAreOwned(w, a, e);
    hide DoSubmit, DoDeliver, DoAcquire, DoReadJob, DoResolve, DoInstall, DoSign, DoCompletionReturns, DoReverify,
      DoProcessRaises, DoProcessUnchanged, DoPushReturns, DoPushRaises, DoPushLands, DoSignaturesLand, DoFailRead,
      DoAck, DoRelease, DoCrash, StatusOf, StatusFor;
  }

  /** The recovering attempt knows that the record holds the artifact it is about to report. */
  lemma RecoveredRecord(w: World, a: Action, e: Event)
    requires Inv(w) && e in Added(w, a) && e.Finished? && e.via.Recovered?
    ensures Holds(w, Some(e.via.prepared)) && StatusIn(Step(w, a)) == Some(StatusFor(e.via.prepared.reports))
    ensures Step(w, a).hash.Some? && ItemsOf(Step(w, a)) == ItemsOf(w)
  {
    OwnerRecords(w, a, e);
    FinishKeepsItems(w, a, e);
  }

  /** What a recovered status says: it is that of the reports the artifact was committed with, at step `c`. */
  ghost predicate SaysAtCommit(governed: set<Digest>, actions: seq<Action>, c: nat, p: Prepared, w': World) {
    && CommittedAt(governed, actions, c, p)
    && StatusIn(w') == Some(StatusFor(p.reports))
    && (StatusIn(w') == Some(Completed) ==>
          (AllSucceeded(w') <==> ShowAlike(Run(Initial(governed), actions[..c + 1]), w', ItemsOf(w'))))
  }

  /**
    In every run, a job finished by recovery has the status of the reports its artifact was committed with; if that is
    completed, its record shows every item as a success exactly when it still shows what it showed at the commit.
  */
  lemma RecoveredStatusIff(governed: set<Digest>, actions: seq<Action>, a: Action, e: Event)
    requires e in Added(Run(Initial(governed), actions), a) && e.Finished? && e.via.Recovered?
    ensures
      exists c: nat ::
        SaysAtCommit(governed, actions, c, e.via.prepared, Step(Run(Initial(governed), actions), a))
  {
    hide Inv, Step, AllSucceeded, ShowAlike, Reported;
    var w0, p := Initial(governed), e.via.prepared;
    var w := Run(w0, actions);
    assert Reachable(w);
    ReachableOk(w);
    RecoveredRecord(w, a, e);
    ArtifactWasCommitted(governed, actions, p);
    var c: nat :| CommittedAt(governed, actions, c, p);
    var u := Run(w0, actions[..c + 1]);
    InitialOk(governed);
    RunKeeps(w0, actions[..c + 1]);
    assert u.submitted.Some? by { HashMeansSubmitted(u); }
    assert actions == actions[..c + 1] + actions[c + 1..];
    RunSplits(w0, actions[..c + 1], actions[c + 1..]);
    SubmissionStays(u, actions[c + 1..]);
    RecoveredStatus(u, Step(w, a), p);
    assert SaysAtCommit(governed, actions, c, p, Step(w, a));
  }

  lemma HashMeansSubmitted(w: World)
    requires Inv(w) && w.hash.Some?
    ensures w.submitted.Some?
  {
  }

  // ---- A completed job may show a failed item -----------------------------------------------------------

  /** Another attempt takes an open job over, finds its tag absent, and its first item fails. */
  lemma NextAttemptFails(w: World, p: Prepared) returns (actions: seq<Action>)
    requires Inv(w) && Open(w) && WellFormed(w) && w.tag.None? && ItemsOf(w) == 1 && Holds(w, Some(p))
    ensures
      var w' := Run(w, actions);
      && Inv(w') && Open(w') && WellFormed(w') && Holds(w', Some(p)) && w'.outstanding == w.outstanding
      && 0 in w'.hash.value.items && !w'.hash.value.items[0]
  {
    hide Inv, Run, Step;
    var t := FreshToken(w);
    var start := TakeOver(w, t);
    SubmissionStays(w, start);
    var w1 := Run(w, start);
    var work := OwnerStartsWork(w1, t);
    SubmissionStays(w1, work);
    var w2 := Run(w1, work);
    var fail := [Progress(t, false, NoFault)];
    ProgressStep(w2, t, false);
    RunOfOne(w2, fail[0]);
    RunSplits(w1, work, fail);
    RunSplits(w, start, work + fail);
    actions := start + (work + fail);
    RunKeeps(w, actions);
  }

  lemma LandingKeepsTheJob(w: World, push: Push)
    requires Inv(w) && push in w.outstanding
    ensures
      var w' := Step(w, PushLands(push));
      && Inv(w') && w'.hash == w.hash && w'.submitted == w.submitted && w'.tag == Some(push.digest)
  {
    StepKeeps(w, PushLands(push));
  }

  /**
    The first attempt commits an artifact whose only item succeeded and loses the job; a second one processes the item
    again, and it fails; then the first one's push lands, and a third recovers it: the job is completed, and its record
    shows the item as failed.
  */
  lemma CompletedJobShowsAFailedItem(d: Digest) returns (actions: seq<Action>)
    ensures
      var w := Run(Initial({}), actions);
      && StatusIn(w) == Some(Completed) && ItemsOf(w) == 1 && w.tag == Some(d) && w.entry == Deleted
      && 0 in w.hash.value.items && !w.hash.value.items[0]
  {
    var w0, submit, p := Initial({}), [Submit(Request(true, 1))], Prepared(d, [true]);
    InitialOk({});
    SubmissionOpens(1);
    RunKeeps(w0, submit);
    hide Inv, Run, Step;
    var w1 := Run(w0, submit);
    var first := NewcomerStartsPush(w1, 0, p);
    var w2 := Run(w1, first);
    SubmissionStays(w1, first);
    var second := NextAttemptFails(w2, p);
    SubmissionStays(w2, second);
    var w3 := Run(w2, second);
    var land := [PushLands(Push(0, InRun, d))];
    LandingKeepsTheJob(w3, Push(0, InRun, d));
    RunOfOne(w3, land[0]);
    RunSplits(w2, second, land);
    RunSplits(w1, first, second + land);
    RunSplits(w0, submit, first + (second + land));
    var before := submit + (first + (second + land));
    var w4 := Run(w0, before);
    assert Reachable(w4);
    var last := EveryPublicationCanBeRecovered(w4, p);
    SubmissionStays(w4, last);
    RunSplits(w0, before, last);
    actions := before + last;
  }

  // ---- How an attempt leaves -----------------------------------------------------------------------------

  /** The write by which an attempt ends the job. */
  predicate Ends(w: World, a: Action) {
    && Actor(a).Some? && a.t in w.attempts
    && match w.attempts[a.t]
       case FinishingMalformed => a.FinishMalformed?
       case Finishing(_) => a.Finish?
       case FailFinishing(_) => a.FailFinish?
       case RecoveredFinishing(_) => a.RecoveredFinish?
       case _ => false
  }

  function FaultOf(a: Action): Fault {
    match a
    case FinishMalformed(_, fault) => fault
    case MarkRunning(_, fault) => fault
    case Progress(_, _, fault) => fault
    case Prepare(_, _, fault) => fault
    case Finish(_, fault) => fault
    case FailFinish(_, fault) => fault
    case RecoveredFinish(_, fault) => fault
    case Ack(_, fault) => fault
    case _ => NoFault
  }

  lemma EndIsRecorded(w: World, a: Action)
    requires Ends(w, a) && w.hash.Some? && ReplyTo(w, a.t, FaultOf(a)) == Ok
    ensures Over(Step(w, a)) && Step(w, a).lease == Some(a.t) && At(Step(w, a), a.t, Acking)
  {
    hide DoSubmit, DoDeliver, DoAcquire, DoReadJob, DoResolve, DoInstall, DoSign, DoCompletionReturns, DoReverify,
      DoProcessRaises, DoProcessUnchanged, DoPushReturns, DoPushRaises, DoPushLands, DoSignaturesLand, DoFailRead,
      DoAck, DoRelease, DoCrash, DoMarkRunning, DoProgress, DoPrepare;
  }

  /** An attempt whose write ended the job, and was answered, acknowledges the delivery and lets the lease go. */
  lemma EndedJobIsAcknowledged(w: World, a: Action)
    requires Reachable(w) && Ends(w, a) && ReplyTo(w, a.t, FaultOf(a)) == Ok
    ensures
      var w' := Run(Step(w, a), [Ack(a.t, NoFault), Release(a.t)]);
      Over(w') && w'.hash == Step(w, a).hash && w'.entry == Deleted && w'.lease.None?
  {
    ReachableOk(w);
    hide Inv, Run, Step, Ends;
    assert w.hash.Some? by { LeaseMeansHash(w, a.t); }
    EndIsRecorded(w, a);
    OwnerLeaves(Step(w, a), a.t);
  }

  lemma LeaseMeansHash(w: World, t: Token)
    requires Inv(w) && w.lease == Some(t)
    ensures w.hash.Some?
  {
  }

  /** The write of an attempt that runs the job. */
  predicate RunWrites(w: World, a: Action) {
    && Actor(a).Some? && a.t in w.attempts
    && match w.attempts[a.t]
       case MarkingRunning(_) => a.MarkRunning?
       case Working(_) => (a.Progress? && !WorkedThrough(w, a.t)) || (a.Prepare? && WorkedThrough(w, a.t))
       case Finishing(_) => a.Finish?
       case _ => false
  }

  /**
    A write that raised sends a running attempt to its failure handler, which looks at the record and the registry
    before it decides; one that found the lease lost sends it away for good.
  */
  lemma FailedWritesAreHandled(w: World, a: Action)
    requires Reachable(w) && RunWrites(w, a) && w.hash.Some?
    ensures ReplyTo(w, a.t, FaultOf(a)) == RedisError ==> At(Step(w, a), a.t, FailReading)
    ensures ReplyTo(w, a.t, FaultOf(a)) == NotOwner ==> Quiet(Step(w, a), a.t) && Step(w, a).hash == w.hash
  {
    hide DoSubmit, DoDeliver, DoAcquire, DoReadJob, DoResolve, DoInstall, DoSign, DoCompletionReturns, DoReverify,
      DoProcessRaises, DoProcessUnchanged, DoPushReturns, DoPushRaises, DoPushLands, DoSignaturesLand, DoFailRead,
      DoAck, DoRelease, DoCrash, DoFinishMalformed, DoFailFinish, DoRecoveredFinish;
  }

  /** So does a run that raises anywhere else: in its check, in an item, or in its push. */
  lemma FailedRunsAreHandled(w: World, t: Token)
    ensures Works(w, t) ==> At(Step(w, ProcessRaises(t)), t, FailReading)
    ensures t in w.attempts && w.attempts[t].Pushing? ==> At(Step(w, PushRaises(t)), t, FailReading)
    ensures t in w.attempts && w.attempts[t].Resolving? && w.attempts[t].ctx == InRun ==>
      forall kind :: At(Step(w, Resolve(t, ResolveRaised(kind))), t, FailReading)
  {
  }

  /** What the failure handler finds decides: nothing prepared fails the job, and an artifact is looked for first. */
  lemma FailureHandlerLooksFirst(w: World, t: Token)
    requires w.hash.Some? && At(w, t, FailReading)
    ensures
      At(Step(w, FailRead(t)), t,
         if w.hash.value.prepared.Some? then Resolving(w.hash.value.prepared.value, InFail) else FailFinishing(None))
  {
  }

  lemma MismatchRaises(w: World, t: Token, p: Prepared, d: Digest)
    requires At(w, t, Resolving(p, InRun)) && w.tag == Some(d) && d != p.digest
    ensures Step(w, Resolve(t, Names(d))) == Goto(w, t, FailReading)
  {
  }

  /**
    From every reachable world with an open job whose tag names another artifact than it prepared, a fresh attempt finds
    that out and fails the job, without publishing anything.
  */
  lemma EveryMismatchFails(w: World, p: Prepared, d: Digest) returns (actions: seq<Action>)
    requires Reachable(w) && Open(w) && WellFormed(w) && Holds(w, Some(p)) && w.tag == Some(d) && d != p.digest
    ensures
      var w' := Run(w, actions);
      && StatusIn(w') == Some(Failed) && w'.tag == w.tag && w'.outstanding == w.outstanding
      && w'.entry == Deleted && w'.lease.None?
  {
    ReachableOk(w);
    hide Run, Step, Inv;
    var t := FreshToken(w);
    var start := TakeOver(w, t);
    var w1 := Run(w, start);
    var look, fail := [MarkRunning(t, NoFault), Resolve(t, Names(d))], [FailRead(t), Resolve(t, Names(d))];
    MarkingStarts(w1, t);
    RunOfTwo(w1, look[0], look[1]);
    MismatchRaises(Step(w1, look[0]), t, p, d);
    var w2 := Run(w1, look);
    MismatchLeads(w2, t, p, d);
    RunOfTwo(w2, fail[0], fail[1]);
    var w3 := Run(w2, fail);
    var record, leave := [FailFinish(t, NoFault)], [Ack(t, NoFault), Release(t)];
    FailureIsRecorded(w3, t);
    RunOfOne(w3, record[0]);
    OwnerLeaves(Run(w3, record), t);
    RunSplits(w3, record, leave);
    RunSplits(w2, fail, record + leave);
    RunSplits(w1, look, fail + (record + leave));
    RunSplits(w, start, look + (fail + (record + leave)));
    actions := start + (look + (fail + (record + leave)));
  }

  lemma MismatchLeads(w: World, t: Token, p: Prepared, d: Digest)
    requires At(w, t, FailReading) && Holds(w, Some(p)) && w.tag == Some(d) && d != p.digest
    ensures
      var w' := Step(Step(w, FailRead(t)), Resolve(t, Names(d)));
      && At(w', t, FailFinishing(Some(p))) && w'.hash == w.hash && w'.lease == w.lease && w'.tag == w.tag
      && w'.outstanding == w.outstanding
  {
  }

  lemma FailureIsRecorded(w: World, t: Token)
    requires w.hash.Some? && w.lease == Some(t) && t in w.attempts && w.attempts[t].FailFinishing?
    ensures
      var w' := Step(w, FailFinish(t, NoFault));
      && StatusIn(w') == Some(Failed) && w'.lease == w.lease && w'.tag == w.tag && w'.outstanding == w.outstanding
      && At(w', t, Acking)
  {
  }
}
