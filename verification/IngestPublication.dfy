/**
  What the ingest worker says about a publication, against what was committed, pushed and observed.
*/
module IngestPublication {
  import opened Wrappers
  import opened IngestProtocol
  import opened IngestSafety
  import opened IngestTheorems
  import opened IngestItems

  /**
    In every run: a push is started only for a digest that some attempt had committed before; the output tag only ever
    names such a digest; and every terminal record has its evidence earlier in the history.
  */
  lemma PublicationIsTruthful(w: World)
    requires Reachable(w)
    ensures PushesAreCommitted(w.log)
    ensures FinishesAreJustified(w.log)
    ensures w.tag.Some? ==> Committed(w.log, w.tag.value)
  {
    ReachableOk(w);
  }

  // ---- What the recorded events mean -----------------------------------------

  lemma GuardedRecords(w: World, a: Action, e: Event)
    requires Guarded(a) && e in Added(w, a)
    ensures e.PreparedBy? || e.PushStarted? || e.Finished?
    ensures w.lease == Some(e.who) && Actor(a) == Some(e.who)
  {
    hide DoSubmit, DoDeliver, DoAcquire, DoReadJob, DoResolve, DoInstall, DoSign, DoCompletionReturns, DoReverify,
      DoProcessRaises, DoProcessUnchanged, DoPushReturns, DoPushRaises, DoPushLands, DoSignaturesLand, DoFailRead,
      DoAck, DoRelease, DoCrash;
  }

  lemma CheckRecords(w: World, a: Action, e: Event)
    requires Checks(a) && e in Added(w, a)
    ensures e.FoundAbsent? || e.Refused? || e.Verified? || e.PushStarted?
  {
    hide DoSubmit, DoDeliver, DoAcquire, DoReadJob, DoFinishMalformed, DoMarkRunning, DoProgress, DoPrepare, DoFinish,
      DoProcessRaises, DoProcessUnchanged, DoPushReturns, DoPushRaises, DoPushLands, DoSignaturesLand, DoFailRead,
      DoAck, DoFailFinish, DoRecoveredFinish, DoRelease, DoCrash;
  }

  lemma PlainRecords(w: World, a: Action, e: Event)
    requires !Guarded(a) && !Checks(a) && e in Added(w, a)
    ensures e.Submission? || e.Acquisition? || e.Landed? || e.Acked?
  {
    hide DoResolve, DoInstall, DoSign, DoCompletionReturns, DoReverify, DoFinishMalformed, DoMarkRunning, DoProgress,
      DoPrepare, DoFinish, DoFailFinish, DoRecoveredFinish;
  }

  lemma WritesAreOwned(w: World, a: Action, e: Event)
    requires e in Added(w, a) && (e.PreparedBy? || e.Finished?)
    ensures Guarded(a) && w.lease == Some(e.who) && Actor(a) == Some(e.who)
  {
    hide Added;
    if Guarded(a) {
      GuardedRecords(w, a, e);
    } else if Checks(a) {
      CheckRecords(w, a, e);
    } else {
      PlainRecords(w, a, e);
    }
  }

  lemma AnswersAreChecked(w: World, a: Action, e: Event)
    requires e in Added(w, a) && (e.FoundAbsent? || e.Refused? || e.Verified?)
    ensures Checks(a)
  {
    hide Added;
    if Guarded(a) {
      GuardedRecords(w, a, e);
    } else if !Checks(a) {
      PlainRecords(w, a, e);
    }
  }

  // ---- What the check was told --------------------------------------------------

  /** The tag names the artifact, which is authorized if it is governed. */
  predicate ObservedAt(w: World, d: Digest) {
    w.tag == Some(d) && (d in w.governed ==> d in w.signed)
  }

  /** The attempt pulls the artifact it is checking, as the tag names it, and finds it in order. */
  predicate Confirms(w: World, a: Action, t: Token, d: Digest) {
    && t in w.attempts && ObservedAt(w, d)
    && match (w.attempts[t], a)
       case (Installing(p, _), Install(u, Pulled)) => u == t && p.digest == d
       case (Reverifying(p, _), Reverify(u, Pulled)) => u == t && p.digest == d
       case _ => false
  }

  /** The failure handler resolves the tag for the artifact, and there is none. */
  predicate FindsAbsent(w: World, a: Action, t: Token, d: Digest) {
    && t in w.attempts && w.tag.None? && a == Resolve(t, NotFound)
    && match w.attempts[t]
       case Resolving(p, ctx) => ctx == InFail && p.digest == d
       case _ => false
  }

  /**
    The failure handler's check of the artifact gets an answer for good, not a silence: another artifact, a missing
    authorization, or a non-retryable error.
  */
  predicate RefusedBy(w: World, a: Action, t: Token, d: Digest) {
    && t in w.attempts
    && match (w.attempts[t], a)
       case (Resolving(p, ctx), Resolve(u, Names(other))) =>
         u == t && ctx == InFail && p.digest == d && w.tag == Some(other) && other != d
       case (Resolving(p, ctx), Resolve(u, ResolveRaised(kind))) =>
         u == t && ctx == InFail && p.digest == d && kind == NonRetryable
       case (Installing(p, ctx), Install(u, PullRaised(kind))) =>
         u == t && ctx == InFail && p.digest == d && kind == NonRetryable
       case (Signing(p, ctx), Sign(u, Some(kind))) =>
         u == t && ctx == InFail && p.digest == d && kind == NonRetryable
       case (Completing(p, ctx), CompletionReturns(u, Some(kind))) =>
         u == t && ctx == InFail && p.digest == d && kind == NonRetryable
       case (Reverifying(p, ctx), Reverify(u, PullRaised(kind))) =>
         u == t && ctx == InFail && p.digest == d && kind == NonRetryable
       case (Reverifying(p, ctx), Reverify(u, Pulled)) =>
         u == t && ctx == InFail && p.digest == d && w.tag == Some(d) && d !in w.signed
       case _ => false
  }

  lemma ConfirmationsAreObserved(w: World, a: Action, e: Event)
    requires e in Added(w, a) && e.Verified? && (e.governed ==> e.authorized)
    ensures Confirms(w, a, e.who, e.digest)
  {
    AnswersAreChecked(w, a, e);
    hide DoSubmit, DoDeliver, DoAcquire, DoReadJob, DoFinishMalformed, DoMarkRunning, DoProgress, DoPrepare, DoFinish,
      DoProcessRaises, DoProcessUnchanged, DoPushReturns, DoPushRaises, DoPushLands, DoSignaturesLand, DoFailRead,
      DoAck, DoFailFinish, DoRecoveredFinish, DoRelease, DoCrash;
  }

  lemma AbsenceIsObserved(w: World, a: Action, e: Event)
    requires e in Added(w, a) && e.FoundAbsent? && e.ctx == InFail
    ensures FindsAbsent(w, a, e.who, e.digest)
  {
    AnswersAreChecked(w, a, e);
    hide DoSubmit, DoDeliver, DoAcquire, DoReadJob, DoFinishMalformed, DoMarkRunning, DoProgress, DoPrepare, DoFinish,
      DoProcessRaises, DoProcessUnchanged, DoPushReturns, DoPushRaises, DoPushLands, DoSignaturesLand, DoFailRead,
      DoAck, DoFailFinish, DoRecoveredFinish, DoRelease, DoCrash;
  }

  lemma RefusalsAreAnswers(w: World, a: Action, e: Event)
    requires e in Added(w, a) && e.Refused?
    ensures RefusedBy(w, a, e.who, e.digest)
  {
    AnswersAreChecked(w, a, e);
    hide DoSubmit, DoDeliver, DoAcquire, DoReadJob, DoFinishMalformed, DoMarkRunning, DoProgress, DoPrepare, DoFinish,
      DoProcessRaises, DoProcessUnchanged, DoPushReturns, DoPushRaises, DoPushLands, DoSignaturesLand, DoFailRead,
      DoAck, DoFailFinish, DoRecoveredFinish, DoRelease, DoCrash;
  }

  /** Whatever is in the history was recorded by one of the steps of the run. */
  lemma {:induction false} EventHasOrigin(w: World, actions: seq<Action>, e: Event) returns (i: nat)
    requires e in Run(w, actions).log && e !in w.log
    ensures i < |actions| && e in Added(Run(w, actions[..i]), actions[i])
    decreases |actions|
  {
    hide Step;
    i := 0;
    if actions != [] {
      var n := |actions| - 1;
      var u := Run(w, actions[..n]);
      assert actions == actions[..n] + [actions[n]];
      RunSplits(w, actions[..n], [actions[n]]);
      RunOfOne(u, actions[n]);
      HistoryStays(u, actions[n]);
      if e in u.log {
        i := EventHasOrigin(w, actions[..n], e);
        assert actions[..n][..i] == actions[..i];
      } else {
        i := n;
        assert Step(u, actions[n]).log == u.log + Added(u, actions[n]);
      }
    }
  }

  // ---- Terminal records ------------------------------------------------------

  /** What the owner of the lease records about the prepared artifact is what the job record holds. */
  lemma OwnerRecords(w: World, a: Action, e: Event)
    requires Inv(w) && e in Added(w, a) && e.Finished?
    ensures e.who in w.attempts && Evidence(w.log, e.who, e.via)
    ensures StatusIn(Step(w, a)) == Some(StatusOf(e.via))
    ensures e.via.Failure? ==> Holds(w, e.via.checked)
    ensures e.via.Recovered? ==> Holds(w, Some(e.via.prepared))
    ensures e.via.Processed? && e.via.output.Some? ==> Holds(w, e.via.output)
  {
    WritesAreOwned(w, a, e);
    var t := e.who;
    assert w.lease == Some(t) ==> t in w.attempts;
    assert AttemptOk(w, t);
    RecordMatches(w, a, e, w.attempts[t]);
  }

  lemma RecordMatches(w: World, a: Action, e: Event, pc: Pc)
    requires e in Added(w, a) && e.Finished? && Actor(a) == Some(e.who)
    requires At(w, e.who, pc) && Knows(w, e.who, pc) && Justified(w, e.who, pc)
    ensures Evidence(w.log, e.who, e.via)
    ensures StatusIn(Step(w, a)) == Some(StatusOf(e.via))
    ensures e.via.Failure? ==> Holds(w, e.via.checked)
    ensures e.via.Recovered? ==> Holds(w, Some(e.via.prepared))
    ensures e.via.Processed? && e.via.output.Some? ==> Holds(w, e.via.output)
  {
    FinishRecords(w, a, e, pc);
    hide Step, Added;
  }

  /** What an attempt is about to record as final. */
  function ViaAt(pc: Pc): Option<Via> {
    match pc
    case FinishingMalformed => Some(Failure(None))
    case Finishing(via) => Some(via)
    case FailFinishing(checked) => Some(Failure(checked))
    case RecoveredFinishing(p) => Some(Recovered(p))
    case _ => None
  }

  lemma FinishRecords(w: World, a: Action, e: Event, pc: Pc)
    requires e in Added(w, a) && e.Finished? && At(w, e.who, pc)
    ensures ViaAt(pc) == Some(e.via) && StatusIn(Step(w, a)) == Some(StatusOf(e.via))
  {
    WritesAreOwned(w, a, e);
    hide DoSubmit, DoDeliver, DoAcquire, DoReadJob, DoResolve, DoInstall, DoSign, DoCompletionReturns, DoReverify,
      DoProcessRaises, DoProcessUnchanged, DoPushReturns, DoPushRaises, DoPushLands, DoSignaturesLand, DoFailRead,
      DoAck, DoRelease, DoCrash, StatusOf, StatusFor;
  }

  /** At some step the attempt's failure handler checked the artifact: the tag was absent, or it was refused. */
  ghost predicate Unpublished(w0: World, actions: seq<Action>, t: Token, d: Digest) {
    exists i :: 0 <= i < |actions| &&
      var w := Run(w0, actions[..i]);
      FindsAbsent(w, actions[i], t, d) || RefusedBy(w, actions[i], t, d)
  }

  /** At some step of the run the attempt pulled the artifact, as the tag named it, and found it in order. */
  ghost predicate Published(w0: World, actions: seq<Action>, t: Token, d: Digest) {
    exists i :: 0 <= i < |actions| && Confirms(Run(w0, actions[..i]), actions[i], t, d)
  }

  /**
    A job with a prepared artifact is marked failed only after the same attempt's failure handler asked about that very
    artifact, and found the output tag absent or was refused for good.
  */
  lemma FailedOnlyAfterTheCheck(governed: set<Digest>, actions: seq<Action>, a: Action, e: Event)
    requires e in Added(Run(Initial(governed), actions), a) && e.Finished? && e.via.Failure?
    requires
      var hash := Run(Initial(governed), actions).hash;
      hash.Some? && hash.value.prepared.Some?
    ensures
      var w := Run(Initial(governed), actions);
      Unpublished(Initial(governed), actions, e.who, w.hash.value.prepared.value.digest)
  {
    hide Run, Step, RefusedBy, FindsAbsent;
    var w0 := Initial(governed);
    var w := Run(w0, actions);
    ReachableOk(w);
    OwnerRecords(w, a, e);
    var d := w.hash.value.prepared.value.digest;
    var origin :=
      if FoundAbsent(e.who, d, InFail) in w.log then FoundAbsent(e.who, d, InFail) else Refused(e.who, d);
    var i := EventHasOrigin(w0, actions, origin);
    var u := Run(w0, actions[..i]);
    if origin.FoundAbsent? {
      AbsenceIsObserved(u, actions[i], origin);
    } else {
      RefusalsAreAnswers(u, actions[i], origin);
    }
  }

  /**
    A job finished through recovery had its output observed by that attempt: it pulled the artifact in the job record
    while the tag named it and, if governed, it was authorized.
  */
  lemma RecoveredOnlyWhenObserved(governed: set<Digest>, actions: seq<Action>, a: Action, e: Event)
    requires e in Added(Run(Initial(governed), actions), a) && e.Finished? && e.via.Recovered?
    ensures Holds(Run(Initial(governed), actions), Some(e.via.prepared))
    ensures Published(Initial(governed), actions, e.who, e.via.prepared.digest)
  {
    hide Run, Step, Confirms;
    var w0 := Initial(governed);
    var w := Run(w0, actions);
    ReachableOk(w);
    OwnerRecords(w, a, e);
    var g, ok :| Verified(e.who, e.via.prepared.digest, g, ok) in w.log && (g ==> ok);
    var origin := Verified(e.who, e.via.prepared.digest, g, ok);
    var i := EventHasOrigin(w0, actions, origin);
    ConfirmationsAreObserved(Run(w0, actions[..i]), actions[i], origin);
  }

  // ---- An unanswered check ---------------------------------------------------

  /** The check, called from the failure handler, gets no answer: a retryable error or an unexpected one. */
  predicate Unanswered(w: World, a: Action) {
    && Actor(a).Some? && a.t in w.attempts
    && (match w.attempts[a.t]
        case Resolving(_, InFail) => a.Resolve? && a.answer.ResolveRaised? && a.answer.kind != NonRetryable
        case Installing(_, InFail) => a.Install? && a.pull.PullRaised? && a.pull.kind != NonRetryable
        case Signing(_, InFail) => a.Sign? && a.raised.Some? && a.raised.value != NonRetryable
        case Completing(_, InFail) => a.CompletionReturns? && a.raised.Some? && a.raised.value != NonRetryable
        case Reverifying(_, InFail) => a.Reverify? && a.pull.PullRaised? && a.pull.kind != NonRetryable
        case _ => false)
  }

  predicate Quiet(w: World, t: Token) {
    t in w.attempts && (w.attempts[t] == Acking || w.attempts[t] == Releasing || w.attempts[t] == Ended)
  }

  lemma GuardedKeepsQuiet(w: World, a: Action, t: Token)
    requires Guarded(a) && Quiet(w, t)
    ensures Quiet(Step(w, a), t)
  {
    hide StatusFor, StatusOf, Applies, DoSubmit, DoDeliver, DoAcquire, DoReadJob, DoResolve, DoInstall, DoSign,
      DoCompletionReturns, DoReverify, DoPushLands, DoFailRead, DoAck, DoRelease, DoCrash;
  }

  lemma QuietStays(w: World, a: Action, t: Token)
    requires Quiet(w, t)
    ensures Quiet(Step(w, a), t)
  {
    if Guarded(a) {
      GuardedKeepsQuiet(w, a, t);
    } else {
      hide DoFinishMalformed, DoMarkRunning, DoProgress, DoPrepare, DoFinish, DoFailFinish, DoRecoveredFinish;
    }
  }

  lemma {:induction false} QuietForever(w: World, actions: seq<Action>, t: Token)
    requires Quiet(w, t)
    ensures Quiet(Run(w, actions), t)
    decreases |actions|
  {
    if actions != [] {
      QuietStays(w, actions[0], t);
      QuietForever(Step(w, actions[0]), actions[1..], t);
    }
  }

  lemma QuietWritesNothing(w: World, a: Action, t: Token)
    requires Quiet(w, t) && Actor(a) == Some(t)
    ensures Step(w, a).hash == w.hash
  {
  }

  lemma UnansweredStep(w: World, a: Action)
    requires Unanswered(w, a)
    ensures Step(w, a).hash == w.hash && Step(w, a).entry == w.entry && Quiet(Step(w, a), a.t)
  {
  }

  /**
    A check without an answer leaves the job record and its delivery as they are, and the attempt that asked changes
    nothing later either; if the job was open it is still open, so another attempt can take it over.
  */
  lemma UnansweredCheckLeavesTheJob(w: World, a: Action, later: seq<Action>, b: Action)
    requires Reachable(w) && Unanswered(w, a)
    requires Actor(b) == Actor(a)
    ensures Step(w, a).hash == w.hash && Step(w, a).entry == w.entry
    ensures var w' := Run(Step(w, a), later); Step(w', b).hash == w'.hash
  {
    UnansweredStep(w, a);
    QuietForever(Step(w, a), later, a.t);
    QuietWritesNothing(Run(Step(w, a), later), b, a.t);
  }

  // ---- The publication itself is not fenced ----------------------------------

  /** Every push that has not landed yet, or that an attempt is about to start, carries what the tag names now. */
  predicate PushesAgree(w: World) {
    && (forall push :: push in w.outstanding ==> w.tag == Some(push.digest))
    && (forall t :: t in w.attempts && w.attempts[t].Signing? ==> w.tag == Some(w.attempts[t].p.digest))
  }

  /** Only these steps touch the tag or the outstanding pushes, or bring an attempt to the point of signing. */
  predicate Publishes(a: Action) {
    a.Install? || a.Sign? || a.Prepare? || a.PushLands?
  }

  lemma OthersKeepTheRegistry(w: World, a: Action)
    requires !Publishes(a)
    ensures Step(w, a).tag == w.tag && Step(w, a).outstanding == w.outstanding
  {
    hide DoInstall, DoSign, DoPrepare, DoPushLands;
  }

  lemma GuardedSignsNothing(w: World, a: Action, t: Token)
    requires Guarded(a) && !Publishes(a) && t in Step(w, a).attempts && Step(w, a).attempts[t].Signing?
    ensures t in w.attempts && Step(w, a).attempts[t] == w.attempts[t]
  {
    hide DoInstall, DoSign, DoPrepare, DoPushLands, DoSubmit, DoDeliver, DoAcquire, DoReadJob, DoResolve,
      DoCompletionReturns, DoReverify, DoAck, DoFailRead;
  }

  /** An attempt comes to sign only from the step before it. */
  lemma OthersSignNothing(w: World, a: Action, t: Token)
    requires !Publishes(a) && t in Step(w, a).attempts && Step(w, a).attempts[t].Signing?
    ensures t in w.attempts && Step(w, a).attempts[t] == w.attempts[t]
  {
    hide DoInstall, DoSign, DoPrepare, DoPushLands, DoFinishMalformed, DoMarkRunning, DoProgress, DoFinish,
      DoFailFinish, DoRecoveredFinish;
    if Guarded(a) {
      GuardedSignsNothing(w, a, t);
    }
  }

  /** What an attempt with no say over the job record can still do to the registry. */
  lemma AgreementStaysFor(w: World, a: Action)
    requires Over(w) && PushesAgree(w)
    requires Actor(a).Some? && Actor(a).value in w.attempts ==>
      var t := Actor(a).value;
      w.lease == Some(t) ==> Knows(w, t, w.attempts[t])
    ensures PushesAgree(Step(w, a)) && Step(w, a).tag == w.tag
  {
    if !Publishes(a) {
      hide Step, Over;
      OthersKeepTheRegistry(w, a);
      forall t | t in Step(w, a).attempts && Step(w, a).attempts[t].Signing?
        ensures t in w.attempts && Step(w, a).attempts[t] == w.attempts[t]
      {
        OthersSignNothing(w, a, t);
      }
    }
  }

  /** A job that ended stays so, whatever an attempt still writes about it. */
  lemma OverStays(w: World, a: Action)
    requires Over(w)
    requires Actor(a).Some? && Actor(a).value in w.attempts ==>
      var t := Actor(a).value;
      w.lease == Some(t) ==> Knows(w, t, w.attempts[t])
    ensures w.submitted.Some? ==> Over(Step(w, a))
  {
  }

  lemma {:induction false} AgreementForever(w: World, actions: seq<Action>)
    requires Inv(w) && Over(w) && PushesAgree(w)
    ensures Run(w, actions).tag == w.tag
    decreases |actions|
  {
    if actions != [] {
      var a := actions[0];
      if Actor(a).Some? && Actor(a).value in w.attempts {
        assert AttemptOk(w, Actor(a).value);
      }
      AgreementStaysFor(w, a);
      StepKeeps(w, a);
      OverStays(w, a);
      AgreementForever(Step(w, a), actions[1..]);
    }
  }

  lemma LandingMovesTheTag(w: World, push: Push)
    requires push in w.outstanding
    ensures Run(w, [PushLands(push)]).tag == Some(push.digest)
  {
    RunOfOne(w, PushLands(push));
  }

  lemma SigningStarts(w: World, t: Token)
    requires t in w.attempts && w.attempts[t].Signing?
    ensures Push(t, w.attempts[t].ctx, w.attempts[t].p.digest) in Step(w, Sign(t, None)).outstanding
  {
  }

  lemma SigningMovesTheTag(w: World, t: Token)
    requires t in w.attempts && w.attempts[t].Signing?
    ensures
      var push := Push(t, w.attempts[t].ctx, w.attempts[t].p.digest);
      Run(w, [Sign(t, None), PushLands(push)]).tag == Some(push.digest)
  {
    hide Run, Step;
    var push := Push(t, w.attempts[t].ctx, w.attempts[t].p.digest);
    SigningStarts(w, t);
    RunOfTwo(w, Sign(t, None), PushLands(push));
    RunOfOne(Step(w, Sign(t, None)), PushLands(push));
    LandingMovesTheTag(Step(w, Sign(t, None)), push);
  }

  /**
    The transaction fences the job record, not the registry: after the job has ended, the tag it published under stays
    where it is exactly when every push still outstanding, or about to be started, carries that artifact.
  */
  lemma PublishedTagIsFinalIff(w: World)
    requires Reachable(w) && Over(w)
    ensures (forall actions :: Run(w, actions).tag == w.tag) <==> PushesAgree(w)
  {
    hide Run, Inv, Over;
    ReachableOk(w);
    if PushesAgree(w) {
      forall actions
        ensures Run(w, actions).tag == w.tag
      {
        AgreementForever(w, actions);
      }
    } else if push :| push in w.outstanding && w.tag != Some(push.digest) {
      LandingMovesTheTag(w, push);
    } else {
      var t :| t in w.attempts && w.attempts[t].Signing? && w.tag != Some(w.attempts[t].p.digest);
      SigningMovesTheTag(w, t);
    }
  }

  lemma MarkingStarts(w: World, t: Token)
    requires Open(w) && w.lease == Some(t) && At(w, t, MarkingRunning(w.hash.value))
    ensures
      var w' := Step(w, MarkRunning(t, NoFault));
      && w'.lease == w.lease && w'.tag == w.tag && w'.outstanding == w.outstanding && Open(w')
      && w'.hash.value.prepared == w.hash.value.prepared && w'.hash.value.items == w.hash.value.items
      && w'.landed == w.landed && w'.signed == w.signed && w'.governed == w.governed
      && At(w', t, if w.hash.value.prepared.Some? then Resolving(w.hash.value.prepared.value, InRun) else Working([]))
  {
  }

  lemma AbsenceRestarts(w: World, t: Token, p: Prepared)
    requires Open(w) && w.lease == Some(t) && At(w, t, Resolving(p, InRun)) && w.tag.None?
    ensures
      var w' := Step(w, Resolve(t, NotFound));
      && w'.lease == w.lease && w'.tag == w.tag && w'.outstanding == w.outstanding && w'.hash == w.hash
      && At(w', t, Working([]))
  {
  }

  lemma PreparingPushes(w: World, t: Token, p: Prepared)
    requires Open(w) && w.lease == Some(t) && At(w, t, Working(p.reports)) && |p.reports| == ItemsOf(w)
    ensures
      var w' := Step(w, Prepare(t, p.digest, NoFault));
      && w'.lease == w.lease && w'.tag == w.tag && w'.outstanding == w.outstanding + {Push(t, InRun, p.digest)}
      && Open(w') && Holds(w', Some(p)) && At(w', t, Pushing(p))
  {
  }

  lemma PushedFinishes(w: World, t: Token, p: Prepared)
    requires Open(w) && Holds(w, Some(p)) && w.lease == Some(t) && At(w, t, Finishing(Processed(Some(p), p.reports)))
    ensures
      var w' := Step(w, Finish(t, NoFault));
      && StatusIn(w') == Some(StatusFor(p.reports)) && Holds(w', Some(p)) && w'.tag == w.tag
      && w'.outstanding == w.outstanding && w'.lease == Some(t) && At(w', t, Acking)
      && w'.hash.value.items == w.hash.value.items
  {
  }

  lemma LandingReturns(w: World, t: Token, p: Prepared)
    requires w.lease == Some(t) && At(w, t, Pushing(p)) && Push(t, InRun, p.digest) in w.outstanding
    ensures
      var push := Push(t, InRun, p.digest);
      var w' := Step(Step(w, PushLands(push)), PushReturns(t));
      && w'.hash == w.hash && w'.lease == w.lease && w'.outstanding == w.outstanding - {push}
      && w'.tag == Some(p.digest)
      && At(w', t, Finishing(Processed(Some(p), p.reports)))
  {
  }

  /** The owner of an open job whose tag is absent starts on its items. */
  lemma OwnerStartsWork(w: World, t: Token) returns (actions: seq<Action>)
    requires Inv(w) && Open(w) && w.lease == Some(t) && At(w, t, MarkingRunning(w.hash.value)) && w.tag.None?
    ensures
      var w' := Run(w, actions);
      && Inv(w') && Open(w') && w'.lease == Some(t) && At(w', t, Working([])) && w'.tag.None?
      && w'.outstanding == w.outstanding && ItemsOf(w') == ItemsOf(w)
      && w'.hash.value.prepared == w.hash.value.prepared
  {
    MarkingStarts(w, t);
    var w1 := Step(w, MarkRunning(t, NoFault));
    RunOfOne(w, MarkRunning(t, NoFault));
    actions := [MarkRunning(t, NoFault)];
    if w.hash.value.prepared.Some? {
      AbsenceRestarts(w1, t, w.hash.value.prepared.value);
      RunOfOne(w1, Resolve(t, NotFound));
      RunSplits(w, actions, [Resolve(t, NotFound)]);
      actions := actions + [Resolve(t, NotFound)];
    }
    RunKeeps(w, actions);
    SubmissionStays(w, actions);
  }

  /** Then it works through them, prepares an artifact and starts its push. */
  lemma OwnerStartsPush(w: World, t: Token, p: Prepared) returns (actions: seq<Action>)
    requires Inv(w) && Open(w) && w.lease == Some(t) && At(w, t, MarkingRunning(w.hash.value)) && w.tag.None?
    requires |p.reports| == ItemsOf(w)
    ensures
      var w' := Run(w, actions);
      && Inv(w') && Open(w') && Holds(w', Some(p)) && w'.lease == Some(t) && At(w', t, Pushing(p)) && w'.tag.None?
      && w'.outstanding == w.outstanding + {Push(t, InRun, p.digest)}
  {
    hide Run, Step, Inv;
    var start := OwnerStartsWork(w, t);
    var w1 := Run(w, start);
    var work, end := ProgressOf(t, p.reports), [Prepare(t, p.digest, NoFault)];
    WorkLeavesItsReports(w1, t, [], p.reports);
    assert [] + p.reports == p.reports;
    var w2 := Run(w1, work);
    PreparingPushes(w2, t, p);
    RunOfOne(w2, end[0]);
    RunSplits(w1, work, end);
    RunSplits(w, start, work + end);
    actions := start + (work + end);
    RunKeeps(w, actions);
  }

  /** A fresh attempt takes over an open, well-formed job whose tag is absent and starts a push of its own. */
  lemma NewcomerStartsPush(w: World, t: Token, p: Prepared) returns (actions: seq<Action>)
    requires Inv(w) && Open(w) && WellFormed(w) && w.tag.None? && t !in w.attempts && |p.reports| == ItemsOf(w)
    ensures
      var w' := Run(w, actions);
      && Inv(w') && Open(w') && Holds(w', Some(p)) && w'.lease == Some(t) && At(w', t, Pushing(p)) && w'.tag.None?
      && w'.outstanding == w.outstanding + {Push(t, InRun, p.digest)}
  {
    hide Run, Step, Inv;
    var begin := TakeOver(w, t);
    SubmissionStays(w, begin);
    var push := OwnerStartsPush(Run(w, begin), t, p);
    RunSplits(w, begin, push);
    actions := begin + push;
  }

  /** The started push lands, and the job is finished with it. */
  lemma OwnerPublishes(w: World, t: Token, p: Prepared) returns (actions: seq<Action>)
    requires Open(w) && Holds(w, Some(p)) && w.lease == Some(t) && At(w, t, Pushing(p))
    requires Push(t, InRun, p.digest) in w.outstanding
    ensures
      var w' := Run(w, actions);
      && StatusIn(w') == Some(StatusFor(p.reports)) && Holds(w', Some(p)) && w'.tag == Some(p.digest)
      && w'.outstanding == w.outstanding - {Push(t, InRun, p.digest)} && w'.lease == Some(t) && At(w', t, Acking)
      && w'.hash.value.items == w.hash.value.items
  {
    LandingReturns(w, t, p);
    var push := [PushLands(Push(t, InRun, p.digest)), PushReturns(t)];
    RunOfTwo(w, push[0], push[1]);
    var w2 := Run(w, push);
    PushedFinishes(w2, t, p);
    RunOfOne(w2, Finish(t, NoFault));
    RunSplits(w, push, [Finish(t, NoFault)]);
    actions := push + [Finish(t, NoFault)];
  }

  lemma SubmissionOpens(n: nat)
    ensures
      var w := Run(Initial({}), [Submit(Request(true, n))]);
      Open(w) && WellFormed(w) && w.tag.None? && w.attempts == map[] && ItemsOf(w) == n
  {
    RunOfOne(Initial({}), Submit(Request(true, n)));
  }

  /** One attempt starts a push and loses the job; another prepares and publishes its own artifact. */
  lemma TwoAttempts(w: World, stale: Prepared, p: Prepared) returns (actions: seq<Action>)
    requires Inv(w) && Open(w) && WellFormed(w) && w.tag.None? && w.attempts == map[]
    requires |stale.reports| == |p.reports| == ItemsOf(w)
    ensures
      var w' := Run(w, actions);
      && StatusIn(w') == Some(StatusFor(p.reports)) && Holds(w', Some(p)) && w'.tag == Some(p.digest)
      && Push(0, InRun, stale.digest) in w'.outstanding && w'.lease.Some? && At(w', w'.lease.value, Acking)
  {
    hide Run, Inv;
    var first := NewcomerStartsPush(w, 0, stale);
    SubmissionStays(w, first);
    var w1 := Run(w, first);
    var t := FreshToken(w1);
    var second := NewcomerStartsPush(w1, t, p);
    var third := OwnerPublishes(Run(w1, second), t, p);
    RunSplits(w1, second, third);
    RunSplits(w, first, second + third);
    actions := first + (second + third);
  }

  /**
    So a fenced-off attempt can still replace what a job published: the job is finished with one artifact, and the push
    an earlier attempt had started before it lost its lease then moves the tag to any other.
  */
  lemma StalePushReplacesThePublication(stale: Prepared, p: Prepared) returns (actions: seq<Action>)
    requires |stale.reports| == |p.reports|
    ensures
      var w := Run(Initial({}), actions);
      && StatusIn(w) == Some(StatusFor(p.reports)) && Holds(w, Some(p)) && w.tag == Some(p.digest)
      && !Endangered(w)
    ensures Run(Initial({}), actions + [PushLands(Push(0, InRun, stale.digest))]).tag == Some(stale.digest)
  {
    var w0 := Initial({});
    var submit := [Submit(Request(true, |p.reports|))];
    InitialOk({});
    SubmissionOpens(|p.reports|);
    RunKeeps(w0, submit);
    var rest := TwoAttempts(Run(w0, submit), stale, p);
    actions := submit + rest;
    RunSplits(w0, submit, rest);
    RunSplits(w0, actions, [PushLands(Push(0, InRun, stale.digest))]);
    LandingMovesTheTag(Run(w0, actions), Push(0, InRun, stale.digest));
  }
}
