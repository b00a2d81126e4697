/**
  What every run of the ingest protocol keeps: the inductive invariant, and the lemma that each action preserves it.

  The invariant has four parts. The job record: while it is open it has its request and a live stream entry, and an
  artifact it names was committed. The registry: only committed artifacts are ever pushed, landed or tagged. The log:
  each token is acquired once, the token in the lease acquired last, pushes follow commits, and finishes have evidence.
  The attempts: whoever owns the lease knows the record as it last wrote or read it (`Knows`), and whatever an attempt
  is about to write is borne out by the log, whether or not it still owns the lease (`Justified`).
*/
module IngestSafety {
  import opened Wrappers
  import opened IngestProtocol

  // ---- Reading the history ---------------------------------------------------

  /** Who acquired the lease last. */
  function LastAcquirer(log: seq<Event>): Option<Token> {
    if log == [] then None
    else if log[|log| - 1].Acquisition? then Some(log[|log| - 1].who)
    else LastAcquirer(log[..|log| - 1])
  }

  ghost predicate Committed(log: seq<Event>, d: Digest) {
    exists t, p :: PreparedBy(t, p) in log && p.digest == d
  }

  /** What must already be in the history when attempt `t` records a terminal state for the reason `via`. */
  ghost predicate Evidence(log: seq<Event>, t: Token, via: Via) {
    match via
    case Processed(None, _) => true
    case Processed(Some(p), reports) =>
      reports == p.reports && PreparedBy(t, p) in log && PushStarted(t, p.digest) in log && Landed(p.digest) in log
    case Recovered(p) =>
      Committed(log, p.digest) && Landed(p.digest) in log &&
      exists governed, authorized ::
        Verified(t, p.digest, governed, authorized) in log && (governed ==> authorized)
    case Failure(None) => true
    case Failure(Some(p)) => FoundAbsent(t, p.digest, InFail) in log || Refused(t, p.digest) in log
  }

  ghost predicate PushesAreCommitted(log: seq<Event>) {
    forall i :: 0 <= i < |log| && log[i].PushStarted? ==> Committed(log[..i], log[i].digest)
  }

  ghost predicate FinishesAreJustified(log: seq<Event>) {
    forall i :: 0 <= i < |log| && log[i].Finished? ==> Evidence(log[..i], log[i].who, log[i].via)
  }

  ghost predicate AcquiresOnce(log: seq<Event>) {
    forall i, j :: 0 <= i < j < |log| && log[i].Acquisition? && log[j].Acquisition? ==> log[i].who != log[j].who
  }

  // ---- What one attempt knows ------------------------------------------------

  predicate Open(w: World) {
    w.hash.Some? && !w.hash.value.status.Terminal()
  }

  predicate Over(w: World) {
    w.hash.Some? && w.hash.value.status.Terminal()
  }

  /** Nothing has been recorded as failed: the job is open, or it ended with what was processed or recovered. */
  predicate NotFailed(w: World) {
    w.hash.Some? && w.hash.value.status != Failed
  }

  predicate Holds(w: World, p: Option<Prepared>) {
    w.hash.Some? && w.hash.value.prepared == p
  }

  /** The record says that this attempt is running the job. */
  predicate Marked(w: World, t: Token) {
    w.hash.Some? && w.hash.value.status == Running && w.hash.value.attempt == Some(t)
  }

  /** The record shows those reports, each under its index. */
  predicate Reported(w: World, reports: Reports) {
    w.hash.Some? && forall i :: 0 <= i < |reports| ==> i in w.hash.value.items && w.hash.value.items[i] == reports[i]
  }

  /** What is true of the hash while the attempt at `pc` still owns the lease. */
  predicate Knows(w: World, t: Token, pc: Pc) {
    match pc
    case HoldsDelivery => false
    case FinishingMalformed => Open(w) && Holds(w, None)
    case MarkingRunning(values) => Open(w) && w.hash == Some(values)
    case Resolving(p, ctx) => Holds(w, Some(p)) && NotFailed(w) && (ctx == InRun ==> Marked(w, t))
    case Installing(p, ctx) => Holds(w, Some(p)) && NotFailed(w) && (ctx == InRun ==> Marked(w, t))
    case Signing(p, ctx) => Holds(w, Some(p)) && NotFailed(w) && (ctx == InRun ==> Marked(w, t))
    case Completing(p, ctx) => Holds(w, Some(p)) && NotFailed(w) && (ctx == InRun ==> Marked(w, t))
    case Reverifying(p, ctx) => Holds(w, Some(p)) && NotFailed(w) && (ctx == InRun ==> Marked(w, t))
    case Working(reports) => Marked(w, t) && Reported(w, reports)
    case Pushing(p) => Marked(w, t) && Holds(w, Some(p)) && Reported(w, p.reports)
    case Finishing(Processed(None, reports)) => Marked(w, t) && Reported(w, reports)
    case Finishing(Processed(Some(p), reports)) => Marked(w, t) && Holds(w, Some(p)) && Reported(w, reports)
    case Finishing(Recovered(p)) => Marked(w, t) && Holds(w, Some(p))
    case Finishing(Failure(_)) => false
    case FailReading => NotFailed(w)
    case FailFinishing(checked) => Holds(w, checked) && NotFailed(w)
    case RecoveredFinishing(p) => Holds(w, Some(p)) && NotFailed(w)
    case _ => true
  }

  /** What is true of the attempt at `pc` whether or not it still owns the lease. */
  ghost predicate Justified(w: World, t: Token, pc: Pc) {
    match pc
    case HoldsDelivery => Acquisition(t) !in w.log
    case FinishingMalformed => !WellFormed(w)
    case MarkingRunning(values) =>
      WellFormed(w) && (values.prepared.Some? ==> Committed(w.log, values.prepared.value.digest))
    case Resolving(p, _) => WellFormed(w) && Committed(w.log, p.digest)
    case Installing(p, _) => WellFormed(w) && Committed(w.log, p.digest)
    case Signing(p, _) => WellFormed(w) && Committed(w.log, p.digest)
    case Completing(p, _) => WellFormed(w) && Committed(w.log, p.digest)
    case Reverifying(p, _) => WellFormed(w) && Committed(w.log, p.digest)
    case Working(reports) => WellFormed(w) && |reports| <= ItemsOf(w)
    case Pushing(p) =>
      && WellFormed(w) && |p.reports| == ItemsOf(w) && PreparedBy(t, p) in w.log && PushStarted(t, p.digest) in w.log
      && (Push(t, InRun, p.digest) in w.outstanding || p.digest in w.landed)
    case Finishing(via) =>
      WellFormed(w) && !via.Failure? && Evidence(w.log, t, via) && (via.Processed? ==> |via.reports| == ItemsOf(w))
    case FailReading => WellFormed(w)
    case FailFinishing(checked) => WellFormed(w) && Evidence(w.log, t, Failure(checked))
    case RecoveredFinishing(p) => WellFormed(w) && Evidence(w.log, t, Recovered(p))
    case Acking => Over(w)
    case _ => true
  }

  predicate WellFormed(w: World) {
    w.submitted.Some? && w.submitted.value.wellFormed
  }

  ghost predicate AttemptOk(w: World, t: Token)
    requires t in w.attempts
  {
    (w.lease == Some(t) ==> Knows(w, t, w.attempts[t])) && Justified(w, t, w.attempts[t])
  }

  // ---- The invariant ---------------------------------------------------------

  /** The job record and its stream entry: nothing is lost before a terminal state. */
  ghost predicate JobOk(w: World) {
    && (w.hash.None? ==> w.submitted.None? && w.entry == NoEntry && w.attempts == map[] && w.lease.None?)
    && (w.hash.Some? ==> w.submitted.Some? && w.entry != NoEntry)
    && (Open(w) ==> w.hash.value.request == w.submitted && w.entry.Live())
    && (Over(w) ==> w.hash.value.request.None?)
    && (w.hash.Some? && w.hash.value.prepared.Some? ==>
          WellFormed(w) && Committed(w.log, w.hash.value.prepared.value.digest))
  }

  /** The registry: only committed artifacts are ever pushed, so only those can land. */
  ghost predicate RegistryOk(w: World) {
    && (forall push :: push in w.outstanding ==> Committed(w.log, push.digest))
    && (forall d :: d in w.landed ==> Committed(w.log, d) && Landed(d) in w.log)
    && w.signed <= w.landed
    && (w.tag.Some? ==> w.tag.value in w.landed)
  }

  ghost predicate LogOk(w: World) {
    && AcquiresOnce(w.log)
    && PushesAreCommitted(w.log)
    && FinishesAreJustified(w.log)
    && (w.lease.Some? ==> w.lease.value in w.attempts && LastAcquirer(w.log) == w.lease)
    && (forall t :: Acquisition(t) in w.log ==> t in w.attempts)
  }

  ghost predicate Inv(w: World) {
    && JobOk(w)
    && RegistryOk(w)
    && LogOk(w)
    && (forall t :: t in w.attempts ==> AttemptOk(w, t))
  }

  lemma InitialOk(governed: set<Digest>)
    ensures Inv(Initial(governed))
  {
  }

  // ---- Growing the history ---------------------------------------------------

  /** What was started is still outstanding or has landed, and what has landed stays so. */
  predicate PushesProceed(w: World, w': World) {
    w.landed <= w'.landed && forall push :: push in w.outstanding ==> push in w'.outstanding || push.digest in w'.landed
  }

  lemma CommittedGrows(log: seq<Event>, log': seq<Event>, d: Digest)
    requires log <= log' && Committed(log, d)
    ensures Committed(log', d)
  {
    var t, p :| PreparedBy(t, p) in log && p.digest == d;
    assert PreparedBy(t, p) in log';
  }

  lemma EvidenceGrows(log: seq<Event>, log': seq<Event>, t: Token, via: Via)
    requires log <= log' && Evidence(log, t, via)
    ensures Evidence(log', t, via)
  {
    match via
    case Recovered(p) =>
      CommittedGrows(log, log', p.digest);
      var g, a :| Verified(t, p.digest, g, a) in log && (g ==> a);
      assert Verified(t, p.digest, g, a) in log';
    case _ =>
  }

  lemma JustifiedGrows(w: World, w': World, t: Token, pc: Pc)
    requires Justified(w, t, pc)
    requires w.log <= w'.log && w.submitted == w'.submitted && (Over(w) ==> Over(w'))
    requires PushesProceed(w, w')
    requires Acquisition(t) in w'.log ==> Acquisition(t) in w.log
    ensures Justified(w', t, pc)
  {
    match pc
    case MarkingRunning(values) =>
      if values.prepared.Some? { CommittedGrows(w.log, w'.log, values.prepared.value.digest); }
    case Resolving(p, _) => CommittedGrows(w.log, w'.log, p.digest);
    case Installing(p, _) => CommittedGrows(w.log, w'.log, p.digest);
    case Signing(p, _) => CommittedGrows(w.log, w'.log, p.digest);
    case Completing(p, _) => CommittedGrows(w.log, w'.log, p.digest);
    case Reverifying(p, _) => CommittedGrows(w.log, w'.log, p.digest);
    case Finishing(via) => EvidenceGrows(w.log, w'.log, t, via);
    case FailFinishing(checked) => EvidenceGrows(w.log, w'.log, t, Failure(checked));
    case RecoveredFinishing(p) => EvidenceGrows(w.log, w'.log, t, Recovered(p));
    case _ =>
  }

  /** One more event keeps the log in order, provided that event is in order itself. */
  lemma LogGrows(log: seq<Event>, e: Event)
    requires AcquiresOnce(log) && PushesAreCommitted(log) && FinishesAreJustified(log)
    requires e.Acquisition? ==> e !in log
    requires e.PushStarted? ==> Committed(log, e.digest)
    requires e.Finished? ==> Evidence(log, e.who, e.via)
    ensures AcquiresOnce(log + [e]) && PushesAreCommitted(log + [e]) && FinishesAreJustified(log + [e])
    ensures LastAcquirer(log + [e]) == if e.Acquisition? then Some(e.who) else LastAcquirer(log)
  {
    var log' := log + [e];
    assert log'[..|log'| - 1] == log;
    forall i | 0 <= i < |log'|
      ensures log'[..i] == log[..i]
    {
    }
    assert forall i :: 0 <= i < |log| ==> log'[i] == log[i];
    if e.PushStarted? || e.Finished? {
      assert log'[..|log|] == log;
    }
  }

  // ---- Preservation ----------------------------------------------------------

  /**
    The step of attempt `t`. Every other attempt keeps what it knows: either the hash did not change, or `t` owned the
    lease and the others know nothing.
  */
  lemma ActorKeeps(w: World, w': World, t: Token, pc: Pc)
    requires Inv(w) && t in w.attempts
    requires w'.attempts == w.attempts[t := pc]
    requires w.log <= w'.log && w.submitted == w'.submitted && (Over(w) ==> Over(w')) && PushesProceed(w, w')
    requires JobOk(w') && RegistryOk(w') && LogOk(w')
    requires w'.lease == w.lease || w'.lease == Some(t) || w'.lease.None?
    requires w'.hash != w.hash ==> w.lease == Some(t)
    requires forall u :: Acquisition(u) in w'.log ==> Acquisition(u) in w.log || u == t
    requires w'.lease == Some(t) ==> Knows(w', t, pc)
    requires Justified(w', t, pc)
    ensures Inv(w')
  {
    forall u | u in w'.attempts
      ensures AttemptOk(w', u)
    {
      if u != t {
        assert AttemptOk(w, u);
        JustifiedGrows(w, w', u, w.attempts[u]);
      }
    }
  }

  /** A step that only moves attempt `t` to another point of its program. */
  lemma MoveKeeps(w: World, t: Token, pc: Pc)
    requires Inv(w) && t in w.attempts
    requires w.lease == Some(t) ==> Knows(w, t, pc)
    requires Justified(w, t, pc)
    ensures Inv(Goto(w, t, pc))
  {
    ActorKeeps(w, Goto(w, t, pc), t, pc);
  }

  /** A step that records one event, other than a commit, and moves on. */
  lemma RecordKeeps(w: World, t: Token, e: Event, pc: Pc)
    requires Inv(w) && t in w.attempts
    requires !e.Acquisition? && !e.PushStarted? && !e.Finished?
    requires w.lease == Some(t) ==> Knows(w, t, pc)
    requires Justified(w.(log := w.log + [e]), t, pc)
    ensures Inv(Goto(w.(log := w.log + [e]), t, pc))
  {
    var w' := w.(log := w.log + [e]);
    LogGrows(w.log, e);
    RegistryGrows(w, w');
    ActorKeeps(w, Goto(w', t, pc), t, pc);
  }

  /** The registry and the job record do not depend on the history beyond what was committed. */
  lemma RegistryGrows(w: World, w': World)
    requires RegistryOk(w) && JobOk(w)
    requires w' == w.(log := w'.log) && w.log <= w'.log
    ensures RegistryOk(w') && JobOk(w')
  {
    forall d | Committed(w.log, d)
      ensures Committed(w'.log, d)
    {
      CommittedGrows(w.log, w'.log, d);
    }
    if w.hash.Some? && w.hash.value.prepared.Some? {
      CommittedGrows(w.log, w'.log, w.hash.value.prepared.value.digest);
    }
  }

  lemma CheckRaisesKeeps(w: World, t: Token, p: Prepared, ctx: Context, kind: Kind)
    requires Inv(w) && t in w.attempts && WellFormed(w)
    requires w.lease == Some(t) ==> Holds(w, Some(p)) && NotFailed(w)
    ensures Inv(CheckRaises(w, t, p, ctx, kind))
  {
    if ctx == InFail && kind == NonRetryable {
      RecordKeeps(w, t, Refused(t, p.digest), FailFinishing(Some(p)));
    } else {
      MoveKeeps(w, t, if ctx == InRun then FailReading else Releasing);
    }
  }

  lemma CheckAbsentKeeps(w: World, t: Token, p: Prepared, ctx: Context)
    requires Inv(w) && t in w.attempts && WellFormed(w)
    requires w.lease == Some(t) ==> Holds(w, Some(p)) && NotFailed(w) && (ctx == InRun ==> Marked(w, t))
    ensures Inv(CheckAbsent(w, t, p, ctx))
  {
    RecordKeeps(w, t, FoundAbsent(t, p.digest, ctx), if ctx == InRun then Working([]) else FailFinishing(Some(p)));
  }

  lemma CheckConfirmsKeeps(w: World, t: Token, p: Prepared, ctx: Context)
    requires Inv(w) && t in w.attempts && WellFormed(w)
    requires Committed(w.log, p.digest) && w.tag == Some(p.digest)
    requires p.digest in w.governed ==> p.digest in w.signed
    requires w.lease == Some(t) ==> Holds(w, Some(p)) && NotFailed(w) && (ctx == InRun ==> Marked(w, t))
    ensures Inv(CheckConfirms(w, t, p, ctx))
  {
    var e := Verified(t, p.digest, p.digest in w.governed, p.digest in w.signed);
    var w' := w.(log := w.log + [e]);
    CommittedGrows(w.log, w'.log, p.digest);
    assert Landed(p.digest) in w.log;
    assert Landed(p.digest) in w'.log;
    assert e in w'.log;
    assert Evidence(w'.log, t, Recovered(p));
    RecordKeeps(w, t, e, if ctx == InRun then Finishing(Recovered(p)) else RecoveredFinishing(p));
  }

  /** A guarded write of an open job, by whoever owns the lease. */
  lemma WriteOpenKeeps(w: World, t: Token, fault: Fault, h: Hash, pc: Pc)
    requires Inv(w) && t in w.attempts && w.hash.Some?
    requires w.lease == Some(t) ==> Open(w)
    requires !h.status.Terminal() && h.request == w.hash.value.request && h.prepared == w.hash.value.prepared
    requires var w' := Write(w, t, fault, h, []); w'.lease == Some(t) ==> Knows(w', t, pc)
    requires var w' := Write(w, t, fault, h, []); Justified(w', t, pc)
    ensures Inv(Goto(Write(w, t, fault, h, []), t, pc))
  {
    var w' := Write(w, t, fault, h, []);
    assert w'.log == w.log;
    ActorKeeps(w, Goto(w', t, pc), t, pc);
  }

  /** A terminal state, as far as the job record and the history go. */
  lemma TerminalRecordOk(w: World, t: Token, via: Via)
    requires Inv(w) && w.hash.Some? && Evidence(w.log, t, via)
    ensures
      var w' := w.(hash := Some(Terminate(w.hash.value, StatusOf(via))), log := w.log + [Finished(t, via)]);
      JobOk(w') && RegistryOk(w') && LogOk(w') && Over(w')
  {
    LogGrows(w.log, Finished(t, via));
    RegistryGrows(w, w.(log := w.log + [Finished(t, via)]));
  }

  /** The guarded write of a terminal state. */
  lemma WriteTerminalKeeps(w: World, t: Token, fault: Fault, via: Via, pc: Pc)
    requires Inv(w) && t in w.attempts
    requires Evidence(w.log, t, via)
    requires pc == Acking || pc == Releasing || pc == FailReading
    requires pc == Acking ==> ReplyTo(w, t, fault) == Ok
    requires pc == FailReading ==> WellFormed(w) && !via.Failure? && (w.lease == Some(t) ==> NotFailed(w))
    ensures Inv(Goto(WriteTerminal(w, t, fault, via), t, pc))
  {
    if Applies(w, t, fault) {
      TerminalRecordOk(w, t, via);
      var w' := w.(hash := Some(Terminate(w.hash.value, StatusOf(via))), log := w.log + [Finished(t, via)]);
      assert w' == WriteTerminal(w, t, fault, via);
      ActorKeeps(w, Goto(w', t, pc), t, pc);
    } else {
      MoveKeeps(w, t, pc);
    }
  }

  lemma SubmitKeeps(w: World, r: Request)
    requires Inv(w)
    ensures Inv(DoSubmit(w, r))
  {
    if w.submitted.None? {
      var w1 := w.(log := w.log + [Submission(r)]);
      LogGrows(w.log, Submission(r));
      RegistryGrows(w, w1);
    }
  }

  lemma DeliverKeeps(w: World, t: Token)
    requires Inv(w)
    ensures Inv(DoDeliver(w, t))
  {
    var w' := DoDeliver(w, t);
    if w' != w {
      forall u | u in w'.attempts
        ensures AttemptOk(w', u)
      {
        if u != t {
          assert AttemptOk(w, u);
          JustifiedGrows(w, w', u, w.attempts[u]);
        }
      }
    }
  }

  lemma AcquireKeeps(w: World, t: Token)
    requires Inv(w)
    ensures Inv(DoAcquire(w, t))
  {
    if At(w, t, HoldsDelivery) {
      assert AttemptOk(w, t);
      if w.lease.Some? {
        MoveKeeps(w, t, Ended);
      } else {
        var e := Acquisition(t);
        LogGrows(w.log, e);
        RegistryGrows(w, w.(log := w.log + [e]));
        ActorKeeps(w, DoAcquire(w, t), t, Acquired);
      }
    }
  }

  lemma ExpireKeeps(w: World)
    requires Inv(w)
    ensures Inv(w.(lease := None))
  {
    var w' := w.(lease := None);
    forall u | u in w'.attempts
      ensures AttemptOk(w', u)
    {
      assert AttemptOk(w, u);
      JustifiedGrows(w, w', u, w.attempts[u]);
    }
  }

  lemma ReadJobKeeps(w: World, t: Token)
    requires Inv(w)
    ensures Inv(DoReadJob(w, t))
  {
    if At(w, t, Acquired) {
      assert AttemptOk(w, t);
      MoveKeeps(w, t, DoReadJob(w, t).attempts[t]);
    }
  }

  lemma FinishMalformedKeeps(w: World, t: Token, fault: Fault)
    requires Inv(w)
    ensures Inv(DoFinishMalformed(w, t, fault))
  {
    if At(w, t, FinishingMalformed) {
      assert AttemptOk(w, t);
      WriteTerminalKeeps(w, t, fault, Failure(None), if ReplyTo(w, t, fault) == Ok then Acking else Releasing);
    }
  }

  lemma MarkRunningKeeps(w: World, t: Token, fault: Fault)
    requires Inv(w)
    ensures Inv(DoMarkRunning(w, t, fault))
  {
    if t in w.attempts && w.attempts[t].MarkingRunning? && w.hash.Some? {
      assert AttemptOk(w, t);
      var h := w.hash.value.(status := Running, attempt := Some(t));
      WriteOpenKeeps(w, t, fault, h, DoMarkRunning(w, t, fault).attempts[t]);
    }
  }

  lemma CheckStepsKeep(w: World, t: Token, answer: Answer, pull: Pull)
    requires Inv(w)
    ensures Inv(DoResolve(w, t, answer))
    ensures Inv(DoInstall(w, t, pull))
    ensures Inv(DoReverify(w, t, pull))
  {
    if t in w.attempts {
      assert AttemptOk(w, t);
      match w.attempts[t]
      case Resolving(p, ctx) =>
        match answer {
          case NotFound => CheckAbsentKeeps(w, t, p, ctx);
          case Names(d) =>
            if d != p.digest { CheckRaisesKeeps(w, t, p, ctx, NonRetryable); }
            else { MoveKeeps(w, t, Installing(p, ctx)); }
          case ResolveRaised(kind) => CheckRaisesKeeps(w, t, p, ctx, kind);
        }
      case Installing(p, ctx) =>
        match pull {
          case PullRaised(kind) => CheckRaisesKeeps(w, t, p, ctx, kind);
          case Pulled =>
            if w.tag == Some(p.digest) {
              if p.digest in w.governed && p.digest !in w.signed { MoveKeeps(w, t, Signing(p, ctx)); }
              else { CheckConfirmsKeeps(w, t, p, ctx); }
            }
        }
      case Reverifying(p, ctx) =>
        match pull {
          case PullRaised(kind) => CheckRaisesKeeps(w, t, p, ctx, kind);
          case Pulled =>
            if w.tag == Some(p.digest) {
              if p.digest !in w.signed { CheckRaisesKeeps(w, t, p, ctx, NonRetryable); }
              else { CheckConfirmsKeeps(w, t, p, ctx); }
            }
        }
      case _ =>
    }
  }

  lemma WorkEndsKeep(w: World, t: Token)
    requires Inv(w)
    ensures Inv(DoProcessRaises(w, t))
    ensures Inv(DoProcessUnchanged(w, t))
  {
    if Works(w, t) {
      assert AttemptOk(w, t);
      MoveKeeps(w, t, FailReading);
      if WorkedThrough(w, t) { MoveKeeps(w, t, Finishing(Processed(None, w.attempts[t].reports))); }
    }
  }

  lemma PushStartIsRegistered(w: World, push: Push)
    requires JobOk(w) && RegistryOk(w) && LogOk(w) && Committed(w.log, push.digest)
    ensures JobOk(Started(w, push)) && RegistryOk(Started(w, push)) && LogOk(Started(w, push))
  {
    var e := PushStarted(push.who, push.digest);
    var w1 := w.(log := w.log + [e]);
    LogGrows(w.log, e);
    assert LogOk(w1);
    RegistryGrows(w, w1);
    CommittedGrows(w.log, w1.log, push.digest);
    hide LogOk, JobOk, Committed, PushesAreCommitted, FinishesAreJustified, AcquiresOnce;
    OneMorePush(w1, push);
  }

  lemma OneMorePush(w: World, push: Push)
    requires JobOk(w) && RegistryOk(w) && LogOk(w) && Committed(w.log, push.digest)
    ensures
      var w' := w.(outstanding := w.outstanding + {push});
      JobOk(w') && RegistryOk(w') && LogOk(w')
  {
  }

  /** Starting a push of a committed artifact. */
  lemma PushStartKeeps(w: World, t: Token, ctx: Context, d: Digest, pc: Pc)
    requires Inv(w) && t in w.attempts && Committed(w.log, d)
    requires w.lease == Some(t) ==> Knows(w, t, pc)
    requires Justified(Started(w, Push(t, ctx, d)), t, pc)
    ensures Inv(Goto(Started(w, Push(t, ctx, d)), t, pc))
  {
    var w' := Started(w, Push(t, ctx, d));
    PushStartIsRegistered(w, Push(t, ctx, d));
    assert LogOk(Goto(w', t, pc));
    hide Justified, Committed;
    ActorKeeps(w, Goto(w', t, pc), t, pc);
  }

  lemma CompletionStepsKeep(w: World, t: Token, raised: Option<Kind>)
    requires Inv(w)
    ensures Inv(DoSign(w, t, raised))
    ensures Inv(DoCompletionReturns(w, t, raised))
  {
    if t in w.attempts {
      assert AttemptOk(w, t);
      match w.attempts[t]
      case Signing(p, ctx) =>
        if raised.Some? {
          CheckRaisesKeeps(w, t, p, ctx, raised.value);
        } else {
          CommittedGrows(w.log, w.log + [PushStarted(t, p.digest)], p.digest);
          PushStartKeeps(w, t, ctx, p.digest, Completing(p, ctx));
        }
      case Completing(p, ctx) =>
        if raised.Some? {
          CheckRaisesKeeps(w, t, p, ctx, raised.value);
        } else {
          MoveKeeps(w, t, Reverifying(p, ctx));
        }
      case _ =>
    }
  }

  lemma ProgressKeeps(w: World, t: Token, ok: bool, fault: Fault)
    requires Inv(w)
    ensures Inv(DoProgress(w, t, ok, fault))
  {
    if Works(w, t) && !WorkedThrough(w, t) && w.hash.Some? {
      assert AttemptOk(w, t);
      var reports := w.attempts[t].reports;
      var h := w.hash.value.(items := w.hash.value.items[|reports| := ok]);
      if ReplyTo(w, t, fault) == Ok {
        WriteOpenKeeps(w, t, fault, h, Working(reports + [ok]));
      } else if w.lease == Some(t) {
        WriteOpenKeeps(w, t, fault, h, FailReading);
      } else {
        MoveKeeps(w, t, if fault.NoFault? then Releasing else FailReading);
      }
    }
  }

  /** The commit of a prepared artifact, before the push is started. */
  lemma CommitKeeps(w: World, t: Token, fault: Fault, p: Prepared, pc: Pc)
    requires Inv(w) && t in w.attempts && WellFormed(w) && w.hash.Some?
    requires w.lease == Some(t) ==> Marked(w, t) && Reported(w, p.reports)
    requires pc == Releasing || pc == FailReading || (pc == Working(p.reports) && |p.reports| == ItemsOf(w))
    ensures Inv(Goto(Write(w, t, fault, w.hash.value.(prepared := Some(p)), [PreparedBy(t, p)]), t, pc))
  {
    if Applies(w, t, fault) {
      var e := PreparedBy(t, p);
      var w' := Write(w, t, fault, w.hash.value.(prepared := Some(p)), [e]);
      LogGrows(w.log, e);
      RegistryGrows(w, w.(log := w.log + [e]));
      assert e in w'.log;
      assert Committed(w'.log, p.digest);
      ActorKeeps(w, Goto(w', t, pc), t, pc);
    } else {
      MoveKeeps(w, t, pc);
    }
  }

  /** A committed artifact may be pushed. */
  lemma CommittedMayBePushed(w: World, t: Token, p: Prepared)
    requires Inv(w) && At(w, t, Working(p.reports)) && |p.reports| == ItemsOf(w)
    requires PreparedBy(t, p) in w.log && (w.lease == Some(t) ==> Holds(w, Some(p)))
    ensures Inv(Goto(Started(w, Push(t, InRun, p.digest)), t, Pushing(p)))
  {
    assert AttemptOk(w, t);
    var e := PushStarted(t, p.digest);
    assert PreparedBy(t, p) in w.log + [e] && e in w.log + [e];
    PushStartKeeps(w, t, InRun, p.digest, Pushing(p));
  }

  lemma PrepareKeeps(w: World, t: Token, d: Digest, fault: Fault)
    requires Inv(w)
    ensures Inv(DoPrepare(w, t, d, fault))
  {
    if WorkedThrough(w, t) && w.hash.Some? {
      assert AttemptOk(w, t);
      var p := Prepared(d, w.attempts[t].reports);
      var written := Write(w, t, fault, w.hash.value.(prepared := Some(p)), [PreparedBy(t, p)]);
      match ReplyTo(w, t, fault)
      case NotOwner => CommitKeeps(w, t, fault, p, Releasing);
      case RedisError => CommitKeeps(w, t, fault, p, FailReading);
      case Ok =>
        CommitKeeps(w, t, fault, p, Working(p.reports));
        assert Goto(written, t, Working(p.reports)) == written;
        assert written.log == w.log + [PreparedBy(t, p)] && PreparedBy(t, p) in written.log;
        hide Inv;
        CommittedMayBePushed(written, t, p);
    }
  }

  lemma PushReplyKeeps(w: World, t: Token)
    requires Inv(w)
    ensures Inv(DoPushReturns(w, t))
    ensures Inv(DoPushRaises(w, t))
  {
    if t in w.attempts && w.attempts[t].Pushing? {
      assert AttemptOk(w, t);
      MoveKeeps(w, t, FailReading);
      if Push(t, InRun, w.attempts[t].p.digest) !in w.outstanding {
        MoveKeeps(w, t, DoPushReturns(w, t).attempts[t]);
      }
    }
  }

  lemma PushLandsKeeps(w: World, push: Push)
    requires Inv(w)
    ensures Inv(DoPushLands(w, push))
  {
    if push in w.outstanding {
      var e := Landed(push.digest);
      LogGrows(w.log, e);
      RegistryGrows(w, w.(log := w.log + [e]));
      CommittedGrows(w.log, w.log + [e], push.digest);
      EveryoneKeeps(w, DoPushLands(w, push));
    }
  }

  lemma SignaturesLandKeeps(w: World, d: Digest)
    requires Inv(w)
    ensures Inv(DoSignaturesLand(w, d))
  {
    if d in w.landed {
      EveryoneKeeps(w, DoSignaturesLand(w, d));
    }
  }

  /** A step of the registry alone. */
  lemma EveryoneKeeps(w: World, w': World)
    requires Inv(w)
    requires w'.attempts == w.attempts && w'.hash == w.hash && w'.lease == w.lease && w'.submitted == w.submitted
    requires w.log <= w'.log && PushesProceed(w, w') && JobOk(w') && RegistryOk(w') && LogOk(w')
    requires forall u :: Acquisition(u) in w'.log ==> Acquisition(u) in w.log
    ensures Inv(w')
  {
    forall u | u in w'.attempts
      ensures AttemptOk(w', u)
    {
      assert AttemptOk(w, u);
      JustifiedGrows(w, w', u, w.attempts[u]);
    }
  }

  lemma FinishKeeps(w: World, t: Token, fault: Fault)
    requires Inv(w)
    ensures Inv(DoFinish(w, t, fault))
  {
    if t in w.attempts && w.attempts[t].Finishing? {
      assert AttemptOk(w, t);
      WriteTerminalKeeps(w, t, fault, w.attempts[t].via, DoFinish(w, t, fault).attempts[t]);
    }
  }

  lemma FailReadKeeps(w: World, t: Token)
    requires Inv(w)
    ensures Inv(DoFailRead(w, t))
  {
    if At(w, t, FailReading) {
      assert AttemptOk(w, t);
      MoveKeeps(w, t, DoFailRead(w, t).attempts[t]);
    }
  }

  lemma FailFinishKeeps(w: World, t: Token, fault: Fault)
    requires Inv(w)
    ensures Inv(DoFailFinish(w, t, fault))
  {
    if t in w.attempts && w.attempts[t].FailFinishing? {
      assert AttemptOk(w, t);
      WriteTerminalKeeps(w, t, fault, Failure(w.attempts[t].checked), DoFailFinish(w, t, fault).attempts[t]);
    }
  }

  lemma RecoveredFinishKeeps(w: World, t: Token, fault: Fault)
    requires Inv(w)
    ensures Inv(DoRecoveredFinish(w, t, fault))
  {
    if t in w.attempts && w.attempts[t].RecoveredFinishing? {
      assert AttemptOk(w, t);
      WriteTerminalKeeps(w, t, fault, Recovered(w.attempts[t].p), DoRecoveredFinish(w, t, fault).attempts[t]);
    }
  }

  lemma AckKeeps(w: World, t: Token, fault: Fault)
    requires Inv(w)
    ensures Inv(DoAck(w, t, fault))
  {
    if At(w, t, Acking) {
      assert AttemptOk(w, t);
      if Applies(w, t, fault) {
        LogGrows(w.log, Acked(t));
        RegistryGrows(w, w.(log := w.log + [Acked(t)]));
        ActorKeeps(w, DoAck(w, t, fault), t, Releasing);
      } else {
        MoveKeeps(w, t, Releasing);
      }
    }
  }

  lemma LeaveKeeps(w: World, t: Token)
    requires Inv(w)
    ensures Inv(DoRelease(w, t))
    ensures Inv(DoCrash(w, t))
  {
    if t in w.attempts {
      assert AttemptOk(w, t);
      MoveKeeps(w, t, Ended);
      if At(w, t, Releasing) {
        ActorKeeps(w, DoRelease(w, t), t, Ended);
      }
    }
  }

  lemma OwnerStepKeeps(w: World, a: Action)
    requires Inv(w)
    requires a.MarkRunning? || a.Progress? || a.Prepare?
    ensures Inv(Step(w, a))
  {
    match a
    case MarkRunning(t, fault) => MarkRunningKeeps(w, t, fault);
    case Progress(t, ok, fault) => ProgressKeeps(w, t, ok, fault);
    case Prepare(t, d, fault) => PrepareKeeps(w, t, d, fault);
  }

  lemma FinishStepKeeps(w: World, a: Action)
    requires Inv(w)
    requires a.FinishMalformed? || a.Finish? || a.FailFinish? || a.RecoveredFinish?
    ensures Inv(Step(w, a))
  {
    match a
    case FinishMalformed(t, fault) => FinishMalformedKeeps(w, t, fault);
    case Finish(t, fault) => FinishKeeps(w, t, fault);
    case FailFinish(t, fault) => FailFinishKeeps(w, t, fault);
    case RecoveredFinish(t, fault) => RecoveredFinishKeeps(w, t, fault);
  }

  lemma CheckStepKeeps(w: World, a: Action)
    requires Inv(w)
    requires a.Resolve? || a.Install? || a.Sign? || a.CompletionReturns? || a.Reverify?
    ensures Inv(Step(w, a))
  {
    match a
    case Resolve(t, answer) => CheckStepsKeep(w, t, answer, Pulled);
    case Install(t, pull) => CheckStepsKeep(w, t, NotFound, pull);
    case Sign(t, raised) => CompletionStepsKeep(w, t, raised);
    case CompletionReturns(t, raised) => CompletionStepsKeep(w, t, raised);
    case Reverify(t, pull) => CheckStepsKeep(w, t, NotFound, pull);
  }

  lemma PlainStepKeeps(w: World, a: Action)
    requires Inv(w)
    requires a.ReadJob? || a.ProcessRaises? || a.ProcessUnchanged? || a.PushReturns? || a.PushRaises? || a.FailRead?
    ensures Inv(Step(w, a))
  {
    match a
    case ReadJob(t) => ReadJobKeeps(w, t);
    case ProcessRaises(t) => WorkEndsKeep(w, t);
    case ProcessUnchanged(t) => WorkEndsKeep(w, t);
    case PushReturns(t) => PushReplyKeeps(w, t);
    case PushRaises(t) => PushReplyKeeps(w, t);
    case FailRead(t) => FailReadKeeps(w, t);
  }

  lemma OuterStepKeeps(w: World, a: Action)
    requires Inv(w)
    requires a.Submit? || a.Deliver? || a.Acquire? || a.Expire? || a.Ack? || a.Release? || a.Crash?
    ensures Inv(Step(w, a))
  {
    match a
    case Submit(r) => SubmitKeeps(w, r);
    case Deliver(t) => DeliverKeeps(w, t);
    case Acquire(t) => AcquireKeeps(w, t);
    case Expire => ExpireKeeps(w);
    case Ack(t, fault) => AckKeeps(w, t, fault);
    case Release(t) => LeaveKeeps(w, t);
    case Crash(t) => LeaveKeeps(w, t);
  }

  lemma StepKeeps(w: World, a: Action)
    requires Inv(w)
    ensures Inv(Step(w, a))
  {
    if a.PushLands? {
      PushLandsKeeps(w, a.push);
    } else if a.SignaturesLand? {
      SignaturesLandKeeps(w, a.digest);
    } else if a.MarkRunning? || a.Progress? || a.Prepare? {
      OwnerStepKeeps(w, a);
    } else if a.FinishMalformed? || a.Finish? || a.FailFinish? || a.RecoveredFinish? {
      FinishStepKeeps(w, a);
    } else if a.Resolve? || a.Install? || a.Sign? || a.CompletionReturns? || a.Reverify? {
      CheckStepKeeps(w, a);
    } else if a.Submit? || a.Deliver? || a.Acquire? || a.Expire? || a.Ack? || a.Release? || a.Crash? {
      OuterStepKeeps(w, a);
    } else {
      PlainStepKeeps(w, a);
    }
  }

  lemma {:induction false} RunKeeps(w: World, actions: seq<Action>)
    requires Inv(w)
    ensures Inv(Run(w, actions))
    decreases |actions|
  {
    if actions != [] {
      StepKeeps(w, actions[0]);
      RunKeeps(Step(w, actions[0]), actions[1..]);
    }
  }
}
