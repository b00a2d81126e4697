/**
  The ingest worker protocol as a transition system: one job, any number of attempts at it, the lease, the stream
  entry, and the registry tag the job publishes to.

  Every step is atomic on the Redis side: one command, or one transaction that compares the lease first. Registry
  pushes sit outside any transaction: a push that was started lands at most once, at any later moment, even after its
  attempt has died, and only a push that has landed returns. A step whose guard is false leaves the world unchanged, so
  a run is any sequence of actions.
*/
module IngestProtocol {
  import opened Wrappers

  type Token = nat
  type Digest = nat

  datatype Status = Queued | Running | Completed | Partial | Failed {
    predicate Terminal() {
      Completed? || Partial? || Failed?
    }
  }

  /** The submitted payload: how many items it has, and whether the worker can parse it back. */
  datatype Request = Request(wellFormed: bool, items: nat)

  /** What became of each item that was processed, in order: whether it succeeded. */
  type Reports = seq<bool>

  /** The record written together with `prepared_digest`: the artifact, and the reports of its items. */
  datatype Prepared = Prepared(digest: Digest, reports: Reports)

  datatype Hash = Hash(
    status: Status,
    request: Option<Request>,
    prepared: Option<Prepared>,
    attempt: Option<Token>,
    items: map<nat, bool>)

  datatype Entry = NoEntry | Undelivered | Pending | Deleted {
    predicate Live() {
      Undelivered? || Pending?
    }
  }

  /** What a terminal state is based on. */
  datatype Via =
    | Processed(output: Option<Prepared>, reports: Reports)
    | Recovered(prepared: Prepared)
    | Failure(checked: Option<Prepared>)

  function StatusFor(reports: Reports): Status {
    if false in reports then Partial else Completed
  }

  function StatusOf(via: Via): Status {
    match via
    case Processed(_, reports) => StatusFor(reports)
    case Recovered(p) => StatusFor(p.reports)
    case Failure(_) => Failed
  }

  /** Where the recovery check was called from: the run itself, or its failure handler. */
  datatype Context = InRun | InFail

  datatype Pc =
    | HoldsDelivery
    | Acquired
    | FinishingMalformed
    | MarkingRunning(values: Hash)
    | Resolving(p: Prepared, ctx: Context)
    | Installing(p: Prepared, ctx: Context)
    | Signing(p: Prepared, ctx: Context)
    | Completing(p: Prepared, ctx: Context)
    | Reverifying(p: Prepared, ctx: Context)
    | Working(reports: Reports)
    | Pushing(p: Prepared)
    | Finishing(via: Via)
    | FailReading
    | FailFinishing(checked: Option<Prepared>)
    | RecoveredFinishing(p: Prepared)
    | Acking
    | Releasing
    | Ended
  {
    /** The failure handler, before it has decided on a terminal status. */
    predicate InFailureHandler() {
      match this
      case FailReading => true
      case FailFinishing(_) => true
      case Resolving(_, ctx) => ctx == InFail
      case Installing(_, ctx) => ctx == InFail
      case Signing(_, ctx) => ctx == InFail
      case Completing(_, ctx) => ctx == InFail
      case Reverifying(_, ctx) => ctx == InFail
      case _ => false
    }
  }

  /** One push: an attempt starts at most one from its run and at most one from its failure handler. */
  datatype Push = Push(who: Token, ctx: Context, digest: Digest)

  /** The history of a run: what was committed, started, observed and decided, in order. */
  datatype Event =
    | Submission(request: Request)
    | Acquisition(who: Token)
    | PreparedBy(who: Token, prepared: Prepared)
    | PushStarted(who: Token, digest: Digest)
    | Landed(digest: Digest)
    | FoundAbsent(who: Token, digest: Digest, ctx: Context)
    | Refused(who: Token, digest: Digest)
    | Verified(who: Token, digest: Digest, governed: bool, authorized: bool)
    | Finished(who: Token, via: Via)
    | Acked(who: Token)

  /**
    `tag` is what the job's output tag names now. `outstanding` holds the pushes that were started and have not taken
    effect, `landed` the digests whose push took effect at some moment, `signed` those whose signatures are complete in
    the registry, and `governed` those that carry a trust root.
  */
  datatype World = World(
    submitted: Option<Request>,
    hash: Option<Hash>,
    lease: Option<Token>,
    entry: Entry,
    tag: Option<Digest>,
    outstanding: set<Push>,
    landed: set<Digest>,
    signed: set<Digest>,
    governed: set<Digest>,
    attempts: map<Token, Pc>,
    log: seq<Event>)

  /** Whether a Redis call that raises had been applied. */
  datatype Fault = NoFault | RaisedBefore | RaisedAfter

  datatype Kind = Retryable | NonRetryable | Unexpected

  /** What the registry answers to a resolution, and to a pull. */
  datatype Answer = NotFound | Names(digest: Digest) | ResolveRaised(kind: Kind)
  datatype Pull = Pulled | PullRaised(kind: Kind)

  datatype Action =
    | Submit(request: Request)
    | Deliver(t: Token)
    | Acquire(t: Token)
    | Expire
    | ReadJob(t: Token)
    | FinishMalformed(t: Token, fault: Fault)
    | MarkRunning(t: Token, fault: Fault)
    | Resolve(t: Token, answer: Answer)
    | Install(t: Token, pull: Pull)
    | Sign(t: Token, raised: Option<Kind>)
    | CompletionReturns(t: Token, raised: Option<Kind>)
    | Reverify(t: Token, pull: Pull)
    | Progress(t: Token, ok: bool, fault: Fault)
    | ProcessRaises(t: Token)
    | ProcessUnchanged(t: Token)
    | Prepare(t: Token, digest: Digest, fault: Fault)
    | PushReturns(t: Token)
    | PushRaises(t: Token)
    | PushLands(push: Push)
    | SignaturesLand(digest: Digest)
    | Finish(t: Token, fault: Fault)
    | FailRead(t: Token)
    | FailFinish(t: Token, fault: Fault)
    | RecoveredFinish(t: Token, fault: Fault)
    | Ack(t: Token, fault: Fault)
    | Release(t: Token)
    | Crash(t: Token)

  // ---- Guarded transactions --------------------------------------------------

  datatype Reply = Ok | NotOwner | RedisError

  /** What `Lease.guarded` answers: the lease is compared and the commands are applied in one transaction. */
  function ReplyTo(w: World, t: Token, fault: Fault): Reply {
    if !fault.NoFault? then RedisError
    else if w.lease == Some(t) then Ok
    else NotOwner
  }

  predicate Applies(w: World, t: Token, fault: Fault) {
    w.lease == Some(t) && !fault.RaisedBefore?
  }

  /** The hash a guarded write leaves, together with the event it records. */
  function Write(w: World, t: Token, fault: Fault, hash: Hash, events: seq<Event>): World {
    if Applies(w, t, fault) then w.(hash := Some(hash), log := w.log + events) else w
  }

  function Terminate(h: Hash, status: Status): Hash {
    h.(status := status, request := None)
  }

  function WriteTerminal(w: World, t: Token, fault: Fault, via: Via): World {
    if w.hash.None? then w
    else Write(w, t, fault, Terminate(w.hash.value, StatusOf(via)), [Finished(t, via)])
  }

  function Goto(w: World, t: Token, pc: Pc): World {
    w.(attempts := w.attempts[t := pc])
  }

  predicate At(w: World, t: Token, pc: Pc) {
    t in w.attempts && w.attempts[t] == pc
  }

  // ---- The recovery check ----------------------------------------------------

  /** The check raised: in the run any exception goes to the failure handler, which checks again from there. */
  function CheckRaises(w: World, t: Token, p: Prepared, ctx: Context, kind: Kind): World {
    if ctx == InRun then Goto(w, t, FailReading)
    else if kind == NonRetryable then
      Goto(w.(log := w.log + [Refused(t, p.digest)]), t, FailFinishing(Some(p)))
    else Goto(w, t, Releasing)
  }

  function CheckAbsent(w: World, t: Token, p: Prepared, ctx: Context): World {
    var seen := w.(log := w.log + [FoundAbsent(t, p.digest, ctx)]);
    Goto(seen, t, if ctx == InRun then Working([]) else FailFinishing(Some(p)))
  }

  function CheckConfirms(w: World, t: Token, p: Prepared, ctx: Context): World {
    var seen := w.(log := w.log + [Verified(t, p.digest, p.digest in w.governed, p.digest in w.signed)]);
    Goto(seen, t, if ctx == InRun then Finishing(Recovered(p)) else RecoveredFinishing(p))
  }

  // ---- One function per operation --------------------------------------------

  function DoSubmit(w: World, r: Request): World {
    if w.submitted.Some? then w
    else w.(
      submitted := Some(r),
      hash := Some(Hash(Queued, Some(r), None, None, map[])),
      entry := Undelivered,
      log := w.log + [Submission(r)])
  }

  function DoDeliver(w: World, t: Token): World {
    if t in w.attempts || !w.entry.Live() then w
    else Goto(w.(entry := Pending), t, HoldsDelivery)
  }

  function DoAcquire(w: World, t: Token): World {
    if !At(w, t, HoldsDelivery) then w
    else if w.lease.Some? then Goto(w, t, Ended)
    else Goto(w.(lease := Some(t), log := w.log + [Acquisition(t)]), t, Acquired)
  }

  function DoReadJob(w: World, t: Token): World {
    if !At(w, t, Acquired) then w
    else if w.hash.None? || w.hash.value.status.Terminal() then Goto(w, t, Acking)
    else if w.hash.value.request.None? || !w.hash.value.request.value.wellFormed then Goto(w, t, FinishingMalformed)
    else Goto(w, t, MarkingRunning(w.hash.value))
  }

  /** A lost lease here is not caught where it is raised: the attempt unwinds to its release. */
  function DoFinishMalformed(w: World, t: Token, fault: Fault): World {
    if !At(w, t, FinishingMalformed) then w
    else
      Goto(WriteTerminal(w, t, fault, Failure(None)), t,
           if ReplyTo(w, t, fault) == Ok then Acking else Releasing)
  }

  function DoMarkRunning(w: World, t: Token, fault: Fault): World {
    if t !in w.attempts || !w.attempts[t].MarkingRunning? || w.hash.None? then w
    else
      var values := w.attempts[t].values;
      var written := Write(w, t, fault, w.hash.value.(status := Running, attempt := Some(t)), []);
      match ReplyTo(w, t, fault)
      case Ok =>
        Goto(written, t, if values.prepared.Some? then Resolving(values.prepared.value, InRun) else Working([]))
      case NotOwner => Goto(written, t, Releasing)
      case RedisError => Goto(written, t, FailReading)
  }

  function DoResolve(w: World, t: Token, answer: Answer): World {
    if t !in w.attempts || !w.attempts[t].Resolving? then w
    else
      var p, ctx := w.attempts[t].p, w.attempts[t].ctx;
      match answer
      case NotFound => if w.tag.Some? then w else CheckAbsent(w, t, p, ctx)
      case Names(d) =>
        if w.tag != Some(d) then w
        else if d != p.digest then CheckRaises(w, t, p, ctx, NonRetryable)
        else Goto(w, t, Installing(p, ctx))
      case ResolveRaised(kind) => CheckRaises(w, t, p, ctx, kind)
  }

  function DoInstall(w: World, t: Token, pull: Pull): World {
    if t !in w.attempts || !w.attempts[t].Installing? then w
    else
      var p, ctx := w.attempts[t].p, w.attempts[t].ctx;
      match pull
      case PullRaised(kind) => CheckRaises(w, t, p, ctx, kind)
      case Pulled =>
        if w.tag != Some(p.digest) then w
        else if p.digest in w.governed && p.digest !in w.signed then Goto(w, t, Signing(p, ctx))
        else CheckConfirms(w, t, p, ctx)
  }

  function Started(w: World, push: Push): World {
    w.(outstanding := w.outstanding + {push}, log := w.log + [PushStarted(push.who, push.digest)])
  }

  /** Sign with the requested keys, then start the push that carries the missing signatures. */
  function DoSign(w: World, t: Token, raised: Option<Kind>): World {
    if t !in w.attempts || !w.attempts[t].Signing? then w
    else
      var p, ctx := w.attempts[t].p, w.attempts[t].ctx;
      match raised
      case Some(kind) => CheckRaises(w, t, p, ctx, kind)
      case None =>
        Goto(Started(w, Push(t, ctx, p.digest)), t, Completing(p, ctx))
  }

  function DoCompletionReturns(w: World, t: Token, raised: Option<Kind>): World {
    if t !in w.attempts || !w.attempts[t].Completing? then w
    else
      var p, ctx := w.attempts[t].p, w.attempts[t].ctx;
      match raised
      case Some(kind) => CheckRaises(w, t, p, ctx, kind)
      case None => if Push(t, ctx, p.digest) in w.outstanding then w else Goto(w, t, Reverifying(p, ctx))
  }

  function DoReverify(w: World, t: Token, pull: Pull): World {
    if t !in w.attempts || !w.attempts[t].Reverifying? then w
    else
      var p, ctx := w.attempts[t].p, w.attempts[t].ctx;
      match pull
      case PullRaised(kind) => CheckRaises(w, t, p, ctx, kind)
      case Pulled =>
        if w.tag != Some(p.digest) then w
        else if p.digest !in w.signed then CheckRaises(w, t, p, ctx, NonRetryable)
        else CheckConfirms(w, t, p, ctx)
  }

  /** How many items the submitted request has. */
  function ItemsOf(w: World): nat {
    if w.submitted.Some? then w.submitted.value.items else 0
  }

  predicate Works(w: World, t: Token) {
    t in w.attempts && w.attempts[t].Working?
  }

  /** Every item has been processed. */
  predicate WorkedThrough(w: World, t: Token) {
    Works(w, t) && |w.attempts[t].reports| == ItemsOf(w)
  }

  /** The item loop or what surrounds it raised. */
  function DoProcessRaises(w: World, t: Token): World {
    if Works(w, t) then Goto(w, t, FailReading) else w
  }

  /** No item changed the brain: there is nothing to publish. */
  function DoProcessUnchanged(w: World, t: Token): World {
    if WorkedThrough(w, t) then Goto(w, t, Finishing(Processed(None, w.attempts[t].reports))) else w
  }

  /** The next item is done, and its report is written under its index. */
  function DoProgress(w: World, t: Token, ok: bool, fault: Fault): World {
    if !Works(w, t) || WorkedThrough(w, t) || w.hash.None? then w
    else
      var reports := w.attempts[t].reports;
      var written := Write(w, t, fault, w.hash.value.(items := w.hash.value.items[|reports| := ok]), []);
      match ReplyTo(w, t, fault)
      case Ok => Goto(written, t, Working(reports + [ok]))
      case NotOwner => Goto(written, t, Releasing)
      case RedisError => Goto(written, t, FailReading)
  }

  /** The artifact identity is committed first; only an `Ok` reply lets the push start. */
  function DoPrepare(w: World, t: Token, d: Digest, fault: Fault): World {
    if !WorkedThrough(w, t) || w.hash.None? then w
    else
      var p := Prepared(d, w.attempts[t].reports);
      var written := Write(w, t, fault, w.hash.value.(prepared := Some(p)), [PreparedBy(t, p)]);
      match ReplyTo(w, t, fault)
      case Ok =>
        Goto(Started(written, Push(t, InRun, p.digest)), t, Pushing(p))
      case NotOwner => Goto(written, t, Releasing)
      case RedisError => Goto(written, t, FailReading)
  }

  function DoPushReturns(w: World, t: Token): World {
    if t !in w.attempts || !w.attempts[t].Pushing? then w
    else
      var p := w.attempts[t].p;
      if Push(t, InRun, p.digest) in w.outstanding then w else Goto(w, t, Finishing(Processed(Some(p), p.reports)))
  }

  function DoPushRaises(w: World, t: Token): World {
    if t in w.attempts && w.attempts[t].Pushing? then Goto(w, t, FailReading) else w
  }

  /** An outstanding push takes effect, whatever became of the attempt that started it. */
  function DoPushLands(w: World, push: Push): World {
    if push !in w.outstanding then w
    else
      w.(tag := Some(push.digest),
         outstanding := w.outstanding - {push},
         landed := w.landed + {push.digest},
         log := w.log + [Landed(push.digest)])
  }

  /** Signature referrers follow the manifest they sign. */
  function DoSignaturesLand(w: World, d: Digest): World {
    if d in w.landed then w.(signed := w.signed + {d}) else w
  }

  function DoFinish(w: World, t: Token, fault: Fault): World {
    if t !in w.attempts || !w.attempts[t].Finishing? then w
    else
      var written := WriteTerminal(w, t, fault, w.attempts[t].via);
      match ReplyTo(w, t, fault)
      case Ok => Goto(written, t, Acking)
      case NotOwner => Goto(written, t, Releasing)
      case RedisError => Goto(written, t, FailReading)
  }

  function DoFailRead(w: World, t: Token): World {
    if !At(w, t, FailReading) then w
    else if w.hash.Some? && w.hash.value.prepared.Some? then Goto(w, t, Resolving(w.hash.value.prepared.value, InFail))
    else Goto(w, t, FailFinishing(None))
  }

  function DoFailFinish(w: World, t: Token, fault: Fault): World {
    if t !in w.attempts || !w.attempts[t].FailFinishing? then w
    else
      Goto(WriteTerminal(w, t, fault, Failure(w.attempts[t].checked)), t,
           if ReplyTo(w, t, fault) == Ok then Acking else Releasing)
  }

  function DoRecoveredFinish(w: World, t: Token, fault: Fault): World {
    if t !in w.attempts || !w.attempts[t].RecoveredFinishing? then w
    else
      Goto(WriteTerminal(w, t, fault, Recovered(w.attempts[t].p)), t,
           if ReplyTo(w, t, fault) == Ok then Acking else Releasing)
  }

  function DoAck(w: World, t: Token, fault: Fault): World {
    if !At(w, t, Acking) then w
    else if Applies(w, t, fault) then Goto(w.(entry := Deleted, log := w.log + [Acked(t)]), t, Releasing)
    else Goto(w, t, Releasing)
  }

  function DoRelease(w: World, t: Token): World {
    if !At(w, t, Releasing) then w
    else Goto(if w.lease == Some(t) then w.(lease := None) else w, t, Ended)
  }

  /** The process dies; its lease is left to expire. */
  function DoCrash(w: World, t: Token): World {
    if t in w.attempts then Goto(w, t, Ended) else w
  }

  function Step(w: World, a: Action): World {
    match a
    case Submit(r) => DoSubmit(w, r)
    case Deliver(t) => DoDeliver(w, t)
    case Acquire(t) => DoAcquire(w, t)
    case Expire => w.(lease := None)
    case ReadJob(t) => DoReadJob(w, t)
    case FinishMalformed(t, fault) => DoFinishMalformed(w, t, fault)
    case MarkRunning(t, fault) => DoMarkRunning(w, t, fault)
    case Resolve(t, answer) => DoResolve(w, t, answer)
    case Install(t, pull) => DoInstall(w, t, pull)
    case Sign(t, raised) => DoSign(w, t, raised)
    case CompletionReturns(t, raised) => DoCompletionReturns(w, t, raised)
    case Reverify(t, pull) => DoReverify(w, t, pull)
    case Progress(t, ok, fault) => DoProgress(w, t, ok, fault)
    case ProcessRaises(t) => DoProcessRaises(w, t)
    case ProcessUnchanged(t) => DoProcessUnchanged(w, t)
    case Prepare(t, d, fault) => DoPrepare(w, t, d, fault)
    case PushReturns(t) => DoPushReturns(w, t)
    case PushRaises(t) => DoPushRaises(w, t)
    case PushLands(push) => DoPushLands(w, push)
    case SignaturesLand(d) => DoSignaturesLand(w, d)
    case Finish(t, fault) => DoFinish(w, t, fault)
    case FailRead(t) => DoFailRead(w, t)
    case FailFinish(t, fault) => DoFailFinish(w, t, fault)
    case RecoveredFinish(t, fault) => DoRecoveredFinish(w, t, fault)
    case Ack(t, fault) => DoAck(w, t, fault)
    case Release(t) => DoRelease(w, t)
    case Crash(t) => DoCrash(w, t)
  }

  function Run(w: World, actions: seq<Action>): World
    decreases |actions|
  {
    if actions == [] then w else Run(Step(w, actions[0]), actions[1..])
  }

  function Initial(governed: set<Digest>): World {
    World(None, None, None, NoEntry, None, {}, {}, {}, governed, map[], [])
  }
}
