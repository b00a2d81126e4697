/** The items of a job: what its record shows of them, and what its status says about them. */
module IngestItems {
  import opened Wrappers
  import opened IngestProtocol
  import opened IngestSafety
  import opened IngestTheorems

  // ---- Running ----------------------------------------------------------------------------------

  /** The attempt has marked the job as its own and has neither finished nor failed. */
  predicate IsRunning(pc: Pc) {
    match pc
    case Working(_) => true
    case Pushing(_) => true
    case Finishing(_) => true
    case Resolving(_, ctx) => ctx == InRun
    case Installing(_, ctx) => ctx == InRun
    case Signing(_, ctx) => ctx == InRun
    case Completing(_, ctx) => ctx == InRun
    case Reverifying(_, ctx) => ctx == InRun
    case _ => false
  }

  /** In every reachable world, while the owner of the lease runs the job, the record says so and names it. */
  lemma RunningNamesItsOwner(w: World, t: Token)
    requires Reachable(w) && w.lease == Some(t) && t in w.attempts && IsRunning(w.attempts[t])
    ensures w.hash.Some? && w.hash.value.status == Running && w.hash.value.attempt == Some(t)
  {
    ReachableOk(w);
    assert AttemptOk(w, t);
  }

  // ---- Working through the items ------------------------------------------------------------

  function ProgressOf(t: Token, reports: Reports): seq<Action> {
    if reports == [] then [] else [Progress(t, reports[0], NoFault)] + ProgressOf(t, reports[1..])
  }

  /** An answered report is what the record shows of the item, and of no other. */
  lemma ProgressStep(w: World, t: Token, ok: bool)
    requires w.hash.Some? && w.lease == Some(t) && Works(w, t) && !WorkedThrough(w, t)
    ensures
      var n := |w.attempts[t].reports|;
      Step(w, Progress(t, ok, NoFault))
        == Goto(w.(hash := Some(w.hash.value.(items := w.hash.value.items[n := ok]))), t,
                Working(w.attempts[t].reports + [ok]))
  {
  }

  /** The record shows the reports under their indices from `n` on, and otherwise what it showed. */
  ghost predicate ShowsFrom(items: map<nat, bool>, n: nat, reports: Reports, items': map<nat, bool>) {
    && (forall i: nat :: n <= i < n + |reports| ==> i in items' && items'[i] == reports[i - n])
    && (forall i: nat :: i < n || i >= n + |reports| ==>
          (i in items' <==> i in items) && (i in items && i in items' ==> items'[i] == items[i]))
  }

  lemma ShowsOneMore(items: map<nat, bool>, n: nat, reports: Reports, items': map<nat, bool>)
    requires reports != [] && ShowsFrom(items[n := reports[0]], n + 1, reports[1..], items')
    ensures ShowsFrom(items, n, reports, items')
  {
    var marked := items[n := reports[0]];
    assert n in marked && n in items' && items'[n] == marked[n];
    forall i: nat | n <= i < n + |reports|
      ensures i in items' && items'[i] == reports[i - n]
    {
      if i > n { assert reports[i - n] == reports[1..][i - (n + 1)]; }
    }
  }

  /**
    The owner that works through its items, every write answered, leaves exactly their reports in the record, each under
    its index, and nothing else changes.
  */
  lemma {:induction false} WorkLeavesItsReports(w: World, t: Token, done: Reports, reports: Reports)
    requires w.hash.Some? && w.lease == Some(t) && At(w, t, Working(done)) && |done + reports| <= ItemsOf(w)
    ensures
      var w' := Run(w, ProgressOf(t, reports));
      && w'.hash.Some? && ShowsFrom(w.hash.value.items, |done|, reports, w'.hash.value.items)
      && w' == Goto(w.(hash := Some(w.hash.value.(items := w'.hash.value.items))), t, Working(done + reports))
    decreases |reports|
  {
    if reports == [] {
      assert done + reports == done;
      assert w.attempts[t := Working(done)] == w.attempts;
    } else {
      hide Step;
      ProgressStep(w, t, reports[0]);
      var a, rest := Progress(t, reports[0], NoFault), ProgressOf(t, reports[1..]);
      assert ([a] + rest)[1..] == rest;
      var w1 := Step(w, a);
      assert done + [reports[0]] + reports[1..] == done + reports;
      WorkLeavesItsReports(w1, t, done + [reports[0]], reports[1..]);
      var w' := Run(w1, rest);
      ShowsOneMore(w.hash.value.items, |done|, reports, w'.hash.value.items);
    }
  }

  // ---- What an artifact was committed with -----------------------------------------------------

  /** Only a commit puts an artifact into the record, and the record then shows the reports it was committed with. */
  lemma CommitShowsItsReports(w: World, a: Action, p: Prepared)
    requires Inv(w) && Holds(Step(w, a), Some(p)) && !Holds(w, Some(p))
    ensures Reported(Step(w, a), p.reports) && |p.reports| == ItemsOf(Step(w, a))
  {
    if a.Prepare? {
      if w.lease == Some(a.t) && a.t in w.attempts { assert AttemptOk(w, a.t); }
    } else {
      hide Reported;
      OnlyCommitsChangeTheArtifact(w, a);
    }
  }

  lemma OnlyCommitsChangeTheArtifact(w: World, a: Action)
    requires !a.Prepare? && Step(w, a).hash.Some? && (w.hash.Some? ==> w.submitted.Some?)
    ensures w.hash.Some? ==> Step(w, a).hash.value.prepared == w.hash.value.prepared
    ensures w.hash.None? ==> Step(w, a).hash.value.prepared == None
  {
    hide DoPrepare, DoResolve, DoInstall, DoSign, DoCompletionReturns, DoReverify;
    if Checks(a) {
      ChecksWriteNothing(w, a);
    } else if a.Submit? {
      hide DoFinish, DoFailFinish, DoRecoveredFinish, DoFinishMalformed, DoProgress, DoMarkRunning;
    }
  }

  lemma ChecksWriteNothing(w: World, a: Action)
    requires Checks(a)
    ensures Step(w, a).hash == w.hash
  {
  }

  /** At step `c` of the run the artifact was committed, and the record then showed its reports. */
  ghost predicate CommittedAt(governed: set<Digest>, actions: seq<Action>, c: nat, p: Prepared) {
    && c < |actions|
    && var u := Run(Initial(governed), actions[..c + 1]);
       Holds(u, Some(p)) && Reported(u, p.reports) && |p.reports| == ItemsOf(u)
  }

  lemma {:induction false} ArtifactWasCommitted(governed: set<Digest>, actions: seq<Action>, p: Prepared)
    requires Holds(Run(Initial(governed), actions), Some(p))
    ensures exists c: nat :: CommittedAt(governed, actions, c, p)
    decreases |actions|
  {
    hide Step, Inv, Reported, ItemsOf;
    var w0 := Initial(governed);
    if actions != [] {
      var n := |actions| - 1;
      var u := Run(w0, actions[..n]);
      assert actions == actions[..n] + [actions[n]] && actions[..n + 1] == actions;
      RunSplits(w0, actions[..n], [actions[n]]);
      RunOfOne(u, actions[n]);
      InitialOk(governed);
      RunKeeps(w0, actions[..n]);
      if Holds(u, Some(p)) {
        ArtifactWasCommitted(governed, actions[..n], p);
        var c: nat :| CommittedAt(governed, actions[..n], c, p);
        assert actions[..n][..c + 1] == actions[..c + 1];
        assert CommittedAt(governed, actions, c, p);
      } else {
        CommitShowsItsReports(u, actions[n], p);
        assert CommittedAt(governed, actions, n, p);
      }
    }
  }

  // ---- What a status says about the items ---------------------------------------------------------

  /** Every item of the job is shown as a success. */
  predicate AllSucceeded(w: World) {
    w.hash.Some? && forall i :: 0 <= i < ItemsOf(w) ==> i in w.hash.value.items && w.hash.value.items[i]
  }

  /** The two records show the same of every item. */
  predicate ShowAlike(u: World, w: World, n: nat) {
    && u.hash.Some? && w.hash.Some?
    && forall i :: 0 <= i < n ==>
         i in u.hash.value.items && i in w.hash.value.items && u.hash.value.items[i] == w.hash.value.items[i]
  }

  lemma StatusOfReports(w: World, reports: Reports)
    requires Reported(w, reports) && |reports| == ItemsOf(w)
    ensures StatusFor(reports) == Completed <==> AllSucceeded(w)
    ensures StatusFor(reports) == Completed || StatusFor(reports) == Partial
  {
    if false in reports {
      var i :| 0 <= i < |reports| && reports[i] == false;
      assert i in w.hash.value.items && !w.hash.value.items[i];
    }
    forall i | 0 <= i < |reports|
      ensures reports[i] in reports
    {
    }
  }

  /** An artifact is recovered with the status of the reports it was committed with. */
  lemma RecoveredStatus(u: World, w: World, p: Prepared)
    requires Reported(u, p.reports) && |p.reports| == ItemsOf(u) == ItemsOf(w) && w.hash.Some?
    ensures StatusFor(p.reports) == Completed ==> (AllSucceeded(w) <==> ShowAlike(u, w, ItemsOf(w)))
  {
    StatusOfReports(u, p.reports);
  }

  lemma SubmissionStands(w: World, a: Action)
    requires w.submitted.Some?
    ensures Step(w, a).submitted == w.submitted
  {
    hide StatusFor, StatusOf, Applies, Works, WorkedThrough;
  }

  lemma {:induction false} SubmissionStays(w: World, actions: seq<Action>)
    requires w.submitted.Some?
    ensures Run(w, actions).submitted == w.submitted
    decreases |actions|
  {
    if actions != [] {
      SubmissionStands(w, actions[0]);
      hide Step;
      SubmissionStays(Step(w, actions[0]), actions[1..]);
    }
  }
}
