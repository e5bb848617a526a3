/** What a worker decides, and that what it decides is what the queue then holds. */
module WorkerAnswers {
  import opened Basics
  import opened JobModel
  import opened JobAnswers
  import opened WorkerModel

  // ------------------------------------------------------------- decisions

  /** The failure may be retried: a timeout, an interruption, or a fault that
      says so. */
  predicate MayRetry(w: Worker)
    requires w.exec.Ended? && w.exec.outcome.Raised?
  {
    w.ctl.timedOut || w.exec.outcome.failure == Interrupted || (w.exec.outcome.failure.Fault? && w.exec.outcome.failure.retryable)
  }

  predicate CancelSeen(w: Worker) { w.ctl.cancel || w.claim.job.state == JobState.Cancelling }

  /** The payload a worker commits keeps everything of the claimed job but its
      outcome. */
  predicate OutcomeOf(job: Job, claimed: Job, now: Time) {
    job == claimed.(state := job.state, result := job.result, error := job.error, updatedAt := now,
                    availableAt := job.availableAt, finishedAt := job.finishedAt)
  }

  /** A shutdown without result and without cancellation commits nothing.
      Otherwise a host or trace result succeeds, cancelled or not; a cancelled job
      is given up; a Guard result succeeds; and a failure is retried later if and
      only if it may be and the claim's attempt is below the maximum, and is final
      now if not. */
  lemma DecisionAnswer(w: Worker, now: Time, delay: nat)
    requires w.exec.Ended? && w.latest.None? && w.exec.outcome != Raised(NeedsReconciliation)
    ensures var d := Decide(w, now, delay);
            var o, guard := w.exec.outcome, w.claim.job.capability == Guard;
            if w.ctl.shuttingDown && !w.ctl.cancel && o.Raised? then d == w.(pc := Finished)
            else
              && d.latest.Some? && d == w.(pc := Committing, latest := d.latest) && OutcomeOf(d.latest.value, w.claim.job, now)
              && var j := d.latest.value;
              if o.Produced? && (!guard || !CancelSeen(w)) then
                && j.state == Succeeded && j.result == Some(o.result) && j.error == None
                && j.finishedAt == Some(now) && j.availableAt == None
              else if CancelSeen(w) then
                && j.state == Cancelled && j.error == Some(CancelledByOperator) && j.result == w.claim.job.result
                && j.finishedAt == Some(now) && j.availableAt == None
              else
                && j.result == None
                && j.error == Some(if w.ctl.timedOut then TimedOut
                                   else if o.failure.Fault? then ExecutionError(o.failure.code) else ExecutionError(0))
                && if MayRetry(w) && w.claim.job.attempt < w.claim.job.maxAttempts
                   then j.state == Retrying && j.availableAt.Some? && j.availableAt.value == now + delay >= now && j.finishedAt == None
                   else j.state == Failed && j.availableAt == None && j.finishedAt == Some(now)
  {}

  /** After a completion that was refused, a renewal that still succeeds on a
      cancelling job leads to the cancellation, once a Guard's recorded side
      effect is undone; anything else ends the worker. */
  lemma RaceAnswer(w: Worker, now: Time, delay: nat)
    requires w.pc.RaceRenew? && w.reply.Some?
    ensures var v := Resume(w, now, delay);
            if !w.reply.value.RenewOk? || w.reply.value.claim.job.state != JobState.Cancelling then v.pc == Finished && v.latest == w.latest
            else if w.ctl.committed && !w.ctl.compensated then v.pc == RaceCleaning && v.latest == w.latest
            else
              && v.pc == RaceCommitting && v.latest.Some? && OutcomeOf(v.latest.value, w.reply.value.claim.job, now)
              && v.latest.value.state == Cancelled && v.latest.value.result == None && v.latest.value.error == Some(CancelledByOperator)
              && v.latest.value.finishedAt == Some(now) && v.latest.value.availableAt == None
  {}

  /** Which reply leads where on the normal path: a lost or broken renewal ends
      the worker, a granted one leads to the decision, or first to cleaning up
      when a cancelled Guard's side effect is not undone. */
  lemma FinalRenewAnswer(w: Worker, now: Time, delay: nat)
    requires w.pc.FinalRenew? && w.reply.Some? && w.exec.Ended?
    ensures var v := Resume(w, now, delay);
            if !w.reply.value.RenewOk? then v == w.(reply := None, pc := Finished)
            else
              var claim := w.reply.value.claim;
              var cancel := w.ctl.cancel || claim.job.state == JobState.Cancelling;
              var u := w.(reply := None, claim := claim, ctl := w.ctl.(cancel := cancel));
              v == if cancel && w.ctl.committed && !w.ctl.compensated then u.(pc := Cleaning) else Decide(u, now, delay)
  {}

  /** A heartbeat takes over the renewed claim, notices a cancellation in it, and
      gives the lease up when it is refused, or when the store fails after the
      lease's known end. */
  lemma HeartbeatAnswer(w: Worker, now: Time, delay: nat)
    requires w.pc.Heartbeating? && w.reply.Some?
    ensures var v, r := Resume(w, now, delay), w.reply.value;
            var claim := if r.RenewOk? then r.claim else w.claim;
            v == w.(reply := None, claim := claim,
                    ctl := w.ctl.(cancel := w.ctl.cancel || claim.job.state == JobState.Cancelling,
                                  leaseLost := w.ctl.leaseLost || r.RenewLost? || (!r.RenewOk? && w.claim.expiresAt <= now)))
  {}

  // ------------------------------------------------------------- executions

  /** The job's head shows no cancellation. */
  predicate Uncancelled(db: Db, w: Worker) {
    w.issued.job.id in db.heads ==>
      db.heads[w.issued.job.id].job.state != JobState.Cancelling && db.heads[w.issued.job.id].job.state != Cancelled
  }

  predicate NewlyClaimed(w: Worker) {
    w == Fresh(w.issued, w.identityService) && w.issued.job.state == Running
  }

  /** An undisturbed host or trace execution collects once, spools, and ends with
      what the Analyzer acknowledged; one that finds its artifact spooled forwards
      it without collecting. */
  lemma HostExecution(db: Db, w: Worker, ack: ScanResult, fault: Failure, stored: bool)
    requires NewlyClaimed(w) && Uncancelled(db, w) && w.issued.job.capability != Guard
    requires stored || w.issued.job.attempt <= w.issued.job.maxAttempts
    ensures var a := Execute(db, w, Loaded(if stored then EnvelopeArtifact else Nothing));
            && a.exec == Refreshing
            && var b := Execute(db, a, Refreshed);
            && b.exec == (if stored then RefreshingAgain else FindingTarget)
            && (!stored ==>
                  && Execute(db, b, Supported(true, true)) == b.(exec := Collecting, collections := 1)
                  && Execute(db, b.(exec := Collecting, collections := 1), Collected(true, false, fault)).exec == Saving
                  && Execute(db, b.(exec := Saving, collections := 1), Saved(true, fault)).exec == RefreshingAgain)
            && Execute(db, b.(exec := RefreshingAgain), Refreshed).exec == Forwarding
            && Execute(db, b.(exec := Forwarding), Forwarded(Some(ack), fault)).exec == Ended(Produced(ack))
            && Execute(db, b.(exec := Forwarding), Forwarded(None, fault)).exec == Ended(Raised(fault))
  {}

  /** An undisturbed Guard execution reconciles its earlier attempts, stages,
      deploys once, proves the deployment, spools and ends with its result. */
  lemma GuardExecution(db: Db, w: Worker, fault: Failure)
    requires NewlyClaimed(w) && Uncancelled(db, w) && w.issued.job.capability == Guard && w.identityService
    requires w.issued.job.attempt <= w.issued.job.maxAttempts
    ensures var a := Execute(db, Execute(db, w, Loaded(Nothing)), Refreshed);
            && a.exec == FindingTarget
            && Execute(db, a, Supported(true, true)).exec == ReconcilingEarlier
            && Execute(db, a.(exec := ReconcilingEarlier), Proved(ProofNothing)).exec == Staging
            && Execute(db, a.(exec := Staging), Staged(true)) == a.(exec := Collecting, collections := 1)
            && Execute(db, a.(exec := Collecting), Collected(true, false, fault)).exec == ProvingDeployment
            && var p := Execute(db, a.(exec := ProvingDeployment), Proved(ProofFound(false)));
            && p.exec == Saving && p.ctl.committed && !p.ctl.cleanupPending
            && Execute(db, p, Saved(true, fault)).exec == RefreshingAgain
            && var e := Execute(db, p.(exec := RefreshingAgain), Refreshed).exec;
            && e.Ended? && e.outcome.Produced? && e.outcome.result.kind == Guard && e.outcome.result.derived == None
  {}

  /** Failures end the execution with their own fault, or ask for reconciliation
      when a deployment may have happened unproven. */
  lemma FailedExecution(db: Db, w: Worker, fault: Failure)
    requires !w.ctl.Interrupted()
    ensures Execute(db, w.(exec := Collecting), Collected(false, false, fault)).exec == Ended(Raised(fault))
    ensures Execute(db, w.(exec := Collecting), Collected(false, true, fault)).exec == Ended(Raised(NeedsReconciliation))
    ensures Execute(db, w.(exec := ProvingDeployment), Proved(ProofNothing)).exec == Ended(Raised(NeedsReconciliation))
    ensures Execute(db, w.(exec := ProvingDeployment), Proved(ProofUnresolved)).exec == Ended(Raised(NeedsReconciliation))
    ensures Execute(db, w.(exec := ReconcilingEarlier), Proved(ProofUnresolved)).exec == Ended(Raised(NeedsReconciliation))
    ensures Execute(db, w.(exec := ReconcilingEarlier), Proved(ProofRaises)).exec == Ended(Raised(NeedsReconciliation))
    ensures !w.issued.job.capability.Guard? ==>
              Execute(db, w.(exec := Saving), Saved(false, fault)).exec == Ended(Raised(fault))
    ensures Execute(db, w.(exec := Compensating(fault)), Compensated(true)) ==
            w.(exec := Ended(Raised(fault)), ctl := w.ctl.(cleanupPending := false, compensated := true))
    ensures Execute(db, w.(exec := Compensating(fault)), Compensated(false)).exec == Ended(Raised(NeedsReconciliation))
    ensures exists e :: Execute(db, w.(exec := FindingTarget), Supported(false, true)).exec == Ended(Raised(Fault(false, e)))
    ensures exists e :: Execute(db, w.(exec := Staging), Staged(false)).exec == Ended(Raised(Fault(true, e)))
  {}

  /** The head re-read shows a cancellation, or one was noticed before. */
  predicate CancelShows(db: Db, w: Worker) {
    || w.ctl.cancel
    || (w.issued.job.id in db.heads
        && (db.heads[w.issued.job.id].job.state == JobState.Cancelling || db.heads[w.issued.job.id].job.state == Cancelled))
  }

  /** A cancellation noticed before the work stops a host or trace execution, and
      sends a Guard to find out what it deployed. */
  lemma CancelledBeforehand(db: Db, w: Worker)
    requires w.exec.Refreshing? && CancelShows(db, w)
    ensures Execute(db, w, Refreshed) ==
            w.(ctl := w.ctl.(cancel := true),
               exec := if w.issued.job.capability == Guard then FindingGuardTarget else Ended(Raised(Interrupted)))
    ensures var u := w.(exec := FindingGuardTarget);
            && Execute(db, u, Target(true)) == u.(exec := ReconcilingStored)
            && Execute(db, u, Target(false)).exec == Ended(Raised(NeedsReconciliation))
  {}

  /** A proven deployment is undone, none is nothing to undo, and an unproven one,
      or a stored result that nothing backs, is left for reconciliation. */
  lemma CancelledGuard(db: Db, w: Worker, revoked: bool)
    requires w.exec.ReconcilingStored? && w.ctl.cancel && !w.ctl.committed
    ensures Execute(db, w, Proved(ProofFound(revoked))) ==
            w.(exec := Compensating(Interrupted), ctl := w.ctl.(committed := true, cleanupPending := revoked))
    ensures Execute(db, w, Proved(ProofNothing)).exec ==
            Ended(Raised(if w.stored == GuardArtifact then NeedsReconciliation else Interrupted))
    ensures Execute(db, w, Proved(ProofUnresolved)).exec == Ended(Raised(NeedsReconciliation))
    ensures Execute(db, w, Proved(ProofRaises)).exec == Ended(Raised(NeedsReconciliation))
  {}

  /** A cancellation noticed with the artifact in hand, or before the hand-off:
      a Guard's recorded deployment is undone, and other work just stops.  A Guard
      that only timed out or is shutting down still completes. */
  lemma CancelledAfterwards(db: Db, w: Worker)
    requires w.exec.RefreshingAgain?
    ensures CancelShows(db, w) ==>
              Execute(db, w, Refreshed).exec ==
              if w.ctl.committed then Compensating(Interrupted) else Ended(Raised(Interrupted))
    ensures !CancelShows(db, w) && w.issued.job.capability == Guard && !w.ctl.leaseLost ==>
              Execute(db, w, Refreshed).exec == Ended(Produced(GuardResult(w.issued.job.id)))
    ensures !CancelShows(db, w) && w.issued.job.capability != Guard && (w.ctl.timedOut || w.ctl.shuttingDown || w.ctl.leaseLost) ==>
              Execute(db, w, Refreshed).exec == Ended(Raised(Interrupted))
  {}

  /** Past its attempts a claim only reconciles: nothing is collected again. */
  lemma ReconciliationOnly(db: Db, w: Worker)
    requires NewlyClaimed(w) && Uncancelled(db, w) && w.issued.job.attempt > w.issued.job.maxAttempts
    ensures var v := Execute(db, w.(exec := Refreshing), Refreshed);
            && (w.issued.job.capability != Guard ==> exists e :: v.exec == Ended(Raised(Fault(false, e))))
            && (w.issued.job.capability == Guard && !w.identityService ==>
                  exists e :: Execute(db, v, Supported(true, true)).exec == Ended(Raised(Fault(false, e))))
            && (w.issued.job.capability == Guard && w.identityService ==>
                  var u := v.(exec := ReconcilingEarlier);
                  && Execute(db, v, Supported(true, true)) == u
                  && (exists e :: Execute(db, u, Proved(ProofNothing)).exec == Ended(Raised(Fault(false, e))))
                  && Execute(db, u, Proved(ProofFound(false))).exec == Saving
                  && (exists e :: Execute(db, u, Proved(ProofFound(true))).exec == Compensating(Fault(false, e))))
  {}

  /** A Guard whose result cannot be spooled on its last attempt is undone; on an
      earlier one the fault stands. */
  lemma UnsavedGuard(db: Db, w: Worker, fault: Failure)
    requires w.exec.Saving? && w.issued.job.capability == Guard && w.ctl.committed && !w.ctl.leaseLost
    ensures Execute(db, w, Saved(false, fault)).exec ==
            if w.issued.job.attempt >= w.issued.job.maxAttempts then Compensating(fault) else Ended(Raised(fault))
  {}

  /** When the execution is over, a worker without its lease or with a deployment
      to reconcile stops; otherwise it renews once more.  When the clean-up is
      over, it goes on only if that succeeded under the lease. */
  lemma ReturnAnswer(db: Db, w: Worker, ok: bool, now: Time, delay: nat)
    requires w.exec.Ended?
    ensures Next(db, w.(pc := Heartbeating, reply := None), ExecutionReturns).pc ==
            if w.ctl.leaseLost || w.exec.outcome == Raised(NeedsReconciliation) then Finished else FinalRenew
    ensures w.issued.job.capability == Guard ==>
              var v := w.(pc := Cleaning, reply := None);
              AfterCleanup(v, ok, now, delay) ==
              if ok && !w.ctl.leaseLost then Decide(v.(ctl := w.ctl.(cleanupPending := false, compensated := true)), now, delay)
              else if ok then v.(pc := Finished, ctl := w.ctl.(cleanupPending := false, compensated := true))
              else v.(pc := Finished)
  {}

  // ------------------------------------------------------------ end to end

  /** A worker whose execution has ended and whose claim owns the lease commits its
      decision undisturbed: the head then is the decided job. */
  lemma DecisionIsStored(db: Db, w: Worker, now: Time, delay: nat, ttl: int)
    requires w.pc.Heartbeating? && w.reply.None? && w.latest.None? && w.exec.Ended? && w.exec.outcome != Raised(NeedsReconciliation)
    requires !w.ctl.leaseLost && !w.ctl.shuttingDown && !w.ctl.cancel && !w.ctl.committed && ttl > 0
    requires OwnsLease(db, w.claim, now) && db.heads[w.claim.job.id].state == Running
    requires db.heads[w.claim.job.id].job.id == w.claim.job.id && db.heads[w.claim.job.id].job.state == Running
    ensures var a := Next(db, w, ExecutionReturns);
            var b := Next(db, a, CallRenew(now, ttl, false));
            var db1 := Apply(db, OpOf(a, CallRenew(now, ttl, false)));
            var c := Next(db1, b, Resumes(now, delay));
            var db2 := Apply(db1, OpOf(c, CallComplete(now, false)));
            && c.latest.Some? && c == Decide(c.(pc := FinalRenew, latest := None), now, delay)
            && c.claim.job == db.heads[w.claim.job.id].job && c.exec == w.exec
            && w.claim.job.id in db2.heads && StoredAs(c.latest.value, db2.heads[w.claim.job.id].job)
  {
    var a := Next(db, w, ExecutionReturns);
    RenewalIsStored(db, OpOf(a, CallRenew(now, ttl, false)));
    var b := Next(db, a, CallRenew(now, ttl, false));
    var db1 := Apply(db, OpOf(a, CallRenew(now, ttl, false)));
    FinalRenewAnswer(b, now, delay);
    var c := Next(db1, b, Resumes(now, delay));
    var u := c.(pc := FinalRenew, latest := None);
    assert u == b.(reply := None, claim := b.reply.value.claim);
    DecisionAnswer(u, now, delay);
    CompletionIsStored(db1, OpOf(c, CallComplete(now, false)));
  }
}
