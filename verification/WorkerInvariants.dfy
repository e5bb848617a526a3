/** What one execution keeps true about itself and about its lease. */
module WorkerInvariants {
  import opened Basics
  import opened JobModel
  import opened JobMoves
  import opened JobInvariants
  import opened JobRuns
  import opened JobTheorems
  import opened WorkerModel

  predicate SameCapability(a: Claim, b: Claim) {
    a.job.id == b.job.id && a.token == b.token && a.epoch == b.epoch && a.owner == b.owner && SameWork(a.job, b.job)
  }

  predicate GuardPc(x: ExecPc) {
    x.FindingGuardTarget? || x.ReconcilingStored? || x.ReconcilingEarlier? || x.Staging? || x.ProvingDeployment?
  }

  /** Waiting for something that precedes the one remote start. */
  predicate BeforeStart(x: ExecPc) {
    || x.Loading? || x.Refreshing? || x.FindingGuardTarget? || x.ReconcilingStored?
    || x.FindingTarget? || x.ReconcilingEarlier? || x.Staging?
  }

  predicate ExecutionOk(w: Worker) {
    var guard := w.issued.job.capability.Guard?;
    var inBudget := w.issued.job.attempt <= w.issued.job.maxAttempts;
    && w.collections <= 1
    && (w.collections > 0 ==> !w.issued.job.state.Cancelling? && inBudget)
    && (w.issued.job.state.Cancelling? ==> w.ctl.cancel)
    && (BeforeStart(w.exec) ==> w.collections == 0)
    && (w.exec.FindingTarget? || w.exec.ReconcilingEarlier? || w.exec.Staging? ==> !w.issued.job.state.Cancelling?)
    && (w.exec.FindingTarget? && !guard ==> inBudget)
    && (w.exec.Staging? ==> inBudget)
    && (GuardPc(w.exec) ==> guard)
    && (w.exec.Forwarding? ==> !guard)
    && (w.ctl.committed ==> guard)
    && (w.stored == GuardArtifact ==> guard)
  }

  /** The execution task touches neither the lease nor the commit. */
  predicate SameCommitSide(v: Worker, w: Worker) {
    && v.issued == w.issued && v.claim == w.claim && v.pc == w.pc && v.reply == w.reply
    && v.latest == w.latest && v.commit == w.commit
  }

  /** Re-reading the head, before the execution and before the hand-off. */
  lemma RefreshedOk(db: Db, w: Worker, a: Answer)
    requires ExecutionOk(w) && Fits(w, a) && !a.Breaks? && (w.exec.Refreshing? || w.exec.RefreshingAgain?)
    ensures ExecutionOk(Execute(db, w, a)) && SameCommitSide(w, Execute(db, w, a))
  {
    var v := SeeCancellation(db, w);
    assert ExecutionOk(v) && SameCommitSide(w, v);
    if w.exec.Refreshing? {
      BeginsOk(v);
    } else {
      HandsOffOk(v);
    }
  }

  lemma BeginsOk(v: Worker)
    requires ExecutionOk(v) && v.exec.Refreshing?
    ensures ExecutionOk(AfterRefresh(v)) && SameCommitSide(v, AfterRefresh(v))
  {}

  lemma HandsOffOk(v: Worker)
    requires ExecutionOk(v) && v.exec.RefreshingAgain?
    ensures ExecutionOk(BeforeForwarding(v)) && SameCommitSide(v, BeforeForwarding(v))
  {}

  /** The reconciliation for a cancellation or a spooled result. */
  lemma StoredProofOk(v: Worker, p: Proof)
    requires ExecutionOk(v) && v.exec.ReconcilingStored?
    ensures ExecutionOk(AfterStoredProof(v, p)) && SameCommitSide(v, AfterStoredProof(v, p))
  {}

  /** The reconciliation of earlier attempts. */
  lemma EarlierProofOk(v: Worker, p: Proof)
    requires ExecutionOk(v) && v.exec.ReconcilingEarlier?
    ensures ExecutionOk(AfterEarlierProof(v, p)) && SameCommitSide(v, AfterEarlierProof(v, p))
  {}

  /** What comes before the remote start, apart from reconciliations. */
  lemma EarlyAnswersOk(db: Db, w: Worker, a: Answer)
    requires ExecutionOk(w) && Fits(w, a) && !a.Breaks?
    requires w.exec.Loading? || w.exec.FindingGuardTarget? || w.exec.FindingTarget? || w.exec.Staging?
    ensures ExecutionOk(Execute(db, w, a)) && SameCommitSide(w, Execute(db, w, a))
  {}

  /** The remote work itself, and the proof of a new deployment. */
  lemma CollectedOk(db: Db, w: Worker, a: Answer)
    requires ExecutionOk(w) && Fits(w, a) && !a.Breaks? && (w.exec.Collecting? || w.exec.ProvingDeployment?)
    ensures ExecutionOk(Execute(db, w, a)) && SameCommitSide(w, Execute(db, w, a))
  {}

  /** Spooling, undoing, forwarding, and exceptions. */
  lemma LateAnswersOk(db: Db, w: Worker, a: Answer)
    requires ExecutionOk(w) && Fits(w, a)
    requires a.Breaks? || w.exec.Saving? || w.exec.Compensating? || w.exec.Forwarding?
    ensures ExecutionOk(Execute(db, w, a)) && SameCommitSide(w, Execute(db, w, a))
  {}

  lemma ExecutionKept(db: Db, w: Worker, a: Answer)
    requires ExecutionOk(w) && Fits(w, a)
    ensures ExecutionOk(Execute(db, w, a)) && SameCommitSide(w, Execute(db, w, a))
  {
    if a.Breaks? { LateAnswersOk(db, w, a); }
    else if w.exec.Refreshing? || w.exec.RefreshingAgain? { RefreshedOk(db, w, a); }
    else if w.exec.ReconcilingStored? { StoredProofOk(w, a.proof); }
    else if w.exec.ReconcilingEarlier? { EarlierProofOk(w, a.proof); }
    else if w.exec.Collecting? || w.exec.ProvingDeployment? { CollectedOk(db, w, a); }
    else if BeforeStart(w.exec) { EarlyAnswersOk(db, w, a); }
    else { LateAnswersOk(db, w, a); }
  }

  /** The committed Guard side effect, if any, has been undone. */
  predicate Undone(c: Control) { c.committed ==> c.compensated }

  predicate CommitOk(w: Worker) {
    && (!w.pc.Heartbeating? && !w.pc.Finished? ==> w.exec.Ended? && w.exec.outcome != Raised(NeedsReconciliation))
    && (w.pc.Committing? || w.pc.RaceCommitting? ==> w.latest.Some?)
    && (w.pc.Cleaning? || w.pc.RaceCleaning? ==> w.ctl.cancel && w.ctl.committed)
    && (w.pc.Heartbeating? || w.pc.FinalRenew? || w.pc.Cleaning? ==> w.latest.None?)
    && (w.reply.Some? && w.reply.value.RenewOk? ==> SameCapability(w.issued, w.reply.value.claim))
    && (w.reply.Some? && (w.reply.value.CompleteOk? || w.reply.value.CompleteLost? || w.reply.value.CompleteBroke?) ==>
          w.pc.Committing? || w.pc.RaceCommitting?)
    && (w.latest.Some? ==>
          && SameWork(w.issued.job, w.latest.value) && CompletionState(w.latest.value.state)
          && w.exec.Ended? && w.exec.outcome != Raised(NeedsReconciliation)
          && (w.issued.job.capability.Guard? && w.latest.value.state.Cancelled? ==> Undone(w.ctl)))
    && (w.commit.Some? ==>
          && w.latest.Some? && w.commit.value == Encode(w.latest.value)
          && (w.pc.Finished? || (w.reply == Some(CompleteOk) && (w.pc.Committing? || w.pc.RaceCommitting?))))
  }

  predicate WorkerOk(w: Worker) { ExecutionOk(w) && CommitOk(w) && SameCapability(w.issued, w.claim) }

  /** How the worker's claim sits in the head table. */
  predicate ClaimOk(db: Db, c: Claim) {
    && Reached(db, c)
    && (c.job.id in db.heads ==>
          var h := db.heads[c.job.id];
          h.epoch == c.epoch && h.token.Some? ==> HoldsLease(h, c) && SameWork(h.job, c.job))
  }

  lemma ClaimOkKept(db: Db, op: Op, c: Claim)
    requires Enabled(db, op) && ClaimOk(db, c) && NotReborn(db, op, c)
    ensures ClaimOk(Apply(db, op), c)
  {
    Classify(db, op, c.job.id);
  }

  lemma DecideKept(w: Worker, now: Time, delay: nat)
    requires ExecutionOk(w) && SameCapability(w.issued, w.claim) && w.exec.Ended?
    requires w.exec.outcome != Raised(NeedsReconciliation)
    requires w.reply.None? && w.latest.None? && w.commit.None? && !MustClean(w)
    requires w.claim.job.state.Cancelling? ==> w.ctl.cancel
    ensures WorkerOk(Decide(w, now, delay))
  {
    if w.exec.outcome.Raised? && w.exec.outcome.failure.NeedsReconciliation? { assert false; }
    var j := Verdict(w, now, delay);
    assert SameWork(w.issued.job, j) && CompletionState(j.state);
  }

  lemma BeatKept(w: Worker, now: Time, delay: nat)
    requires WorkerOk(w) && Can(w, Resumes(now, delay)) && (w.pc.Heartbeating? || w.pc.Cleaning? || w.pc.RaceCleaning?)
    ensures WorkerOk(Resume(w, now, delay))
  {}

  lemma FinalRenewKept(w: Worker, now: Time, delay: nat)
    requires WorkerOk(w) && Can(w, Resumes(now, delay)) && w.pc.FinalRenew?
    ensures WorkerOk(Resume(w, now, delay))
  {
    if w.reply.value.RenewOk? {
      var u := NoticeCancelling(w.(reply := None, claim := w.reply.value.claim));
      if !MustClean(u) { DecideKept(u, now, delay); }
    }
  }

  lemma RaceRenewKept(w: Worker, now: Time, delay: nat)
    requires WorkerOk(w) && Can(w, Resumes(now, delay)) && w.pc.RaceRenew?
    ensures WorkerOk(Resume(w, now, delay))
  {
    var v := Resume(w, now, delay);
    assert ExecutionOk(v);
  }

  lemma CommitReplyKept(w: Worker, now: Time, delay: nat)
    requires WorkerOk(w) && Can(w, Resumes(now, delay)) && (w.pc.Committing? || w.pc.RaceCommitting? || w.pc.Finished?)
    ensures WorkerOk(Resume(w, now, delay))
  {
    assert ExecutionOk(Resume(w, now, delay));
  }

  lemma ResumeKept(w: Worker, now: Time, delay: nat)
    requires WorkerOk(w) && Can(w, Resumes(now, delay))
    ensures WorkerOk(Resume(w, now, delay))
  {
    if w.pc.FinalRenew? { FinalRenewKept(w, now, delay); }
    else if w.pc.RaceRenew? { RaceRenewKept(w, now, delay); }
    else if w.pc.Heartbeating? || w.pc.Cleaning? || w.pc.RaceCleaning? { BeatKept(w, now, delay); }
    else { CommitReplyKept(w, now, delay); }
  }

  lemma CleanupKept(w: Worker, ok: bool, now: Time, delay: nat)
    requires WorkerOk(w) && Can(w, CleanupReturns(ok, now, delay))
    ensures WorkerOk(AfterCleanup(w, ok, now, delay))
  {
    if w.pc.Cleaning? && ok && !w.ctl.leaseLost {
      DecideKept(w.(ctl := w.ctl.(cleanupPending := false, compensated := true)), now, delay);
    }
  }

  lemma RenewCallKept(db: Db, w: Worker, s: WorkerStep)
    requires WorkerOk(w) && ClaimOk(db, w.issued) && Can(w, s) && s.CallRenew?
    ensures WorkerOk(Next(db, w, s))
  {
    var v := Next(db, w, s);
    assert ExecutionOk(v);
    if v.reply.value.RenewOk? {
      var h := db.heads[w.claim.job.id];
      assert h.epoch == w.issued.epoch && h.token.Some?;
      assert SameWork(h.job, w.issued.job);
      assert SameCapability(w.issued, v.reply.value.claim);
    }
  }

  lemma CompleteCallKept(db: Db, w: Worker, s: WorkerStep)
    requires WorkerOk(w) && Can(w, s) && s.CallComplete?
    ensures WorkerOk(Next(db, w, s))
  {
    assert ExecutionOk(Next(db, w, s));
  }

  /** Every step of a worker keeps its invariant, whatever the database holds. */
  lemma WorkerKept(db: Db, w: Worker, s: WorkerStep)
    requires WorkerOk(w) && ClaimOk(db, w.issued) && Can(w, s)
    ensures WorkerOk(Next(db, w, s)) && Next(db, w, s).issued == w.issued
  {
    match s
    case Answers(a) => ExecutionKept(db, w, a);
    case Resumes(now, delay) => ResumeKept(w, now, delay);
    case CleanupReturns(ok, now, delay) => CleanupKept(w, ok, now, delay);
    case CallRenew(_, _, _) => RenewCallKept(db, w, s);
    case CallComplete(_, _) => CompleteCallKept(db, w, s);
    case _ =>
  }

  /** A worker's transactions respect the discipline the tables rely on. */
  lemma WorkerDisciplined(db: Db, w: Worker, s: WorkerStep)
    requires WorkerOk(w) && ClaimOk(db, w.issued) && Can(w, s)
    ensures Disciplined(db, OpOf(w, s))
  {}

  lemma FreshOk(c: Claim, identityService: bool)
    ensures WorkerOk(Fresh(c, identityService))
  {}

  // ------------------------------------------------- acknowledged results

  /** A host or trace execution that holds the Analyzer's acknowledgement. */
  predicate Acknowledged(w: Worker) {
    !w.issued.job.capability.Guard? && w.exec.Ended? && w.exec.outcome.Produced?
  }

  /** The claim cannot pass the lease gate at `at` or later. */
  predicate Lost(db: Db, c: Claim, at: Time) {
    Dead(db, c) || (c.job.id in db.heads && HoldsLease(db.heads[c.job.id], c) && !Unexpired(db.heads[c.job.id].expiresAt, at))
  }

  predicate CommitsResult(j: Job, w: Worker)
    requires w.exec.Ended? && w.exec.outcome.Produced?
  {
    j.state.Succeeded? && j.result == Some(w.exec.outcome.result)
  }

  predicate ResultKept(db: Db, w: Worker, at: Time) {
    Acknowledged(w) ==>
      && !w.pc.RaceCleaning? && !w.pc.RaceCommitting?
      && (w.latest.Some? ==> CommitsResult(w.latest.value, w))
      && (w.pc.Committing? && w.reply == Some(CompleteLost) ==> Lost(db, w.issued, at))
      && (w.pc.RaceRenew? ==> Lost(db, w.issued, at) && (w.reply.Some? ==> !w.reply.value.RenewOk?))
  }

  lemma LostKept(db: Db, op: Op, c: Claim, before: Time, after: Time)
    requires Enabled(db, op) && Lost(db, c, before) && before <= after && NotReborn(db, op, c)
    requires LeasesOk(db)
    requires Now(op).Some? ==> Now(op).value == after
    ensures Lost(Apply(db, op), c, after)
  {
    Classify(db, op, c.job.id);
    if Dead(db, c) { DeadStaysDead(db, op, c); }
  }

  /** With a forward clock the lease gate refuses a claim only for good. */
  lemma RefusedIsLost(db: Db, c: Claim, before: Time, at: Time)
    requires ClaimOk(db, c) && LeasesOk(db) && Exclusive(db, before) && HeartbeatsPast(db, before) && before <= at
    requires !Leased(db, c, at)
    ensures Lost(db, c, at)
  {
    if c.job.id in db.heads {
      assert LeaseShape(db.heads[c.job.id]);
    }
  }

  lemma OthersKeepResult(db: Db, op: Op, w: Worker, before: Time, after: Time)
    requires Enabled(db, op) && LeasesOk(db) && NotReborn(db, op, w.issued) && before <= after
    requires Now(op).Some? ==> Now(op).value == after
    requires ResultKept(db, w, before)
    ensures ResultKept(Apply(db, op), w, after)
  {
    if Lost(db, w.issued, before) { LostKept(db, op, w.issued, before, after); }
  }

  /** The worker's own transaction: a refused one finds the lease lost. */
  lemma CallKeepsResult(db: Db, w: Worker, s: WorkerStep, before: Time, after: Time)
    requires s.CallRenew? || s.CallComplete?
    requires WorkerOk(w) && ClaimOk(db, w.issued) && Can(w, s)
    requires LeasesOk(db) && Exclusive(db, before) && HeartbeatsPast(db, before) && before <= after
    requires Now(OpOf(w, s)).Some? ==> Now(OpOf(w, s)).value == after
    requires ResultKept(db, w, before)
    ensures ResultKept(Apply(db, OpOf(w, s)), Next(db, w, s), after)
  {
    var op := OpOf(w, s);
    OthersKeepResult(db, op, w, before, after);
    if s.CallRenew? {
      if Acknowledged(w) && w.pc.RaceRenew? && !s.broke { assert !Leased(db, w.claim, s.now); }
    } else if Acknowledged(w) && !s.broke && !CompleteGranted(db, op) {
      RefusedIsLost(db, w.issued, before, s.now);
      LostKept(db, op, w.issued, s.now, after);
    }
  }

  /** Nothing has been chosen for commit while the execution still answers. */
  lemma AnswerKeepsResult(db: Db, w: Worker, s: WorkerStep, after: Time)
    requires WorkerOk(w) && Can(w, s) && ResultKept(db, w, after) && s.Answers?
    ensures ResultKept(db, Next(db, w, s), after)
  {
    ExecutionKept(db, w, s.answer);
  }

  /** The committing side leaves the execution alone. */
  lemma ReplyKeepsExecution(w: Worker, now: Time, delay: nat)
    requires Can(w, Resumes(now, delay))
    ensures Resume(w, now, delay).exec == w.exec && Resume(w, now, delay).issued == w.issued
  {}

  lemma ReplyKeepsResult(db: Db, w: Worker, s: WorkerStep, after: Time)
    requires WorkerOk(w) && Can(w, s) && ResultKept(db, w, after) && s.Resumes?
    ensures ResultKept(db, Next(db, w, s), after)
  {
    var v := Resume(w, s.now, s.delay);
    assert Next(db, w, s) == v;
    if Acknowledged(w) {
      ResumeKeepsResult(db, w, s.now, s.delay, after);
    } else {
      ReplyKeepsExecution(w, s.now, s.delay);
      assert !Acknowledged(v);
    }
  }

  /** An acknowledged execution has nothing to clean up, and the other steps
      choose nothing to commit. */
  lemma QuietStepKeepsResult(db: Db, w: Worker, s: WorkerStep, after: Time)
    requires WorkerOk(w) && Can(w, s) && ResultKept(db, w, after)
    requires s.CleanupReturns? || s.ExecutionReturns? || s.Signal? || s.Crash?
    ensures ResultKept(db, Next(db, w, s), after)
  {
    assert s.CleanupReturns? ==> !Acknowledged(w);
  }

  /** A step without a transaction. */
  lemma LocalStepKeepsResult(db: Db, w: Worker, s: WorkerStep, after: Time)
    requires WorkerOk(w) && Can(w, s) && !s.CallRenew? && !s.CallComplete? && ResultKept(db, w, after)
    ensures ResultKept(db, Next(db, w, s), after)
  {
    if s.Answers? { AnswerKeepsResult(db, w, s, after); }
    else if s.Resumes? { ReplyKeepsResult(db, w, s, after); }
    else { QuietStepKeepsResult(db, w, s, after); }
  }

  lemma OwnStepKeepsResult(db: Db, w: Worker, s: WorkerStep, before: Time, after: Time)
    requires WorkerOk(w) && ClaimOk(db, w.issued) && Can(w, s)
    requires LeasesOk(db) && Exclusive(db, before) && HeartbeatsPast(db, before) && before <= after
    requires Now(OpOf(w, s)).Some? ==> Now(OpOf(w, s)).value == after
    requires ResultKept(db, w, before)
    ensures ResultKept(Apply(db, OpOf(w, s)), Next(db, w, s), after)
  {
    if s.CallRenew? || s.CallComplete? {
      CallKeepsResult(db, w, s, before, after);
    } else {
      assert OpOf(w, s) == Read && Apply(db, Read) == db;
      OthersKeepResult(db, Read, w, before, after);
      LocalStepKeepsResult(db, w, s, after);
    }
  }

  lemma ResumeKeepsResult(db: Db, w: Worker, now: Time, delay: nat, at: Time)
    requires WorkerOk(w) && Can(w, Resumes(now, delay)) && Acknowledged(w) && ResultKept(db, w, at)
    ensures ResultKept(db, Resume(w, now, delay), at)
  {
    if w.pc.FinalRenew? && w.reply.value.RenewOk? {
      var u := NoticeCancelling(w.(reply := None, claim := w.reply.value.claim));
      assert !MustClean(u);
      DecideKept(u, now, delay);
    }
  }
}
