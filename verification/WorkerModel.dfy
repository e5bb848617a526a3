/** One claimed execution: one coroutine collects and forwards, another
    keeps the lease alive and commits the outcome.  They share control flags and
    interleave at their awaits, so every step below is the code between two
    awaits.  Remote hosts, the spool and the Analyzer answer arbitrarily. */
module WorkerModel {
  import opened Basics
  import opened JobModel

  /** Why an execution ended without a result. */
  datatype Failure = NeedsReconciliation | Interrupted | Fault(retryable: bool, code: int)

  datatype Outcome = Produced(result: ScanResult) | Raised(failure: Failure)

  /** The cooperative flags plus what is recorded about a Guard side effect. */
  datatype Control = Control(
    cancel: bool, timedOut: bool, shuttingDown: bool, leaseLost: bool,
    committed: bool, cleanupPending: bool, compensated: bool)
  {
    predicate Interrupted() { cancel || timedOut || shuttingDown || leaseLost }
  }

  /** What the spool held for the job. */
  datatype Stored = Nothing | GuardArtifact | EnvelopeArtifact

  /** The execution task, by the answer it is waiting for. */
  datatype ExecPc =
    | Loading
    | Refreshing
    | FindingGuardTarget
    | ReconcilingStored
    | FindingTarget
    | ReconcilingEarlier
    | Staging
    | Collecting
    | ProvingDeployment
    | Saving
    | RefreshingAgain
    | Forwarding
    | Compensating(raising: Failure)
    | Ended(outcome: Outcome)

  /** The reconciliation of a Guard deployment with its remote manifest. */
  datatype Proof = ProofRaises | ProofNothing | ProofUnresolved | ProofFound(revoked: bool)

  /** Any await may also raise; `Breaks` is an exception no handler turns into
      a request for reconciliation. */
  datatype Answer =
    | Breaks(fault: Failure)
    | Loaded(stored: Stored)
    | Refreshed
    | Target(found: bool)
    | Supported(found: bool, ok: bool)
    | Proved(proof: Proof)
    | Staged(bundle: bool)
    | Collected(artifact: bool, uncertain: bool, fault: Failure)
    | Saved(ok: bool, fault: Failure)
    | Compensated(ok: bool)
    | Forwarded(ack: Option<ScanResult>, fault: Failure)

  /** The committing task, by the transaction or task it is waiting for. */
  datatype FinishPc =
    | Heartbeating
    | FinalRenew
    | Cleaning
    | Committing
    | RaceRenew
    | RaceCleaning
    | RaceCommitting
    | Finished

  /** The answer of a repository transaction, before its caller resumes. */
  datatype DbReply = RenewOk(claim: Claim) | RenewLost | RenewBroke | CompleteOk | CompleteLost | CompleteBroke

  datatype Worker = Worker(
    issued: Claim, claim: Claim, identityService: bool, ctl: Control,
    exec: ExecPc, stored: Stored, collections: nat,
    pc: FinishPc, reply: Option<DbReply>, latest: Option<Job>, commit: Option<Job>)

  function Fresh(c: Claim, identityService: bool): Worker {
    Worker(c, c, identityService, Control(c.job.state.Cancelling?, false, false, false, false, false, false),
           Loading, Nothing, 0, Heartbeating, None, None, None)
  }

  // --------------------------------------------------------- execution task

  function End(w: Worker, f: Failure): Worker { w.(exec := Ended(Raised(f))) }

  /** `_execute` from its first interruption check. */
  function BeginExecution(w: Worker): Worker {
    if w.ctl.Interrupted() then End(w, Interrupted)
    else if w.stored != Nothing then w.(exec := RefreshingAgain)
    else if w.issued.job.maxAttempts < w.issued.job.attempt && !w.issued.job.capability.Guard? then End(w, Fault(false, 1))
    else w.(exec := FindingTarget)
  }

  function AfterRefresh(w: Worker): Worker {
    if w.issued.job.capability.Guard? && (w.ctl.cancel || w.stored == GuardArtifact)
    then w.(exec := FindingGuardTarget)
    else BeginExecution(w)
  }

  function RecordProof(w: Worker, p: Proof): Worker {
    if p.ProofFound? then w.(ctl := w.ctl.(committed := true, cleanupPending := p.revoked)) else w
  }

  /** The Guard branch taken for a cancellation or a spooled Guard result. */
  function AfterStoredProof(v: Worker, p: Proof): Worker {
    var w := RecordProof(v, p);
    if p.ProofRaises? then End(w, NeedsReconciliation)
    else if w.stored == GuardArtifact && !p.ProofFound? then End(w, NeedsReconciliation)
    else if w.ctl.cancel then
      if w.ctl.committed then w.(exec := Compensating(Interrupted))
      else if p.ProofUnresolved? then End(w, NeedsReconciliation)
      else End(w, Interrupted)
    else BeginExecution(w)
  }

  /** Start of collection, once the target is known. */
  function BeginCollection(w: Worker): Worker {
    if !w.issued.job.capability.Guard? then w.(exec := Collecting, collections := w.collections + 1)
    else if w.identityService then w.(exec := ReconcilingEarlier)
    else if w.issued.job.maxAttempts < w.issued.job.attempt then End(w, Fault(false, 2))
    else w.(exec := Collecting, collections := w.collections + 1)
  }

  function AfterEarlierProof(v: Worker, p: Proof): Worker {
    var w := RecordProof(v, p);
    match p
    case ProofRaises => End(w, NeedsReconciliation)
    case ProofUnresolved => End(w, NeedsReconciliation)
    case ProofFound(_) =>
      if w.ctl.cleanupPending then w.(exec := Compensating(Fault(false, 3))) else AfterCollection(w)
    case ProofNothing =>
      if w.issued.job.maxAttempts < w.issued.job.attempt then End(w, Fault(false, 4)) else w.(exec := Staging)
  }

  /** An artifact is in hand but not yet spooled. */
  function AfterCollection(v: Worker): Worker {
    var guard := v.issued.job.capability.Guard?;
    var w := if guard then v.(ctl := v.ctl.(committed := true)) else v;
    if !w.ctl.Interrupted() then w.(exec := Saving)
    else if w.ctl.cancel && w.ctl.committed then w.(exec := Compensating(Interrupted))
    else if guard && !w.ctl.cancel && !w.ctl.leaseLost then w.(exec := Saving)
    else End(w, Interrupted)
  }

  /** A Guard's result carries no derived work. */
  function GuardResult(reference: int): ScanResult {
    ScanResult(Guard, reference, None, None, 0, false, None, 0, None)
  }

  /** After re-reading the head just before the irreversible hand-off. */
  function BeforeForwarding(w: Worker): Worker {
    var guard := w.issued.job.capability.Guard?;
    var go := if guard then w.(exec := Ended(Produced(GuardResult(w.issued.job.id)))) else w.(exec := Forwarding);
    if !w.ctl.Interrupted() then go
    else if w.ctl.cancel && w.ctl.committed then w.(exec := Compensating(Interrupted))
    else if guard && !w.ctl.cancel && !w.ctl.leaseLost then go
    else End(w, Interrupted)
  }

  /** The head as the execution task re-reads it. */
  function SeeCancellation(db: Db, w: Worker): Worker {
    var j := w.issued.job.id;
    if j in db.heads && (db.heads[j].job.state.Cancelling? || db.heads[j].job.state.Cancelled?)
    then w.(ctl := w.ctl.(cancel := true)) else w
  }

  /** Where an exception simply ends the execution: the spool load, the head
      re-reads, target lookups, `ensure_identity`, staging, and the probe of a
      deployment without certificates.  The proof of a certified deployment
      turns its own failures into a request for reconciliation, and the other
      awaits carry their failure in their answer. */
  predicate MayBreak(w: Worker) {
    || w.exec.Loading? || w.exec.Refreshing? || w.exec.RefreshingAgain?
    || w.exec.FindingGuardTarget? || w.exec.FindingTarget? || w.exec.ReconcilingEarlier? || w.exec.Staging?
    || ((w.exec.ReconcilingStored? || w.exec.ProvingDeployment?) && !w.identityService)
  }

  /** Answers that fit what the execution is waiting for; a job's spool holds only
      artifacts of its own kind. */
  predicate Fits(w: Worker, a: Answer) {
    if a.Breaks? then MayBreak(w) else
    match w.exec
    case Loading => a.Loaded? && (a.stored == Nothing || (a.stored == GuardArtifact <==> w.issued.job.capability.Guard?))
    case Refreshing => a.Refreshed?
    case RefreshingAgain => a.Refreshed?
    case FindingGuardTarget => a.Target?
    case FindingTarget => a.Supported?
    case ReconcilingStored => a.Proved?
    case ReconcilingEarlier => a.Proved?
    case ProvingDeployment => a.Proved?
    case Staging => a.Staged?
    case Collecting => a.Collected?
    case Saving => a.Saved?
    case Compensating(_) => a.Compensated?
    case Forwarding => a.Forwarded?
    case Ended(_) => false
  }

  function Execute(db: Db, w: Worker, a: Answer): Worker
    requires Fits(w, a)
  {
    if a.Breaks? then End(w, a.fault) else
    match w.exec
    case Loading => w.(stored := a.stored, exec := Refreshing)
    case Refreshing => AfterRefresh(SeeCancellation(db, w))
    case FindingGuardTarget => if a.found then w.(exec := ReconcilingStored) else End(w, NeedsReconciliation)
    case ReconcilingStored => AfterStoredProof(w, a.proof)
    case FindingTarget => if a.found && a.ok then BeginCollection(w) else End(w, Fault(false, 5))
    case ReconcilingEarlier => AfterEarlierProof(w, a.proof)
    case Staging =>
      if a.bundle then w.(exec := Collecting, collections := w.collections + 1) else End(w, Fault(true, 6))
    case Collecting =>
      if a.uncertain then End(w, NeedsReconciliation)
      else if !a.artifact then End(w, a.fault)
      else if w.issued.job.capability.Guard? then w.(exec := ProvingDeployment)
      else AfterCollection(w)
    case ProvingDeployment =>
      if a.proof.ProofFound? then AfterCollection(RecordProof(w, a.proof)) else End(w, NeedsReconciliation)
    case Saving =>
      if a.ok then w.(exec := RefreshingAgain)
      else if w.issued.job.capability.Guard? && w.ctl.committed && w.issued.job.maxAttempts <= w.issued.job.attempt
              && !w.ctl.leaseLost
      then w.(exec := Compensating(a.fault))
      else End(w, a.fault)
    case RefreshingAgain => BeforeForwarding(SeeCancellation(db, w))
    case Compensating(raising) =>
      if a.ok then End(w.(ctl := w.ctl.(cleanupPending := false, compensated := true)), raising) else End(w, NeedsReconciliation)
    case Forwarding => if a.ack.Some? then w.(exec := Ended(Produced(a.ack.value))) else End(w, a.fault)
  }

  // -------------------------------------------------------- committing task

  function NoticeCancelling(w: Worker): Worker {
    if w.claim.job.state.Cancelling? then w.(ctl := w.ctl.(cancel := true)) else w
  }

  function AfterExecution(w: Worker): Worker
    requires w.exec.Ended?
  {
    if w.exec.outcome == Raised(NeedsReconciliation) || w.ctl.leaseLost then w.(pc := Finished)
    else w.(pc := FinalRenew)
  }

  predicate MustClean(w: Worker) { w.ctl.cancel && w.ctl.committed && !w.ctl.compensated }

  /** `_set_failure_or_retry`; the delay is any the back-off and jitter allow. */
  function FailOrRetry(job: Job, now: Time, delay: nat, error: Error, retryable: bool): Job {
    var j := job.(error := Some(error), result := None);
    if retryable && j.attempt < j.maxAttempts
    then j.(state := Retrying, availableAt := Some(now + delay), finishedAt := None)
    else j.(state := Failed, availableAt := None, finishedAt := Some(now))
  }

  /** The head the worker wants to commit. */
  function Verdict(w: Worker, now: Time, delay: nat): Job
    requires w.exec.Ended?
  {
    var j := w.claim.job.(updatedAt := now, availableAt := None);
    var o := w.exec.outcome;
    if o.Produced? && !j.capability.Guard?
    then j.(state := Succeeded, result := Some(o.result), error := None, finishedAt := Some(now))
    else if w.ctl.cancel || j.state.Cancelling?
    then j.(finishedAt := Some(now), state := Cancelled, error := Some(CancelledByOperator))
    else if o.Produced?
    then j.(state := Succeeded, result := Some(o.result), error := None, finishedAt := Some(now))
    else if w.ctl.timedOut then FailOrRetry(j, now, delay, TimedOut, true)
    else match o.failure
         case Interrupted => FailOrRetry(j, now, delay, ExecutionError(0), true)
         case Fault(retryable, code) => FailOrRetry(j, now, delay, ExecutionError(code), retryable)
         case NeedsReconciliation => FailOrRetry(j, now, delay, NoResult, false)
  }

  function Decide(w: Worker, now: Time, delay: nat): Worker
    requires w.exec.Ended?
  {
    if w.ctl.shuttingDown && !w.ctl.cancel && !w.exec.outcome.Produced? then w.(pc := Finished)
    else w.(pc := Committing, latest := Some(Verdict(w, now, delay)))
  }

  function Cancellation(w: Worker, now: Time): Worker {
    var j := w.claim.job.(state := Cancelled, result := None, error := Some(CancelledByOperator),
                          updatedAt := now, finishedAt := Some(now), availableAt := None);
    w.(pc := RaceCommitting, latest := Some(j))
  }

  /** A heartbeat reply; a broken transaction only loses the lease once it is
      known to have expired. */
  function Beat(w: Worker, r: DbReply, now: Time): Worker {
    var v := match r
      case RenewOk(c) => w.(claim := c)
      case RenewLost => w.(ctl := w.ctl.(leaseLost := true))
      case _ => if w.claim.expiresAt <= now then w.(ctl := w.ctl.(leaseLost := true)) else w;
    NoticeCancelling(v)
  }

  /** The committing task resumes with a transaction's reply. */
  function Resume(v: Worker, now: Time, delay: nat): Worker
    requires v.reply.Some? && (v.pc.FinalRenew? || v.pc.Cleaning? ==> v.exec.Ended?)
  {
    var r := v.reply.value;
    var w := v.(reply := None);
    match w.pc
    case Heartbeating => Beat(w, r, now)
    case Cleaning => Beat(w, r, now)
    case RaceCleaning => Beat(w, r, now)
    case FinalRenew =>
      if !r.RenewOk? then w.(pc := Finished)
      else
        var u := NoticeCancelling(w.(claim := r.claim));
        if MustClean(u) then u.(pc := Cleaning) else Decide(u, now, delay)
    case Committing => if r.CompleteLost? then w.(pc := RaceRenew) else w.(pc := Finished)
    case RaceRenew =>
      if !r.RenewOk? || !r.claim.job.state.Cancelling? then w.(pc := Finished)
      else
        var u := w.(claim := r.claim, ctl := w.ctl.(cancel := true));
        if MustClean(u) then u.(pc := RaceCleaning) else Cancellation(u, now)
    case RaceCommitting => w.(pc := Finished)
    case Finished => w
  }

  /** The compensation task returns. */
  function AfterCleanup(v: Worker, ok: bool, now: Time, delay: nat): Worker
    requires v.pc.Cleaning? ==> v.exec.Ended?
  {
    var w := if ok && v.issued.job.capability.Guard?
             then v.(ctl := v.ctl.(cleanupPending := false, compensated := true)) else v;
    if w.ctl.leaseLost || !ok then w.(pc := Finished)
    else if w.pc.Cleaning? then Decide(w, now, delay)
    else Cancellation(w, now)
  }

  // ------------------------------------------------------------------ steps

  datatype WorkerStep =
    | Answers(answer: Answer)
    | CallRenew(now: Time, ttl: int, broke: bool)
    | CallComplete(now: Time, broke: bool)
    | Resumes(now: Time, delay: nat)
    | ExecutionReturns
    | CleanupReturns(ok: bool, now: Time, delay: nat)
    | Signal(cancel: bool, timedOut: bool, shuttingDown: bool)
    | Crash

  predicate Can(w: Worker, s: WorkerStep) {
    match s
    case Answers(a) => w.pc.Heartbeating? && Fits(w, a)
    case CallRenew(_, ttl, _) =>
      w.reply.None? && ttl > 0 && (w.pc.Heartbeating? || w.pc.FinalRenew? || w.pc.Cleaning? || w.pc.RaceRenew? || w.pc.RaceCleaning?)
    case CallComplete(_, _) => w.reply.None? && w.latest.Some? && (w.pc.Committing? || w.pc.RaceCommitting?)
    case Resumes(_, _) => w.reply.Some? && (w.pc.FinalRenew? || w.pc.Cleaning? ==> w.exec.Ended?)
    case ExecutionReturns => w.pc.Heartbeating? && w.reply.None? && w.exec.Ended?
    case CleanupReturns(_, _, _) => w.reply.None? && (w.pc.Cleaning? || w.pc.RaceCleaning?) && (w.pc.Cleaning? ==> w.exec.Ended?)
    case Signal(_, _, _) => true
    case Crash => true
  }

  /** The repository transaction a step performs. */
  function OpOf(w: Worker, s: WorkerStep): Op
    requires Can(w, s)
  {
    match s
    case CallRenew(now, ttl, broke) => if broke then Read else Renew(w.claim, now, ttl)
    case CallComplete(now, broke) => if broke then Read else Complete(w.claim, w.latest.value, now)
    case _ => Read
  }

  function Next(db: Db, w: Worker, s: WorkerStep): Worker
    requires Can(w, s)
  {
    match s
    case Answers(a) => Execute(db, w, a)
    case CallRenew(now, ttl, broke) =>
      w.(reply := Some(
        if broke then RenewBroke
        else if Leased(db, w.claim, now)
        then RenewOk(w.claim.(job := db.heads[w.claim.job.id].job, expiresAt := now + ttl))
        else RenewLost))
    case CallComplete(now, broke) =>
      if broke then w.(reply := Some(CompleteBroke))
      else if CompleteGranted(db, Complete(w.claim, w.latest.value, now))
      then w.(reply := Some(CompleteOk), commit := Some(Encode(w.latest.value)))
      else w.(reply := Some(CompleteLost))
    case Resumes(now, delay) => Resume(w, now, delay)
    case ExecutionReturns => AfterExecution(w)
    case CleanupReturns(ok, now, delay) => AfterCleanup(w, ok, now, delay)
    case Signal(cancel, timedOut, shuttingDown) =>
      w.(ctl := w.ctl.(cancel := w.ctl.cancel || cancel, timedOut := w.ctl.timedOut || timedOut,
                       shuttingDown := w.ctl.shuttingDown || shuttingDown))
    case Crash => w.(pc := Finished, reply := None)
  }
}
