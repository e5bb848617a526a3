/** Any number of workers and API callers over one job database.  A trace
    interleaves API calls, claims (each starting a worker), and single steps of
    the workers; workers crash, stall and resume at any point. */
module WorkerSystem {
  import opened Basics
  import opened JobModel
  import opened JobAnswers
  import opened JobInvariants
  import opened JobRuns
  import opened JobTheorems
  import opened WorkerModel
  import opened WorkerInvariants

  /** Workers by the number of the step that issued their claim. */
  type Fleet = map<nat, Worker>

  datatype Label =
    | Api(op: Op)
    | Dispatch(op: Op, identityService: bool)
    | Work(worker: nat, step: WorkerStep)

  datatype Trace = Trace(dbs: seq<Db>, fleets: seq<Fleet>, labels: seq<Label>, ops: seq<Op>)

  /** Calls made outside the workers: everything but claims and leased updates.
      Jobs are created with no more attempts used than they may use. */
  predicate ApiOp(op: Op) {
    !op.ClaimNext? && !op.Renew? && !op.Complete? && (op.Create? ==> AttemptBounded(op.job))
  }

  predicate FleetStep(i: nat, db: Db, fleet: Fleet, event: Label, op: Op, after: Fleet) {
    match event
    case Api(call) => ApiOp(call) && op == call && after == fleet
    case Dispatch(call, identityService) =>
      && call.ClaimNext? && op == call
      && after == if Issued(db, op).Some? then fleet[i := Fresh(Issued(db, op).value, identityService)] else fleet
    case Work(k, step) =>
      && k in fleet && Can(fleet[k], step) && op == OpOf(fleet[k], step)
      && after == fleet[k := Next(db, fleet[k], step)]
  }

  ghost predicate TraceStep(t: Trace, i: nat)
    requires i < |t.labels| == |t.ops| && |t.fleets| == |t.dbs| == |t.ops| + 1
  {
    FleetStep(i, t.dbs[i], t.fleets[i], t.labels[i], t.ops[i], t.fleets[i + 1])
  }

  ghost predicate IsTrace(t: Trace) {
    && IsRun(t.dbs, t.ops) && FreshIds(t.dbs, t.ops)
    && |t.labels| == |t.ops| && |t.fleets| == |t.dbs| && t.fleets[0] == map[]
    && forall i :: 0 <= i < |t.labels| ==> TraceStep(t, i)
  }

  /** A worker runs the claim issued by the step it is named after. */
  predicate Belongs(t: Trace, k: nat, w: Worker) {
    k < |t.ops| && k < |t.dbs| && Issued(t.dbs[k], t.ops[k]) == Some(w.issued)
  }

  ghost predicate FleetOk(t: Trace, n: nat)
    requires n < |t.dbs| && n < |t.fleets|
  {
    forall k :: k in t.fleets[n] ==> MemberOk(t, n, k, t.fleets[n][k])
  }

  ghost predicate MemberOk(t: Trace, n: nat, k: nat, w: Worker)
    requires n < |t.dbs|
  {
    k < n && Belongs(t, k, w) && WorkerOk(w) && ClaimOk(t.dbs[n], w.issued)
  }

  lemma WorkerJobPresent(t: Trace, k: nat, w: Worker)
    requires IsTrace(t) && Belongs(t, k, w)
    ensures w.issued.job.id in t.dbs[k].heads
  {
    LeasesAlwaysOk(t.dbs, t.ops, k);
    HeadsAlwaysNamed(t.dbs, t.ops, k);
    assert StepAt(t.dbs, t.ops, k);
    IssuedHolds(t.dbs[k], t.ops[k], w.issued);
  }

  lemma OthersClaimOk(t: Trace, k: nat, n: nat, w: Worker)
    requires IsTrace(t) && k < n < |t.ops| && Belongs(t, k, w) && ClaimOk(t.dbs[n], w.issued)
    ensures ClaimOk(t.dbs[n + 1], w.issued)
  {
    assert StepAt(t.dbs, t.ops, n);
    WorkerJobPresent(t, k, w);
    RebornNever(t.dbs, t.ops, k, n, w.issued);
    ClaimOkKept(t.dbs[n], t.ops[n], w.issued);
  }

  lemma NewMemberOk(t: Trace, m: nat)
    requires IsTrace(t) && m < |t.ops| && t.labels[m].Dispatch? && Issued(t.dbs[m], t.ops[m]).Some?
    ensures m in t.fleets[m + 1] && MemberOk(t, m + 1, m, t.fleets[m + 1][m])
  {
    assert TraceStep(t, m) && StepAt(t.dbs, t.ops, m);
    LeasesAlwaysOk(t.dbs, t.ops, m);
    HeadsAlwaysNamed(t.dbs, t.ops, m);
    FreshOk(Issued(t.dbs[m], t.ops[m]).value, t.labels[m].identityService);
    IssuedHolds(t.dbs[m], t.ops[m], Issued(t.dbs[m], t.ops[m]).value);
  }

  lemma OldMemberOk(t: Trace, m: nat, k: nat)
    requires IsTrace(t) && m < |t.ops| && k in t.fleets[m] && k in t.fleets[m + 1]
    requires MemberOk(t, m, k, t.fleets[m][k])
    ensures MemberOk(t, m + 1, k, t.fleets[m + 1][k])
  {
    assert TraceStep(t, m);
    OthersClaimOk(t, k, m, t.fleets[m][k]);
    if t.labels[m].Work? && t.labels[m].worker == k {
      WorkerKept(t.dbs[m], t.fleets[m][k], t.labels[m].step);
    }
  }

  /** A worker in the fleet was there before the step or has just been started by it. */
  lemma KnownOrNew(t: Trace, m: nat, k: nat)
    requires IsTrace(t) && m < |t.ops| && k in t.fleets[m + 1]
    ensures k in t.fleets[m] ||
            (&& k == m && t.labels[m].Dispatch? && Issued(t.dbs[m], t.ops[m]).Some?
             && t.fleets[m + 1][k] == Fresh(Issued(t.dbs[m], t.ops[m]).value, t.labels[m].identityService))
  {
    assert TraceStep(t, m);
  }

  lemma MemberStep(t: Trace, m: nat, k: nat)
    requires IsTrace(t) && m < |t.ops| && FleetOk(t, m) && k in t.fleets[m + 1]
    ensures MemberOk(t, m + 1, k, t.fleets[m + 1][k])
  {
    KnownOrNew(t, m, k);
    if k in t.fleets[m] { OldMemberOk(t, m, k); } else { NewMemberOk(t, m); }
  }

  /** Every worker keeps its invariant in every trace. */
  lemma {:induction false} FleetAlwaysOk(t: Trace, n: nat)
    requires IsTrace(t) && n <= |t.ops|
    ensures FleetOk(t, n)
  {
    if n > 0 {
      FleetAlwaysOk(t, n - 1);
      forall k | k in t.fleets[n] ensures MemberOk(t, n, k, t.fleets[n][k]) {
        MemberStep(t, n - 1, k);
      }
    }
  }

  /** The tables' callers are disciplined in every trace, so everything proved
      of disciplined runs holds of the whole system. */
  lemma TraceDisciplined(t: Trace)
    requires IsTrace(t)
    ensures DisciplinedRun(t.dbs, t.ops)
  {
    forall i | 0 <= i < |t.ops| ensures Disciplined(t.dbs[i], t.ops[i]) {
      FleetAlwaysOk(t, i);
      assert TraceStep(t, i);
      if t.labels[i].Work? {
        WorkerDisciplined(t.dbs[i], t.fleets[i][t.labels[i].worker], t.labels[i].step);
      }
    }
  }

  /** A Guard execution commits `cancelled` only when the side effect it has on
      record has been compensated, on the normal and on the completion-race path. */
  lemma CancelledGuardIsCompensated(t: Trace, n: nat, k: nat)
    requires IsTrace(t) && n <= |t.ops| && k in t.fleets[n]
    ensures var w := t.fleets[n][k];
            w.issued.job.capability.Guard? && w.commit.Some? && w.commit.value.state.Cancelled? && w.ctl.committed ==>
              w.ctl.compensated
  {
    FleetAlwaysOk(t, n);
  }

  /** An execution that ended needing reconciliation commits nothing: its head
      stays leased until it expires and the next fenced owner takes over. */
  lemma ReconciliationCommitsNothing(t: Trace, n: nat, k: nat)
    requires IsTrace(t) && n <= |t.ops| && k in t.fleets[n]
    ensures var w := t.fleets[n][k];
            w.exec.Ended? && w.exec.outcome == Raised(NeedsReconciliation) ==> w.commit.None? && w.latest.None?
  {
    FleetAlwaysOk(t, n);
  }

  // ------------------------------------------------- acknowledged results

  ghost predicate FleetResultsKept(t: Trace, clock: seq<Time>, n: nat)
    requires n < |t.dbs| && n < |t.fleets| && n < |clock|
  {
    forall k :: k in t.fleets[n] ==> ResultKept(t.dbs[n], t.fleets[n][k], clock[n])
  }

  /** A step of some other worker or caller, seen by a worker. */
  lemma OtherStepKeepsResult(t: Trace, clock: seq<Time>, m: nat, k: nat, v: Worker)
    requires IsTrace(t) && Clocked(t.ops, clock) && k < m < |t.ops| && Belongs(t, k, v)
    requires ResultKept(t.dbs[m], v, clock[m])
    ensures ResultKept(t.dbs[m + 1], v, clock[m + 1])
  {
    LeasesAlwaysOk(t.dbs, t.ops, m);
    WorkerJobPresent(t, k, v);
    RebornNever(t.dbs, t.ops, k, m, v.issued);
    assert StepAt(t.dbs, t.ops, m);
    OthersKeepResult(t.dbs[m], t.ops[m], v, clock[m], clock[m + 1]);
  }

  /** A step of the worker itself. */
  lemma OwnStepAt(t: Trace, clock: seq<Time>, m: nat, k: nat)
    requires IsTrace(t) && Clocked(t.ops, clock) && m < |t.ops| && t.labels[m].Work? && t.labels[m].worker == k
    requires k in t.fleets[m] && ResultKept(t.dbs[m], t.fleets[m][k], clock[m])
    ensures k in t.fleets[m + 1] && ResultKept(t.dbs[m + 1], t.fleets[m + 1][k], clock[m + 1])
  {
    FleetAlwaysOk(t, m);
    LeasesAlwaysOk(t.dbs, t.ops, m);
    AlwaysExclusive(t.dbs, t.ops, clock, m);
    assert TraceStep(t, m) && StepAt(t.dbs, t.ops, m);
    OwnStepKeepsResult(t.dbs[m], t.fleets[m][k], t.labels[m].step, clock[m], clock[m + 1]);
  }

  /** One step of the trace, seen by a worker that was already there. */
  lemma ResultStep(t: Trace, clock: seq<Time>, m: nat, k: nat)
    requires IsTrace(t) && Clocked(t.ops, clock) && m < |t.ops| && k in t.fleets[m] && k in t.fleets[m + 1]
    requires ResultKept(t.dbs[m], t.fleets[m][k], clock[m])
    ensures ResultKept(t.dbs[m + 1], t.fleets[m + 1][k], clock[m + 1])
  {
    if t.labels[m].Work? && t.labels[m].worker == k {
      OwnStepAt(t, clock, m, k);
    } else {
      FleetAlwaysOk(t, m);
      assert MemberOk(t, m, k, t.fleets[m][k]);
      assert TraceStep(t, m);
      OtherStepKeepsResult(t, clock, m, k, t.fleets[m][k]);
    }
  }

  lemma {:induction false} ResultsAlwaysKept(t: Trace, clock: seq<Time>, n: nat)
    requires IsTrace(t) && Clocked(t.ops, clock) && n <= |t.ops|
    ensures FleetResultsKept(t, clock, n)
  {
    if n > 0 {
      ResultsAlwaysKept(t, clock, n - 1);
      forall k | k in t.fleets[n] ensures ResultKept(t.dbs[n], t.fleets[n][k], clock[n]) {
        KnownOrNew(t, n - 1, k);
        if k in t.fleets[n - 1] { ResultStep(t, clock, n - 1, k); }
      }
    }
  }

  /** Once a host or trace execution holds an Analyzer acknowledgement, its
      worker commits `succeeded` with that result or commits nothing, wherever
      a cancellation lands; here the clock must not run backwards. */
  lemma AcknowledgedResultIsNotOverwritten(t: Trace, clock: seq<Time>, n: nat, k: nat)
    requires IsTrace(t) && Clocked(t.ops, clock) && n <= |t.ops| && k in t.fleets[n]
    ensures var w := t.fleets[n][k];
            Acknowledged(w) && w.commit.Some? ==>
              w.commit.value.state.Succeeded? && w.commit.value.result == Some(w.exec.outcome.result)
  {
    FleetAlwaysOk(t, n);
    ResultsAlwaysKept(t, clock, n);
  }

  /** When a worker's commit goes through, the job's head is what it committed. */
  lemma CommitIsStored(t: Trace, n: nat, k: nat)
    requires IsTrace(t) && n < |t.ops| && k in t.fleets[n] && t.fleets[n][k].commit.None?
    requires k in t.fleets[n + 1] && t.fleets[n + 1][k].commit.Some?
    ensures var w := t.fleets[n + 1][k];
            && w.latest.Some? && w.issued.job.id in t.dbs[n + 1].heads
            && StoredAs(w.latest.value, t.dbs[n + 1].heads[w.issued.job.id].job)
            && t.dbs[n + 1].heads[w.issued.job.id].job == w.commit.value
  {
    FleetAlwaysOk(t, n);
    var v := t.fleets[n][k];
    assert MemberOk(t, n, k, v);
    assert TraceStep(t, n) && StepAt(t.dbs, t.ops, n);
    CommitsOnlyByCompleting(t.dbs[n], v, t.labels[n].step);
    CompletionIsStored(t.dbs[n], t.ops[n]);
  }

  lemma CommitsOnlyByCompleting(db: Db, w: Worker, s: WorkerStep)
    requires WorkerOk(w) && Can(w, s) && w.commit.None? && Next(db, w, s).commit.Some?
    ensures s.CallComplete? && !s.broke && CompleteGranted(db, Complete(w.claim, w.latest.value, s.now))
    ensures OpOf(w, s) == Complete(w.claim, w.latest.value, s.now) && Next(db, w, s).latest == w.latest
  {
    if s.Answers? { ExecutionKept(db, w, s.answer); }
  }

  /** The acknowledged result in the queue itself: at the step at which such a
      worker's commit goes through, the job's head is succeeded with exactly the
      acknowledged result. */
  lemma AcknowledgedResultIsStored(t: Trace, clock: seq<Time>, n: nat, k: nat)
    requires IsTrace(t) && Clocked(t.ops, clock) && n < |t.ops| && k in t.fleets[n] && t.fleets[n][k].commit.None?
    requires k in t.fleets[n + 1] && t.fleets[n + 1][k].commit.Some? && Acknowledged(t.fleets[n + 1][k])
    ensures var w, heads := t.fleets[n + 1][k], t.dbs[n + 1].heads;
            && w.issued.job.id in heads && heads[w.issued.job.id].job.state == Succeeded
            && heads[w.issued.job.id].state == Succeeded
            && heads[w.issued.job.id].job.result == Some(w.exec.outcome.result)
  {
    CommitIsStored(t, n, k);
    AcknowledgedResultIsNotOverwritten(t, clock, n + 1, k);
    TraceDisciplined(t);
    TablesAlwaysOk(t.dbs, t.ops, n + 1);
  }

  // --------------------------------------------------------- bounded work

  /** Remote collections and deployments started, up to state `n`, under claims
      of job `j` issued by steps in `[a, b)`. */
  ghost function Starts(t: Trace, n: nat, a: nat, b: nat, j: JobId): nat
    requires n < |t.fleets| && a <= b
    decreases b - a
  {
    if a == b then 0
    else (if a in t.fleets[n] && t.fleets[n][a].issued.job.id == j then t.fleets[n][a].collections else 0)
         + Starts(t, n, a + 1, b, j)
  }

  lemma StarterExecutes(t: Trace, n: nat, k: nat)
    requires IsTrace(t) && n <= |t.ops| && k in t.fleets[n]
    ensures var w := t.fleets[n][k];
            k < |t.ops| && w.collections <= 1 && (w.collections > 0 ==> Executes(t.dbs[k], t.ops[k], w.issued.job.id))
  {
    FleetAlwaysOk(t, n);
    var w := t.fleets[n][k];
    assert Belongs(t, k, w) && ExecutionOk(w);
  }

  lemma {:induction false} StartsAreExecutions(t: Trace, n: nat, a: nat, b: nat, j: JobId)
    requires IsTrace(t) && n <= |t.ops| && a <= b <= |t.ops|
    ensures Starts(t, n, a, b, j) <= |Executions(t.dbs, t.ops, a, b, j)|
    decreases b - a
  {
    if a < b {
      StartsAreExecutions(t, n, a + 1, b, j);
      IndicesFrom(a, b, Executing(t.dbs, t.ops, j));
      if a in t.fleets[n] { StarterExecutes(t, n, a); }
    }
  }

  /** Between manual retries, remote collection or deployment of a job starts
      at most `maxAttempts` times under the claims issued there, through any
      crashes, lease expiries and re-claims. */
  lemma BoundedRemoteWork(t: Trace, n: nat, a: nat, b: nat, j: JobId)
    requires IsTrace(t) && n <= |t.ops| && a <= b <= |t.ops| && NoRetry(t.dbs, t.ops, a, b, j)
    requires j in t.dbs[a].heads && j in t.dbs[b].heads
    ensures Starts(t, n, a, b, j) <= t.dbs[a].heads[j].job.maxAttempts
    ensures t.dbs[b].heads[j].job.attempt <= t.dbs[b].heads[j].job.maxAttempts + 1
  {
    TraceDisciplined(t);
    StartsAreExecutions(t, n, a, b, j);
    BoundedExecutions(t.dbs, t.ops, a, b, j);
  }
}
