/** Bounded attempts, cancelled Guards, and exclusive use of a target. */
module JobTheorems {
  import opened Basics
  import opened JobModel
  import opened JobMoves
  import opened JobInvariants
  import opened JobRuns

  // ---------------------------------------------------------- bounded work

  /** The step issues a claim under which remote work may be started: not a
      cancellation, and not the reconciliation-only claim past the maximum. */
  predicate Executes(db: Db, op: Op, j: JobId) {
    var c := Issued(db, op);
    c.Some? && c.value.job.id == j && c.value.job.state.Running? && c.value.job.attempt <= c.value.job.maxAttempts
  }

  /** The steps in `[a, b)` that issue such a claim of job `j`. */
  ghost function Executions(states: seq<Db>, ops: seq<Op>, a: nat, b: nat, j: JobId): set<nat>
    requires |states| == |ops| + 1 && a <= b <= |ops|
  {
    Indices(a, b, Executing(states, ops, j))
  }

  ghost function Executing(states: seq<Db>, ops: seq<Op>, j: JobId): nat -> bool
    requires |states| == |ops| + 1
  {
    (i: nat) => i < |ops| && Executes(states[i], ops[i], j)
  }

  ghost function Indices(a: nat, b: nat, p: nat -> bool): set<nat> {
    set i: nat | a <= i < b && p(i)
  }

  lemma IndicesTo(a: nat, b: nat, p: nat -> bool)
    requires a < b
    ensures |Indices(a, b, p)| == |Indices(a, b - 1, p)| + (if p(b - 1) then 1 else 0)
  {
    var before := Indices(a, b - 1, p);
    assert Indices(a, b, p) == if p(b - 1) then before + {b - 1} else before;
  }

  lemma IndicesFrom(a: nat, b: nat, p: nat -> bool)
    requires a < b
    ensures |Indices(a, b, p)| == (if p(a) then 1 else 0) + |Indices(a + 1, b, p)|
  {
    var rest := Indices(a + 1, b, p);
    assert Indices(a, b, p) == if p(a) then rest + {a} else rest;
  }

  predicate RetriesJob(db: Db, op: Op, j: JobId) {
    op.ManualRetry? && op.id == j && j in db.heads && Retryable(db.heads[j].job.state)
  }

  ghost predicate NoRetry(states: seq<Db>, ops: seq<Op>, a: nat, b: nat, j: JobId)
    requires |states| == |ops| + 1 && a <= b <= |ops|
  {
    forall i :: a <= i < b ==> !RetriesJob(states[i], ops[i], j)
  }

  lemma AttemptStep(db: Db, op: Op, j: JobId)
    requires Enabled(db, op) && HeadsOk(db) && Disciplined(db, op) && !RetriesJob(db, op, j)
    requires j in db.heads && j in Apply(db, op).heads
    ensures Apply(db, op).heads[j].job.maxAttempts == db.heads[j].job.maxAttempts
    ensures db.heads[j].job.attempt <= Apply(db, op).heads[j].job.attempt <= db.heads[j].job.maxAttempts + 1
    ensures Executes(db, op, j) ==>
              db.heads[j].job.attempt < Apply(db, op).heads[j].job.attempt <= db.heads[j].job.maxAttempts
  {
    assert HeadOk(j, db.heads[j]);
    Classify(db, op, j);
    if Executes(db, op, j) {
      var c := Issued(db, op).value;
      assert LeasesOk(db) && HeadsNamed(db) by {
        forall i | i in db.heads ensures LeaseShape(db.heads[i]) && db.heads[i].job.id == i { assert HeadOk(i, db.heads[i]); }
      }
      IssuedHolds(db, op, c);
    }
  }

  /** Attempts that count as executions. */
  function Used(job: Job): nat { Min(job.attempt, job.maxAttempts) }

  /** One step of a run uses an attempt for every execution it allows. */
  lemma AttemptAt(states: seq<Db>, ops: seq<Op>, i: nat, j: JobId)
    requires IsRun(states, ops) && DisciplinedRun(states, ops) && i < |ops|
    requires j in states[i].heads && j in states[i + 1].heads && !RetriesJob(states[i], ops[i], j)
    ensures states[i + 1].heads[j].job.maxAttempts == states[i].heads[j].job.maxAttempts
    ensures Used(states[i].heads[j].job) + (if Executes(states[i], ops[i], j) then 1 else 0) <= Used(states[i + 1].heads[j].job)
  {
    TablesAlwaysOk(states, ops, i);
    assert StepAt(states, ops, i);
    AttemptStep(states[i], ops[i], j);
  }

  lemma {:induction false} ExecutionsUseAttempts(states: seq<Db>, ops: seq<Op>, a: nat, b: nat, j: JobId)
    requires IsRun(states, ops) && FreshIds(states, ops) && DisciplinedRun(states, ops)
    requires a <= b <= |ops| && NoRetry(states, ops, a, b, j)
    requires j in states[a].heads && j in states[b].heads
    ensures states[b].heads[j].job.maxAttempts == states[a].heads[j].job.maxAttempts
    ensures |Executions(states, ops, a, b, j)| <= Used(states[b].heads[j].job) - Used(states[a].heads[j].job)
    decreases b
  {
    if a == b {
      assert Executions(states, ops, a, b, j) == {};
    } else {
      PresentBefore(states, ops, a, b, j);
      ExecutionsUseAttempts(states, ops, a, b - 1, j);
      assert !RetriesJob(states[b - 1], ops[b - 1], j);
      AttemptAt(states, ops, b - 1, j);
      IndicesTo(a, b, Executing(states, ops, j));
    }
  }

  /** Between manual retries a job is handed out for execution at most
      `maxAttempts` times, through any run of crashes, lease expiries, direct
      operations and re-claims, and its attempt never passes the maximum by
      more than the one reconciliation claim. */
  lemma BoundedExecutions(states: seq<Db>, ops: seq<Op>, a: nat, b: nat, j: JobId)
    requires IsRun(states, ops) && FreshIds(states, ops) && DisciplinedRun(states, ops)
    requires a <= b <= |ops| && NoRetry(states, ops, a, b, j)
    requires j in states[a].heads && j in states[b].heads
    ensures states[b].heads[j].job.attempt <= states[b].heads[j].job.maxAttempts + 1
    ensures |Executions(states, ops, a, b, j)| <= states[a].heads[j].job.maxAttempts
    ensures |Executions(states, ops, a, b, j)| + Used(states[a].heads[j].job) <= Used(states[b].heads[j].job)
  {
    TablesAlwaysOk(states, ops, b);
    assert HeadOk(j, states[b].heads[j]);
    ExecutionsUseAttempts(states, ops, a, b, j);
  }

  lemma PresentBefore(states: seq<Db>, ops: seq<Op>, a: nat, b: nat, j: JobId)
    requires IsRun(states, ops) && FreshIds(states, ops) && a < b <= |ops|
    requires j in states[a].heads && j in states[b].heads
    ensures j in states[b - 1].heads
  {
    BornGrows(states, a, b);
    assert StepAt(states, ops, b - 1) && FreshAt(states, ops, b - 1);
    assert states[..b] == states[..(b - 1) + 1];
    Classify(states[b - 1], ops[b - 1], j);
  }

  // ------------------------------------------------------- cancelled Guards

  predicate CancelPath(h: Head) { h.state.Cancelling? || h.state.Cancelled? || h.state.Failed? }

  /** A Guard being cancelled can only become cancelled or failed, and only a
      manual retry leads anywhere from there. */
  lemma GuardCancelStep(db: Db, op: Op, j: JobId)
    requires Enabled(db, op) && HeadsOk(db) && Disciplined(db, op) && !RetriesJob(db, op, j)
    requires j in db.heads && db.heads[j].job.capability.Guard? && CancelPath(db.heads[j])
    ensures db.heads[j].state.Cancelling? ==> j in Apply(db, op).heads
    ensures j in Apply(db, op).heads ==>
              Apply(db, op).heads[j].job.capability.Guard? && CancelPath(Apply(db, op).heads[j])
  {
    assert HeadOk(j, db.heads[j]);
    Classify(db, op, j);
  }

  lemma {:induction false} CancelledGuardNeverSucceeds(states: seq<Db>, ops: seq<Op>, a: nat, b: nat, j: JobId)
    requires IsRun(states, ops) && FreshIds(states, ops) && DisciplinedRun(states, ops)
    requires a <= b <= |ops| && NoRetry(states, ops, a, b, j)
    requires j in states[a].heads && states[a].heads[j].job.capability.Guard? && states[a].heads[j].state.Cancelling?
    ensures j in states[b].heads ==> states[b].heads[j].job.capability.Guard? && CancelPath(states[b].heads[j])
    decreases b
  {
    if a < b && j in states[b].heads {
      PresentBefore(states, ops, a, b, j);
      CancelledGuardNeverSucceeds(states, ops, a, b - 1, j);
      TablesAlwaysOk(states, ops, b - 1);
      assert StepAt(states, ops, b - 1);
      GuardCancelStep(states[b - 1], ops[b - 1], j);
    }
  }

  // ------------------------------------------------------ target exclusivity

  /** The clock shown to the calls of a run never goes back: `clock[i]` is the
      time of state `i`, and a call that reads the clock reads its next value. */
  ghost predicate Clocked(ops: seq<Op>, clock: seq<Time>) {
    && |clock| == |ops| + 1
    && (forall i, k :: 0 <= i <= k < |clock| ==> clock[i] <= clock[k])
    && forall i :: 0 <= i < |ops| && Now(ops[i]).Some? ==> Now(ops[i]).value == clock[i + 1]
  }

  datatype Holder = ByJob(id: JobId) | ByDirect

  /** Everyone with an unexpired hold on a target at one instant. */
  function Holders(db: Db, t: TargetId, at: Time): set<Holder> {
    (set j | j in db.heads && db.heads[j].target == t && Holding(db.heads[j], at) :: ByJob(j))
    + (if DirectHeld(db, t, at) then {ByDirect} else {})
  }

  ghost predicate Exclusive(db: Db, at: Time) {
    && (forall i, j :: i in db.heads && j in db.heads && i != j && db.heads[i].target == db.heads[j].target ==>
                         !(Holding(db.heads[i], at) && Holding(db.heads[j], at)))
    && (forall j :: j in db.heads && Holding(db.heads[j], at) ==> !DirectHeld(db, db.heads[j].target, at))
  }

  /** No heartbeat lies in the future. */
  ghost predicate HeartbeatsPast(db: Db, at: Time) {
    forall j :: j in db.heads && db.heads[j].heartbeatAt.Some? ==> db.heads[j].heartbeatAt.value <= at
  }

  lemma HeartbeatsKept(db: Db, op: Op, before: Time, after: Time)
    requires Enabled(db, op) && HeartbeatsPast(db, before) && before <= after
    requires Now(op).Some? ==> Now(op).value == after
    ensures HeartbeatsPast(Apply(db, op), after)
  {
    var next := Apply(db, op);
    forall j | j in next.heads && next.heads[j].heartbeatAt.Some? ensures next.heads[j].heartbeatAt.value <= after {
      Classify(db, op, j);
    }
  }

  /** A step lets a job newly hold its target only by claiming it. */
  lemma HoldingStep(db: Db, op: Op, j: JobId, before: Time, after: Time)
    requires Enabled(db, op) && LeasesOk(db) && HeadsNamed(db) && before <= after
    requires Now(op).Some? ==> Now(op).value == after
    requires j in Apply(db, op).heads && Holding(Apply(db, op).heads[j], after)
    ensures j in db.heads && Apply(db, op).heads[j].target == db.heads[j].target
    ensures Holding(db.heads[j], after) ||
            (op.ClaimNext? && Issued(db, op).Some? && op.picked == Some(j) && FirstCandidate(Swept(db, op), j, after, op.exclude)
             && |HoldingJobs(Swept(db, op), after)| < op.maxRunning)
  {
    Classify(db, op, j);
    if op.ClaimNext? && Issued(db, op).Some? && op.picked == Some(j) {
      SweptAt(db, op, j);
      IssuedHolds(db, op, Issued(db, op).value);
    }
    if j in db.heads { assert LeaseShape(db.heads[j]); }
  }

  lemma DirectStep(db: Db, op: Op, t: TargetId, before: Time, after: Time)
    requires Enabled(db, op) && before <= after
    requires Now(op).Some? ==> Now(op).value == after
    requires DirectHeld(Apply(db, op), t, after)
    ensures DirectHeld(db, t, after) || (op.Acquire? && AcquireGranted(db, op) && op.target == t)
  {
    if op.ClaimNext? {
      SweepAt(db, op.sweep, op.now, 0);
    }
  }

  lemma ExclusiveKept(db: Db, op: Op, before: Time, after: Time)
    requires Enabled(db, op) && LeasesOk(db) && HeadsNamed(db) && Exclusive(db, before) && before <= after
    requires Now(op).Some? ==> Now(op).value == after
    ensures Exclusive(Apply(db, op), after)
  {
    var next := Apply(db, op);
    forall i, j | i in next.heads && j in next.heads && i != j && next.heads[i].target == next.heads[j].target
      ensures !(Holding(next.heads[i], after) && Holding(next.heads[j], after))
    {
      if Holding(next.heads[i], after) && Holding(next.heads[j], after) {
        HoldingStep(db, op, i, before, after);
        HoldingStep(db, op, j, before, after);
        if op.ClaimNext? { SweptAt(db, op, i); SweptAt(db, op, j); }
        assert false;
      }
    }
    forall j | j in next.heads && Holding(next.heads[j], after) ensures !DirectHeld(next, next.heads[j].target, after) {
      HoldingStep(db, op, j, before, after);
      if DirectHeld(next, next.heads[j].target, after) {
        DirectStep(db, op, next.heads[j].target, before, after);
        if op.ClaimNext? { SweptAt(db, op, j); }
        assert false;
      }
    }
  }

  lemma {:induction false} AlwaysExclusive(states: seq<Db>, ops: seq<Op>, clock: seq<Time>, k: nat)
    requires IsRun(states, ops) && Clocked(ops, clock) && k <= |ops|
    ensures Exclusive(states[k], clock[k]) && HeartbeatsPast(states[k], clock[k])
  {
    if k > 0 {
      AlwaysExclusive(states, ops, clock, k - 1);
      assert StepAt(states, ops, k - 1);
      LeasesAlwaysOk(states, ops, k - 1);
      HeadsAlwaysNamed(states, ops, k - 1);
      ExclusiveKept(states[k - 1], ops[k - 1], clock[k - 1], clock[k]);
      HeartbeatsKept(states[k - 1], ops[k - 1], clock[k - 1], clock[k]);
    }
  }

  /** At every instant a target has at most one unexpired holder, live job
      leases and the direct-operation lease counted together. */
  lemma OneHolderPerTarget(states: seq<Db>, ops: seq<Op>, clock: seq<Time>, k: nat, t: TargetId, at: Time)
    requires IsRun(states, ops) && Clocked(ops, clock) && k <= |ops| && clock[k] <= at
    ensures |Holders(states[k], t, at)| <= 1
  {
    AlwaysExclusive(states, ops, clock, k);
    var hs := Holders(states[k], t, at);
    if hs != {} {
      var x :| x in hs;
      forall y | y in hs ensures y == x { }
      assert hs == {x};
    }
  }

  /** A claim that adds a holder found fewer holders than its cap. */
  lemma ClaimWithinCap(db: Db, op: Op, i: JobId, before: Time, after: Time)
    requires Enabled(db, op) && LeasesOk(db) && HeadsNamed(db) && before <= after
    requires Now(op).Some? ==> Now(op).value == after
    requires i in HoldingJobs(Apply(db, op), after) && i !in HoldingJobs(db, after)
    ensures op.ClaimNext? && |HoldingJobs(Apply(db, op), after)| <= op.maxRunning
  {
    var now := HoldingJobs(Apply(db, op), after);
    HoldingStep(db, op, i, before, after);
    forall j | j in now && j != i ensures j in HoldingJobs(Swept(db, op), after) {
      HoldingStep(db, op, j, before, after);
      SweptAt(db, op, j);
    }
    SubsetCard(now - {i}, HoldingJobs(Swept(db, op), after));
  }

  lemma CapStep(db: Db, op: Op, before: Time, after: Time, m: nat)
    requires Enabled(db, op) && LeasesOk(db) && HeadsNamed(db) && before <= after
    requires Now(op).Some? ==> Now(op).value == after
    requires op.ClaimNext? ==> op.maxRunning == m
    requires |HoldingJobs(db, after)| <= m
    ensures |HoldingJobs(Apply(db, op), after)| <= m
  {
    var now := HoldingJobs(Apply(db, op), after);
    if i: JobId :| i in now && i !in HoldingJobs(db, after) {
      ClaimWithinCap(db, op, i, before, after);
    } else {
      assert forall j :: j in now ==> j in HoldingJobs(db, after);
      SubsetCard(now, HoldingJobs(db, after));
    }
  }

  /** When every claimer uses the cap `m`, live job leases never exceed it. */
  lemma {:induction false} GlobalCap(states: seq<Db>, ops: seq<Op>, clock: seq<Time>, k: nat, at: Time, m: nat)
    requires IsRun(states, ops) && Clocked(ops, clock) && k <= |ops| && clock[k] <= at
    requires forall i :: 0 <= i < |ops| && ops[i].ClaimNext? ==> ops[i].maxRunning == m
    ensures |HoldingJobs(states[k], at)| <= m
    decreases k
  {
    if k == 0 {
      assert HoldingJobs(states[0], at) == {};
    } else {
      GlobalCap(states, ops, clock, k - 1, clock[k], m);
      LeasesAlwaysOk(states, ops, k - 1);
      HeadsAlwaysNamed(states, ops, k - 1);
      assert StepAt(states, ops, k - 1);
      CapStep(states[k - 1], ops[k - 1], clock[k - 1], clock[k], m);
      assert forall j :: j in HoldingJobs(states[k], at) ==> j in HoldingJobs(states[k], clock[k]);
      SubsetCard(HoldingJobs(states[k], at), HoldingJobs(states[k], clock[k]));
    }
  }
}
