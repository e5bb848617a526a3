/** The worker and the reconciliation it waits for: a fresh Guard generation is
    staged only over settled ones. */
module GuardStaging {
  import opened JobModel
  import opened WorkerModel
  import Identity = IdentityModel
  import Reconcile

  /** What the worker learns from a reconciliation. */
  function ProofOf(result: Reconcile.Result): Proof {
    match result
    case Raises => ProofRaises
    case Nothing => ProofNothing
    case Unresolved => ProofUnresolved
    case Found(_, revoked) => ProofFound(revoked)
  }

  /** An execution comes to stage a generation only from a reconciliation that
      found nothing and left nothing unresolved, and only within its attempts. */
  lemma OnlyNothingStages(db: Db, w: Worker, a: Answer)
    requires Fits(w, a) && Execute(db, w, a).exec.Staging?
    ensures w.exec.ReconcilingEarlier? && a == Proved(ProofNothing)
    ensures w.issued.job.attempt <= w.issued.job.maxAttempts
  {}

  lemma {:induction false} ReturnedStays(states: seq<Reconcile.State>, events: seq<Reconcile.Label>, k: nat, n: nat)
    requires Reconcile.IsRun(states, events) && k <= n <= |events| && states[k].pc.Returned?
    ensures states[n].pc == states[k].pc
    decreases n
  {
    if k < n {
      ReturnedStays(states, events, k, n - 1);
      assert Reconcile.Next(states[n - 1], events[n - 1], states[n]);
    }
  }

  /** The reconciliation a worker of the job waits for covers every earlier attempt. */
  predicate Concerns(s: Reconcile.State, w: Worker) {
    s.job == w.issued.job.id && s.target == w.issued.job.target && s.last + 1 == w.issued.job.attempt
  }

  /** When the staging that follows is granted, after whatever happened to the
      registry since, every earlier attempt of the job is settled, except for a
      generation granted to its key after the key was read and active by now. */
  lemma StagesOverSettled(
    db: Db, w: Worker, states: seq<Reconcile.State>, events: seq<Reconcile.Label>, k: nat, n: nat,
    op: Identity.Op, attempt: nat)
    requires Reconcile.IsRun(states, events) && k <= n <= |events| && Concerns(states[0], w)
    requires states[k].pc.Returned? && Fits(w, Proved(ProofOf(states[k].pc.result)))
    requires Execute(db, w, Proved(ProofOf(states[k].pc.result))).exec.Staging?
    requires op.Stage? && Identity.Stages(states[n].reg, op) && Identity.BoundTo(states[n].reg, op.agent, w.issued.job.target)
    requires 1 <= attempt < w.issued.job.attempt
    ensures var reg, key := states[n].reg, Identity.AttemptKey(w.issued.job.id, attempt);
            !Reconcile.Settled(reg, op.agent, key) <==>
            exists id :: id in states[n].late && Identity.KeyAt(reg, id, op.agent, key) && reg.certs[id].state.Active?
    ensures states[n].late == {} ==>
            Reconcile.Settled(states[n].reg, op.agent, Identity.AttemptKey(w.issued.job.id, attempt))
  {
    OnlyNothingStages(db, w, Proved(ProofOf(states[k].pc.result)));
    ReturnedStays(states, events, k, n);
    Reconcile.RunBasics(states, events, 0, n, op.agent);
    Reconcile.FreshGenerationOverSettled(states, events, n, op, attempt);
  }
}
