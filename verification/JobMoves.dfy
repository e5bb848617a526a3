/** What one call can do to one row of the head table.  Every theorem about
    heads rests on this classification instead of on the calls themselves. */
module JobMoves {
  import opened Basics
  import opened JobModel

  predicate Granted(db: Db, op: Op, j: JobId) {
    match op
    case Create(job, _, _, _) => job.id == j && CreateGranted(db, op)
    case ClaimNext(_, _, _, _, _, _, _, picked) => Issued(db, op).Some? && picked == Some(j)
    case Complete(_, job, _) => job.id == j && CompleteGranted(db, op)
    case ManualRetry(id, _) => id == j && j in db.heads && Retryable(db.heads[j].job.state)
    case _ => false
  }

  /** The ways a call can move the row `h` of job `j` to `k`. */
  predicate Moves(db: Db, op: Op, j: JobId, h: Head, k: Head) {
    match op
    case Create(_, _, _, _) => k == h
    case ClaimNext(_, now, _, _, exclude, _, _, _) =>
      if Granted(db, op, j)
      then ClaimArgumentsOk(op) && Claimable(h, now) && !Exhausted(h, now) && k == ClaimHead(h, op)
      else k == h || (Exhausted(h, now) && k == FailExhausted(h, now))
    case Acquire(target, _, now, _, _) =>
      if AcquireGranted(db, op) && h.target == target && Active(h.state) && !Unexpired(h.expiresAt, now)
      then k == Fenced(h) else k == h
    case Release(_, _, _) => k == h
    case RenewDirect(_, _, _, _, _) => k == h
    case Renew(c, now, ttl) =>
      if ttl > 0 && Leased(db, c, now) && c.job.id == j then k == RenewHead(h, now, ttl) else k == h
    case Complete(c, job, now) =>
      if CompleteGranted(db, op) && job.id == j then k == CompleteHead(h, job) else k == h
    case RequestCancel(id, now) =>
      if id == j && Cancellable(h.job.state) then k == CancelHead(h, now) else k == h
    case ManualRetry(id, now) =>
      if id == j && Retryable(h.job.state) then k == RetryHead(h, now) else k == h
    case UpdateDerived(id, seen, now) =>
      if id == j && DerivedOpen(h.job) then k == DeriveHead(h, seen, now) else k == h
    case Read => k == h
  }

  /** Sweeping fails exactly the listed rows, each once. */
  lemma {:induction false} SweepAt(db: Db, ids: seq<JobId>, now: Time, j: JobId)
    requires forall a, b :: 0 <= a < b < |ids| ==> ids[a] != ids[b]
    ensures Sweep(db, ids, now).heads.Keys == db.heads.Keys
    ensures Sweep(db, ids, now).directs == db.directs && Sweep(db, ids, now).limits == db.limits
    ensures j in db.heads ==>
              Sweep(db, ids, now).heads[j] == if j in ids then FailExhausted(db.heads[j], now) else db.heads[j]
    decreases |ids|
  {
    if ids != [] {
      var d := if ids[0] in db.heads then Put(db, ids[0], FailExhausted(db.heads[ids[0]], now), now) else db;
      SweepAt(d, ids[1..], now, j);
      assert d.heads.Keys == db.heads.Keys;
      assert ids == [ids[0]] + ids[1..];
      assert ids[0] !in ids[1..];
    }
  }

  /** The state the claim query reads: exhausted rows are failed, all others
      are untouched, and only unexpired direct leases remain. */
  lemma SweptAt(db: Db, op: Op, j: JobId)
    requires op.ClaimNext? && Enabled(db, op)
    ensures Swept(db, op).heads.Keys == db.heads.Keys
    ensures Swept(db, op).limits == db.limits
    ensures j in db.heads ==>
              Swept(db, op).heads[j] ==
              if Exhausted(db.heads[j], op.now) then FailExhausted(db.heads[j], op.now) else db.heads[j]
    ensures forall t, now :: op.now <= now ==> (DirectHeld(Swept(db, op), t, now) <==> DirectHeld(db, t, now))
  {
    SweepAt(db, op.sweep, op.now, j);
    assert j in op.sweep <==> j in ExhaustedJobs(db, op.now);
  }

  /** Every surviving row made one of the listed moves; only terminal rows
      disappear, and only a granted creation adds a row. */
  lemma Classify(db: Db, op: Op, j: JobId)
    requires Enabled(db, op)
    ensures j in db.heads && j in Apply(db, op).heads ==> Moves(db, op, j, db.heads[j], Apply(db, op).heads[j])
    ensures j !in db.heads && j in Apply(db, op).heads ==>
              Granted(db, op, j) && op.Create? && Apply(db, op).heads[j] == InitialHead(op)
    ensures j in db.heads && j !in Apply(db, op).heads ==>
              op.Create? && j in op.evicted && Terminal(db.heads[j].state)
    ensures Apply(db, op).limits == db.limits
  {
    if op.ClaimNext? {
      SweptAt(db, op, j);
      if op.picked.Some? { SweptAt(db, op, op.picked.value); }
    }
  }
}
