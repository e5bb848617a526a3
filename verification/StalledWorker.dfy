/** A trace in which the bound on remote starts is exceeded by a worker that
    stalled before a manual retry: one attempt allowed, two starts after it. */
module StalledWorker {
  import opened Basics
  import opened JobModel
  import opened JobInvariants
  import opened JobRuns
  import opened JobTheorems
  import opened WorkerModel
  import opened WorkerSystem
  import opened RemoteWork

  // ------------------------------------------------------ growing a trace

  function LastDb(t: Trace): Db
    requires t.dbs != []
  {
    t.dbs[|t.dbs| - 1]
  }

  function LastFleet(t: Trace): Fleet
    requires t.fleets != []
  {
    t.fleets[|t.fleets| - 1]
  }

  function Grow(t: Trace, event: Label, op: Op, fleet: Fleet): Trace
    requires t.dbs != []
  {
    Trace.Trace(t.dbs + [Apply(LastDb(t), op)], t.fleets + [fleet], t.labels + [event], t.ops + [op])
  }

  lemma PrefixFresh(dbs: seq<Db>, ops: seq<Op>, db: Db, op: Op, i: nat)
    requires |dbs| == |ops| + 1 && i < |ops| && FreshAt(dbs, ops, i)
    ensures FreshAt(dbs + [db], ops + [op], i)
  {
    assert (dbs + [db])[..i + 1] == dbs[..i + 1];
  }

  lemma GrowRun(dbs: seq<Db>, ops: seq<Op>, op: Op)
    requires IsRun(dbs, ops) && FreshIds(dbs, ops) && Enabled(dbs[|ops|], op)
    requires op.Create? ==> ops == []
    ensures IsRun(dbs + [Apply(dbs[|ops|], op)], ops + [op]) && FreshIds(dbs + [Apply(dbs[|ops|], op)], ops + [op])
  {
    var n, next := |ops|, Apply(dbs[|ops|], op);
    var more, calls := dbs + [next], ops + [op];
    forall i | 0 <= i < |calls| ensures StepAt(more, calls, i) {
      assert i < n ==> StepAt(dbs, ops, i) && more[i] == dbs[i] && more[i + 1] == dbs[i + 1] && calls[i] == ops[i];
    }
    forall i | 0 <= i < |calls| ensures FreshAt(more, calls, i) {
      if i < n {
        PrefixFresh(dbs, ops, next, op, i);
      } else if op.Create? {
        assert more[..1] == [dbs[0]];
        assert Born([dbs[0]]) == Born([dbs[0]][..0]) + dbs[0].heads.Keys;
      }
    }
  }

  lemma GrowTrace(t: Trace, event: Label, op: Op, fleet: Fleet)
    requires IsTrace(t) && Enabled(LastDb(t), op) && (op.Create? ==> t.ops == [])
    requires FleetStep(|t.ops|, LastDb(t), LastFleet(t), event, op, fleet)
    ensures IsTrace(Grow(t, event, op, fleet))
  {
    var u := Grow(t, event, op, fleet);
    GrowRun(t.dbs, t.ops, op);
    forall i | 0 <= i < |u.labels| ensures TraceStep(u, i) {
      if i < |t.labels| {
        assert TraceStep(t, i);
        assert u.dbs[i] == t.dbs[i] && u.fleets[i] == t.fleets[i] && u.fleets[i + 1] == t.fleets[i + 1];
      }
    }
  }

  /** A trace with its last database and fleet. */
  ghost predicate Ends(t: Trace, n: nat, db: Db, fleet: Fleet) {
    IsTrace(t) && |t.ops| == n && t.dbs[n] == db && t.fleets[n] == fleet
  }

  /** `u` is `t` and one call more for each of `ops`. */
  ghost predicate Continues(t: Trace, u: Trace, ops: seq<Op>) {
    u.ops == t.ops + ops && t.dbs <= u.dbs && t.fleets <= u.fleets
  }

  /** A step by an API caller. */
  lemma ByApi(t: Trace, n: nat, db: Db, fleet: Fleet, op: Op) returns (u: Trace)
    requires Ends(t, n, db, fleet) && ApiOp(op) && Enabled(db, op) && (op.Create? ==> n == 0)
    ensures Ends(u, n + 1, Apply(db, op), fleet) && Continues(t, u, [op])
  {
    u := Grow(t, Api(op), op, fleet);
    GrowTrace(t, Api(op), op, fleet);
  }

  lemma ByDispatch(t: Trace, n: nat, db: Db, fleet: Fleet, op: Op) returns (u: Trace)
    requires Ends(t, n, db, fleet) && Enabled(db, op) && op.ClaimNext? && Issued(db, op).Some?
    ensures Ends(u, n + 1, Apply(db, op), fleet[n := Fresh(Issued(db, op).value, false)]) && Continues(t, u, [op])
  {
    var after := fleet[n := Fresh(Issued(db, op).value, false)];
    u := Grow(t, Dispatch(op, false), op, after);
    GrowTrace(t, Dispatch(op, false), op, after);
  }

  lemma ByWorker(t: Trace, n: nat, db: Db, fleet: Fleet, k: nat, s: WorkerStep) returns (u: Trace)
    requires Ends(t, n, db, fleet) && k in fleet && Can(fleet[k], s)
    ensures var op := OpOf(fleet[k], s);
            Ends(u, n + 1, Apply(db, op), fleet[k := Next(db, fleet[k], s)]) && Continues(t, u, [op])
  {
    var op, after := OpOf(fleet[k], s), fleet[k := Next(db, fleet[k], s)];
    u := Grow(t, Work(k, s), op, after);
    GrowTrace(t, Work(k, s), op, after);
  }

  // ------------------------------------------------------------- the claim

  const J: JobId := 7

  function ClaimAt(now: Time, token: Token): Op {
    ClaimNext(1, now, 10, 5, {}, token, [], Some(J))
  }

  /** The only job of the database is free to be claimed. */
  predicate Lone(db: Db, h: Head, now: Time) {
    db.heads == map[J := h] && db.directs == map[] && !Exhausted(h, now) && Claimable(h, now) && !Holding(h, now)
  }

  lemma LoneClaim(db: Db, h: Head, now: Time, token: Token)
    requires Lone(db, h, now)
    ensures Enabled(db, ClaimAt(now, token)) && Issued(db, ClaimAt(now, token)) == Some(IssuedClaim(h, ClaimAt(now, token)))
    ensures Apply(db, ClaimAt(now, token)).heads == map[J := ClaimHead(h, ClaimAt(now, token))]
    ensures Apply(db, ClaimAt(now, token)).directs == map[]
    ensures Apply(db, ClaimAt(now, token)).limits == db.limits
  {
    var op := ClaimAt(now, token);
    assert ExhaustedJobs(db, now) == {};
    assert Swept(db, op) == db;
    assert HoldingJobs(db, now) == {};
    assert FirstCandidate(db, J, now, {});
  }

  // ------------------------------------------------------------- the trace

  /** A host scan that may be attempted once. */
  const SCAN := Job(J, 3, Host, Pending, 0, 0, Some(0), None, None, None, 0, 1, None, None)

  predicate OneShot(h: Head) {
    h.job.id == J && h.job.capability.Host? && h.state == h.job.state && h.job.maxAttempts == 1 == h.maxAttempts
  }

  /** The database holds this one job and nothing else. */
  predicate Alone(db: Db, h: Head) {
    db.heads == map[J := h] && db.directs == map[] && OneShot(h)
  }

  /** A worker about to ask for its target. */
  predicate Ready(w: Worker) {
    w.pc.Heartbeating? && w.exec.FindingTarget? && w.collections == 0 && w.issued.job.id == J && w.issued.job.capability.Host?
  }

  lemma Created() returns (t: Trace, db: Db, h: Head)
    ensures Ends(t, 1, db, map[]) && Alone(db, h) && h.job.state.Pending? && h.job.attempt == 0 && h.attempt == 0
    ensures h.availableAt == Some(0) && h.expiresAt.None?
  {
    var empty, create := Empty(Limits(0, 0)), Create(SCAN, None, None, {});
    t := Trace.Trace([empty], [map[]], [], []);
    t := ByApi(t, 0, empty, map[], create);
    db, h := Apply(empty, create), InitialHead(create);
    assert db.heads == map[J := h];
  }

  /** A new worker finds its spool empty and re-reads its head. */
  lemma Reads(t: Trace, n: nat, db: Db, fleet: Fleet, k: nat, v: Worker) returns (u: Trace)
    requires Ends(t, n, db, fleet) && k in fleet && fleet[k] == v == Fresh(v.issued, false) && v.issued.job.id == J
    requires v.issued.job.capability.Host? && J in db.heads && !db.heads[J].job.state.Cancelling? && !db.heads[J].job.state.Cancelled?
    ensures Ends(u, n + 2, db, fleet[k := BeginExecution(v.(exec := Refreshing))]) && Continues(t, u, [Read, Read])
  {
    u := ByWorker(t, n, db, fleet, k, Answers(Loaded(Nothing)));
    var mid, w := fleet[k := v.(exec := Refreshing)], BeginExecution(v.(exec := Refreshing));
    u := ByWorker(u, n + 1, db, mid, k, Answers(Refreshed));
    assert mid[k := w] == fleet[k := w];
  }

  /** The job is claimed, and the worker gets as far as its first decision. */
  lemma Claimed(t: Trace, n: nat, db: Db, fleet: Fleet, h: Head, now: Time, token: Token) returns (u: Trace, next: Db, w: Worker)
    requires Ends(t, n, db, fleet) && Alone(db, h) && Lone(db, h, now) && !h.job.state.Cancelling? && !h.job.state.Cancelled?
    ensures Alone(next, ClaimHead(h, ClaimAt(now, token)))
    ensures w == BeginExecution(Fresh(IssuedClaim(h, ClaimAt(now, token)), false).(exec := Refreshing))
    ensures Ends(u, n + 3, next, fleet[n := w]) && Continues(t, u, [ClaimAt(now, token), Read, Read])
  {
    var op := ClaimAt(now, token);
    LoneClaim(db, h, now, token);
    u := ByDispatch(t, n, db, fleet, op);
    next := Apply(db, op);
    var v := Fresh(IssuedClaim(h, op), false);
    w := BeginExecution(v.(exec := Refreshing));
    u := Reads(u, n + 1, next, fleet[n := v], n, v);
    assert fleet[n := v][n := w] == fleet[n := w];
  }

  /** A worker that gave up for good while it holds the lease. */
  predicate GaveUp(w: Worker, h: Head, now: Time) {
    && w == Fresh(w.issued, false).(exec := Ended(Raised(Fault(false, 1))))
    && w.issued.job == h.job && h.job.state.Running? && HoldsLease(h, w.issued) && Holding(h, now) && h.heartbeatAt == Some(now)
  }

  /** The lease it renews, the failure it decides on, and the head it leaves. */
  function Renewed(w: Worker, now: Time): Worker {
    w.(pc := FinalRenew, reply := Some(RenewOk(w.claim.(expiresAt := now + 10))))
  }

  lemma GivesUp(db: Db, w: Worker, h: Head, now: Time)
    requires Alone(db, h) && GaveUp(w, h, now)
    ensures Next(db, w.(pc := FinalRenew), CallRenew(now, 10, false)) == Renewed(w, now)
    ensures Apply(db, Renew(w.claim, now, 10)) == db.(heads := map[J := RenewHead(h, now, 10)])
  {
    assert Leased(db, w.claim, now);
    assert db.heads[J := RenewHead(h, now, 10)] == map[J := RenewHead(h, now, 10)];
  }

  lemma Decides(w: Worker, h: Head, now: Time)
    requires OneShot(h) && GaveUp(w, h, now)
    ensures var d := Resume(Renewed(w, now), now, 0);
            && d == w.(pc := Committing, reply := None, claim := w.claim.(expiresAt := now + 10), latest := d.latest)
            && d.latest.Some? && d.latest.value.state.Failed? && SameWork(h.job, d.latest.value)
  {}

  lemma Commits(db: Db, w: Worker, h: Head, now: Time)
    requires Alone(db, RenewHead(h, now, 10)) && GaveUp(w, h, now)
    ensures var d := Resume(Renewed(w, now), now, 0);
            && Can(d, CallComplete(now, false)) && Next(db, d, CallComplete(now, false)).collections == 0
            && Next(db, d, CallComplete(now, false)).issued == w.issued
            && Apply(db, OpOf(d, CallComplete(now, false))).directs == map[]
            && Apply(db, OpOf(d, CallComplete(now, false))).heads == map[J := CompleteHead(RenewHead(h, now, 10), d.latest.value)]
  {
    Decides(w, h, now);
    var d := Resume(Renewed(w, now), now, 0);
    var op := OpOf(d, CallComplete(now, false));
    assert Leased(db, d.claim, now) && CompleteGranted(db, op);
    assert db.heads[J := CompleteHead(db.heads[J], op.job)] == map[J := CompleteHead(db.heads[J], op.job)];
  }

  /** It renews its lease for the last time and decides. */
  lemma Renews(t: Trace, n: nat, db: Db, fleet: Fleet, k: nat, h: Head, now: Time) returns (u: Trace, next: Db)
    requires Ends(t, n, db, fleet) && k in fleet && Alone(db, h) && GaveUp(fleet[k], h, now)
    ensures Ends(u, n + 3, next, fleet[k := Resume(Renewed(fleet[k], now), now, 0)]) && Alone(next, RenewHead(h, now, 10))
  {
    var w := fleet[k];
    u := ByWorker(t, n, db, fleet, k, ExecutionReturns);
    var f1 := fleet[k := w.(pc := FinalRenew)];
    GivesUp(db, w, h, now);
    u := ByWorker(u, n + 1, db, f1, k, CallRenew(now, 10, false));
    assert f1[k := Renewed(w, now)] == fleet[k := Renewed(w, now)];
    next := db.(heads := map[J := RenewHead(h, now, 10)]);
    var d := Resume(Renewed(w, now), now, 0);
    u := ByWorker(u, n + 2, next, fleet[k := Renewed(w, now)], k, Resumes(now, 0));
    assert fleet[k := Renewed(w, now)][k := d] == fleet[k := d];
  }

  /** It commits the failure, and the operator retries the job by hand. */
  lemma Retried(t: Trace, n: nat, db: Db, fleet: Fleet, k: nat, h: Head, now: Time) returns (u: Trace, next: Db, head: Head, v: Worker)
    requires Ends(t, n, db, fleet) && k in fleet && Alone(db, h) && GaveUp(fleet[k], h, now)
    ensures Ends(u, n + 5, next, fleet[k := v]) && v.collections == 0 && v.issued == fleet[k].issued
    ensures Alone(next, head) && head.job.state.Pending? && head.job.attempt == 0 && head.attempt == 0
    ensures head.availableAt == Some(now) && head.expiresAt.None?
  {
    var db1;
    u, db1 := Renews(t, n, db, fleet, k, h, now);
    var w := fleet[k];
    var d := Resume(Renewed(w, now), now, 0);
    Decides(w, h, now);
    Commits(db1, w, h, now);
    v := Next(db1, d, CallComplete(now, false));
    u := ByWorker(u, n + 3, db1, fleet[k := d], k, CallComplete(now, false));
    assert fleet[k := d][k := v] == fleet[k := v];
    var db2 := Apply(db1, OpOf(d, CallComplete(now, false)));
    u := ByApi(u, n + 4, db2, fleet[k := v], ManualRetry(J, now));
    next, head := Apply(db2, ManualRetry(J, now)), RetryHead(CompleteHead(RenewHead(h, now, 10), d.latest.value), now);
    assert next.heads == map[J := head];
  }

  /** A worker that waits for its target finds it and starts. */
  lemma FindsTarget(t: Trace, n: nat, db: Db, fleet: Fleet, k: nat) returns (u: Trace, after: Fleet)
    requires Ends(t, n, db, fleet) && k in fleet && Ready(fleet[k])
    ensures Ends(u, n + 1, db, after) && Started(after, k, J) && Continues(t, u, [Read])
    ensures forall i :: i in fleet && i != k ==> i in after && after[i] == fleet[i]
  {
    var s := Answers(Supported(true, true));
    u := ByWorker(t, n, db, fleet, k, s);
    after := fleet[k := Next(db, fleet[k], s)];
  }

  // -------------------------------------------------------------- together

  /** Up to the retry: the first worker sleeps, the second has failed the job. */
  lemma UpToRetry() returns (t: Trace, db: Db, h: Head, fleet: Fleet)
    ensures Ends(t, 12, db, fleet) && Alone(db, h) && h.job.state.Pending? && h.job.attempt == 0 && h.attempt == 0
    ensures h.availableAt == Some(20) && h.expiresAt.None?
    ensures fleet.Keys == {1, 4} && Ready(fleet[1]) && fleet[4].collections == 0
  {
    t, db, h := Created();
    var w;
    t, db, w := Claimed(t, 1, db, map[], h, 0, 11);
    var h1 := ClaimHead(h, ClaimAt(0, 11));
    var f1: Fleet := map[][1 := w];
    assert Ready(w);
    var v;
    t, db, v := Claimed(t, 4, db, f1, h1, 20, 12);
    assert GaveUp(v, ClaimHead(h1, ClaimAt(20, 12)), 20);
    var f2 := f1[4 := v];
    t, db, h, v := Retried(t, 7, db, f2, 4, ClaimHead(h1, ClaimAt(20, 12)), 20);
    fleet := f2[4 := v];
  }

  lemma AfterRetry(t0: Trace, db: Db, h: Head, fleet: Fleet) returns (t: Trace, db1: Db, after: Fleet)
    requires Ends(t0, 12, db, fleet) && Alone(db, h) && h.job.state.Pending? && h.job.attempt == 0 && h.attempt == 0
    requires h.availableAt == Some(20) && h.expiresAt.None? && 1 in fleet && Ready(fleet[1]) && 12 !in fleet
    ensures Ends(t, 17, db1, after) && J in db1.heads && Continues(t0, t, [ClaimAt(31, 13), Read, Read, Read, Read])
    ensures Started(after, 1, J) && Started(after, 12, J)
  {
    var w;
    t, db1, w := Claimed(t0, 12, db, fleet, h, 31, 13);
    assert Ready(w);
    var mid := fleet[12 := w];
    t, after := FindsTarget(t, 15, db1, mid, 12);
    t, after := FindsTarget(t, 16, db1, after, 1);
  }

  /** One attempt is allowed, no retry happens in between, and yet remote work
      starts twice: the stalled worker adds its own start. */
  lemma StalledWorkerStartsAfterRetry() returns (t: Trace)
    ensures IsTrace(t) && |t.ops| == 17 && NoRetry(t.dbs, t.ops, 12, 17, J)
    ensures J in t.dbs[12].heads && J in t.dbs[17].heads && t.dbs[12].heads[J].job.maxAttempts == 1
    ensures |StartSteps(t, 12, 17, J)| >= 2
  {
    var t0, db, h, fleet := UpToRetry();
    var db1, after;
    t, db1, after := AfterRetry(t0, db, h, fleet);
    assert t.dbs[12] == t0.dbs[12] && t.fleets[12] == t0.fleets[12];
    assert t.ops[12..17] == [ClaimAt(31, 13), Read, Read, Read, Read];
    assert forall i :: 12 <= i < 17 ==> t.ops[i] == t.ops[12..17][i - 12];
    StartersCount(t, 12, 17, J);
    assert Starters(t, 12, J) == {};
    assert 1 in Starters(t, 17, J) && 12 in Starters(t, 17, J);
    SubsetCard({1, 12}, Starters(t, 17, J));
  }
}
