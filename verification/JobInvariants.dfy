/** State invariants of the queue: columns repeat the payload, lease columns
    belong to active rows, attempts are bounded, capacity and history are
    bounded, and each job's retained history leads up to its head. */
module JobInvariants {
  import opened Basics
  import opened JobModel
  import opened JobMoves

  // ------------------------------------------------------------------ heads

  /** The query columns repeat the payload. */
  predicate ColumnsAgree(j: JobId, h: Head) {
    && h.job.id == j && h.state == h.job.state && h.target == h.job.target
    && h.createdAt == h.job.createdAt && h.updatedAt == h.job.updatedAt && h.availableAt == h.job.availableAt
    && h.attempt == h.job.attempt && h.maxAttempts == h.job.maxAttempts
  }

  /** Lease columns are set all together, and only on active rows. */
  predicate LeaseShape(h: Head) {
    && h.state == h.job.state
    && h.owner.Some? == h.token.Some? == h.expiresAt.Some? == h.heartbeatAt.Some?
    && (h.token.Some? ==> Active(h.state))
  }

  predicate AttemptBounded(job: Job) { job.attempt <= job.maxAttempts + 1 }

  predicate HeadOk(j: JobId, h: Head) { ColumnsAgree(j, h) && LeaseShape(h) && AttemptBounded(h.job) }

  ghost predicate HeadsOk(db: Db) { forall j :: j in db.heads ==> HeadOk(j, db.heads[j]) }

  ghost predicate LeasesOk(db: Db) { forall j :: j in db.heads ==> LeaseShape(db.heads[j]) }

  /** Lease columns stay in shape whatever callers pass. */
  lemma LeasesKept(db: Db, op: Op)
    requires LeasesOk(db) && Enabled(db, op)
    ensures LeasesOk(Apply(db, op))
  {
    forall j | j in Apply(db, op).heads ensures LeaseShape(Apply(db, op).heads[j]) {
      Classify(db, op, j);
    }
  }

  /** What a completing worker leaves alone in the payload it was given. */
  predicate SameWork(a: Job, b: Job) {
    && a.id == b.id && a.target == b.target && a.capability == b.capability && a.createdAt == b.createdAt
    && a.attempt == b.attempt && a.maxAttempts == b.maxAttempts
  }

  /** The discipline of the callers: completions describe the leased work, and
      created jobs have not already used up their attempts. */
  predicate Disciplined(db: Db, op: Op) {
    && (op.Complete? && CompleteGranted(db, op) ==> SameWork(db.heads[op.job.id].job, op.job))
    && (op.Create? ==> AttemptBounded(op.job))
  }

  lemma HeadsOkKept(db: Db, op: Op)
    requires HeadsOk(db) && Enabled(db, op) && Disciplined(db, op)
    ensures HeadsOk(Apply(db, op))
  {
    forall j | j in Apply(db, op).heads ensures HeadOk(j, Apply(db, op).heads[j]) {
      Classify(db, op, j);
    }
  }

  /** The discipline on completions is exactly what agreement needs: a granted
      completion leaves the columns equal to the payload if and only if the
      worker kept the target and the creation time. */
  lemma CompletionAgreesIff(db: Db, op: Op)
    requires HeadsOk(db) && op.Complete? && CompleteGranted(db, op)
    ensures ColumnsAgree(op.job.id, Apply(db, op).heads[op.job.id]) <==>
              (op.job.target == db.heads[op.job.id].job.target && op.job.createdAt == db.heads[op.job.id].job.createdAt)
  {
    assert HeadOk(op.job.id, db.heads[op.job.id]);
  }

  // --------------------------------------------------------------- capacity

  ghost predicate CapacityOk(db: Db) {
    && (db.limits.maxJobs > 0 ==> |db.heads| <= db.limits.maxJobs)
    && (db.limits.maxHistory > 0 ==> |db.events| <= db.limits.maxHistory)
  }

  lemma {:induction false} SweepCapacity(db: Db, ids: seq<JobId>, now: Time)
    requires CapacityOk(db)
    ensures CapacityOk(Sweep(db, ids, now))
    decreases |ids|
  {
    if ids != [] {
      if ids[0] in db.heads {
        var d := Put(db, ids[0], FailExhausted(db.heads[ids[0]], now), now);
        assert d.heads.Keys == db.heads.Keys;
        assert |d.heads| == |d.heads.Keys| == |db.heads.Keys| == |db.heads|;
        SweepCapacity(d, ids[1..], now);
      } else {
        SweepCapacity(db, ids[1..], now);
      }
    }
  }

  lemma PutCapacity(db: Db, j: JobId, h: Head, at: Time)
    requires CapacityOk(db) && j in db.heads
    ensures CapacityOk(Put(db, j, h, at))
  {
    assert Put(db, j, h, at).heads.Keys == db.heads.Keys;
    assert |Put(db, j, h, at).heads.Keys| == |db.heads.Keys|;
  }

  lemma RoomCard(keys: set<JobId>, evicted: set<JobId>, j: JobId)
    requires evicted <= keys && j !in keys
    ensures |keys - evicted + {j}| == |keys| - |evicted| + 1 && (evicted != {} ==> |evicted| > 0)
  {
    assert |keys - evicted| == |keys| - |evicted|;
  }

  /** Making room always frees at least one row when the table is full. */
  lemma CreateCapacity(db: Db, op: Op)
    requires CapacityOk(db) && op.Create? && CreateGranted(db, op) && Enabled(db, op)
    ensures CapacityOk(Apply(db, op))
  {
    var next := Apply(db, op);
    RoomCard(db.heads.Keys, op.evicted, op.job.id);
    assert next.heads.Keys == db.heads.Keys - op.evicted + {op.job.id};
    assert |next.heads.Keys| == |next.heads| && |db.heads.Keys| == |db.heads|;
  }

  lemma CapacityKept(db: Db, op: Op)
    requires CapacityOk(db) && Enabled(db, op)
    ensures CapacityOk(Apply(db, op))
  {
    match op
    case Create(_, _, _, _) =>
      if CreateGranted(db, op) { CreateCapacity(db, op); }
    case ClaimNext(_, now, _, _, _, _, sweep, picked) =>
      SweepCapacity(db, sweep, now);
      var d := Swept(db, op);
      if picked.Some? && picked.value in d.heads { PutCapacity(d, picked.value, ClaimHead(d.heads[picked.value], op), now); }
    case Acquire(target, _, now, _, _) =>
      assert FenceTarget(db, target, now).Keys == db.heads.Keys;
      assert |FenceTarget(db, target, now).Keys| == |db.heads.Keys|;
    case Renew(c, now, ttl) =>
      if Leased(db, c, now) {
        assert db.heads[c.job.id := RenewHead(db.heads[c.job.id], now, ttl)].Keys == db.heads.Keys;
        assert |db.heads[c.job.id := RenewHead(db.heads[c.job.id], now, ttl)].Keys| == |db.heads.Keys|;
      }
    case Complete(_, job, _) =>
      if CompleteGranted(db, op) { PutCapacity(db, job.id, CompleteHead(db.heads[job.id], job), Encode(job).updatedAt); }
    case RequestCancel(id, now) =>
      if id in db.heads { PutCapacity(db, id, CancelHead(db.heads[id], now), now); }
    case ManualRetry(id, now) =>
      if id in db.heads { PutCapacity(db, id, RetryHead(db.heads[id], now), now); }
    case UpdateDerived(id, seen, now) =>
      if id in db.heads && DerivedOpen(db.heads[id].job) { PutCapacity(db, id, DeriveHead(db.heads[id], seen, now), now); }
    case _ =>
  }

  // ------------------------------------------------------- idempotency keys

  /** No two heads hold one idempotency key. */
  ghost predicate KeysUnique(db: Db) {
    forall i, j :: i in db.heads && j in db.heads && i != j && db.heads[i].key.Some? ==> db.heads[i].key != db.heads[j].key
  }

  lemma KeysKept(db: Db, op: Op)
    requires KeysUnique(db) && Enabled(db, op)
    ensures KeysUnique(Apply(db, op))
  {
    var next := Apply(db, op);
    forall i, j | i in next.heads && j in next.heads && i != j && next.heads[i].key.Some?
      ensures next.heads[i].key != next.heads[j].key
    {
      Classify(db, op, i);
      Classify(db, op, j);
    }
  }

  // ---------------------------------------------------------------- history

  /** The retained events of one job, oldest first. */
  function History(events: seq<Event>, j: JobId): seq<Event> {
    if events == [] then []
    else
      var rest := History(events[..|events| - 1], j);
      if events[|events| - 1].id == j then rest + [events[|events| - 1]] else rest
  }

  /** Consecutive revisions that end at the head, whose payload is the newest. */
  predicate LeadsTo(history: seq<Event>, h: Head) {
    && (forall k :: 0 <= k < |history| ==> history[k].revision == h.revision - (|history| - 1 - k))
    && (history != [] ==> history[|history| - 1].payload == h.job)
  }

  ghost predicate HistoryOk(db: Db) {
    forall j :: j in db.heads ==> LeadsTo(History(db.events, j), db.heads[j])
  }

  lemma {:induction false} HistoryOfSuffix(events: seq<Event>, n: nat, j: JobId)
    requires n <= |events|
    ensures |History(events[n..], j)| <= |History(events, j)|
    ensures History(events[n..], j) == History(events, j)[|History(events, j)| - |History(events[n..], j)|..]
  {
    if n < |events| {
      HistoryOfSuffix(events[..|events| - 1], n, j);
      assert events[n..][..|events[n..]| - 1] == events[..|events| - 1][n..];
    } else {
      assert events[n..] == [];
    }
  }

  lemma SuffixLeadsTo(history: seq<Event>, m: nat, h: Head)
    requires m <= |history| && LeadsTo(history, h)
    ensures LeadsTo(history[m..], h)
  {
    assert forall k :: 0 <= k < |history| - m ==> history[m..][k] == history[m + k];
  }

  lemma AppendHistory(events: seq<Event>, e: Event, i: JobId)
    ensures History(events + [e], i) == if e.id == i then History(events, i) + [e] else History(events, i)
  {
    assert (events + [e])[..|events + [e]| - 1] == events;
  }

  lemma TrimHistory(events: seq<Event>, maxHistory: nat, i: JobId, h: Head)
    requires LeadsTo(History(events, i), h)
    ensures LeadsTo(History(Trim(events, maxHistory), i), h)
  {
    if Trim(events, maxHistory) != events {
      var n := |events| - maxHistory;
      HistoryOfSuffix(events, n, i);
      SuffixLeadsTo(History(events, i), |History(events, i)| - |History(events[n..], i)|, h);
    }
  }

  /** Storing the next revision of one head keeps every history in step. */
  lemma PutKeepsHistory(db: Db, j: JobId, h: Head, at: Time)
    requires HistoryOk(db)
    requires if j in db.heads then h.revision == db.heads[j].revision + 1 else History(db.events, j) == []
    ensures HistoryOk(Put(db, j, h, at))
  {
    var e := Event(j, h.revision, at, h.job);
    forall i | i in Put(db, j, h, at).heads
      ensures LeadsTo(History(Put(db, j, h, at).events, i), Put(db, j, h, at).heads[i])
    {
      var k := if i == j then h else db.heads[i];
      AppendHistory(db.events, e, i);
      assert LeadsTo(History(db.events + [e], i), k) by {
        if i in db.heads { assert LeadsTo(History(db.events, i), db.heads[i]); }
      }
      TrimHistory(db.events + [e], db.limits.maxHistory, i, k);
    }
  }

  lemma {:induction false} SweepKeepsHistory(db: Db, ids: seq<JobId>, now: Time)
    requires HistoryOk(db)
    ensures HistoryOk(Sweep(db, ids, now))
    decreases |ids|
  {
    if ids != [] {
      if ids[0] in db.heads {
        PutKeepsHistory(db, ids[0], FailExhausted(db.heads[ids[0]], now), now);
        SweepKeepsHistory(Put(db, ids[0], FailExhausted(db.heads[ids[0]], now), now), ids[1..], now);
      } else {
        SweepKeepsHistory(db, ids[1..], now);
      }
    }
  }

  lemma HistoryKept(db: Db, op: Op)
    requires HistoryOk(db) && Enabled(db, op)
    requires op.Create? && CreateGranted(db, op) ==> History(db.events, op.job.id) == []
    ensures HistoryOk(Apply(db, op))
  {
    match op
    case Create(job, _, _, evicted) =>
      if CreateGranted(db, op) {
        PutKeepsHistory(db.(heads := db.heads - evicted), job.id, InitialHead(op), InitialHead(op).updatedAt);
      }
    case ClaimNext(_, now, _, _, _, _, sweep, picked) =>
      SweepKeepsHistory(db, sweep, now);
      var d := Swept(db, op);
      if picked.Some? && picked.value in d.heads && ClaimArgumentsOk(op) {
        PutKeepsHistory(d, picked.value, ClaimHead(d.heads[picked.value], op), now);
      }
    case Complete(_, job, _) =>
      if CompleteGranted(db, op) {
        PutKeepsHistory(db, job.id, CompleteHead(db.heads[job.id], job), Encode(job).updatedAt);
      }
    case RequestCancel(id, now) =>
      if id in db.heads && Cancellable(db.heads[id].job.state) { PutKeepsHistory(db, id, CancelHead(db.heads[id], now), now); }
    case ManualRetry(id, now) =>
      if id in db.heads && Retryable(db.heads[id].job.state) { PutKeepsHistory(db, id, RetryHead(db.heads[id], now), now); }
    case UpdateDerived(id, seen, now) =>
      if id in db.heads && DerivedOpen(db.heads[id].job) {
        PutKeepsHistory(db, id, DeriveHead(db.heads[id], seen, now), now);
      }
    case _ =>
  }
}
