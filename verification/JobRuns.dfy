/** Properties of whole runs of the queue: any interleaving of repository calls
    by any number of workers and API callers, started on an empty database. */
module JobRuns {
  import opened Basics
  import opened JobModel
  import opened JobMoves
  import opened JobInvariants

  function Empty(limits: Limits): Db { Db(limits, map[], map[], []) }

  ghost predicate StepAt(states: seq<Db>, ops: seq<Op>, i: nat)
    requires i < |ops| && |states| == |ops| + 1
  {
    Enabled(states[i], ops[i]) && states[i + 1] == Apply(states[i], ops[i])
  }

  ghost predicate IsRun(states: seq<Db>, ops: seq<Op>) {
    && |states| == |ops| + 1
    && states[0] == Empty(states[0].limits)
    && forall i :: 0 <= i < |ops| ==> StepAt(states, ops, i)
  }

  /** Every job id that has had a head so far. */
  function Born(states: seq<Db>): set<JobId> {
    if states == [] then {} else Born(states[..|states| - 1]) + states[|states| - 1].heads.Keys
  }

  ghost predicate FreshAt(states: seq<Db>, ops: seq<Op>, i: nat)
    requires i < |ops| && |states| == |ops| + 1
  {
    ops[i].Create? && CreateGranted(states[i], ops[i]) ==> ops[i].job.id !in Born(states[..i + 1])
  }

  /** The run creates no job whose id it has used before. */
  ghost predicate FreshIds(states: seq<Db>, ops: seq<Op>)
    requires |states| == |ops| + 1
  {
    forall i :: 0 <= i < |ops| ==> FreshAt(states, ops, i)
  }

  ghost predicate DisciplinedRun(states: seq<Db>, ops: seq<Op>)
    requires |states| == |ops| + 1
  {
    forall i :: 0 <= i < |ops| ==> Disciplined(states[i], ops[i])
  }

  lemma {:induction false} BornGrows(states: seq<Db>, i: nat, k: nat)
    requires i < k <= |states|
    ensures states[i].heads.Keys <= Born(states[..k])
    decreases k
  {
    assert states[..k][..k - 1] == states[..k - 1];
    if i < k - 1 { BornGrows(states, i, k - 1); }
  }

  // ------------------------------------------------------- table invariants

  /** Heads are well formed, within capacity and keyed uniquely in every state. */
  lemma {:induction false} TablesAlwaysOk(states: seq<Db>, ops: seq<Op>, k: nat)
    requires IsRun(states, ops) && DisciplinedRun(states, ops) && k <= |ops|
    ensures HeadsOk(states[k]) && CapacityOk(states[k]) && KeysUnique(states[k])
  {
    if k > 0 {
      TablesAlwaysOk(states, ops, k - 1);
      assert StepAt(states, ops, k - 1);
      HeadsOkKept(states[k - 1], ops[k - 1]);
      CapacityKept(states[k - 1], ops[k - 1]);
      KeysKept(states[k - 1], ops[k - 1]);
    }
  }

  lemma {:induction false} LeasesAlwaysOk(states: seq<Db>, ops: seq<Op>, k: nat)
    requires IsRun(states, ops) && k <= |ops|
    ensures LeasesOk(states[k])
  {
    if k > 0 {
      LeasesAlwaysOk(states, ops, k - 1);
      assert StepAt(states, ops, k - 1);
      LeasesKept(states[k - 1], ops[k - 1]);
    }
  }

  predicate EventsKnown(events: seq<Event>, ids: set<JobId>) {
    forall e :: e in events ==> e.id in ids
  }

  lemma {:induction false} SweepEvents(db: Db, ids: seq<JobId>, now: Time, known: set<JobId>)
    requires EventsKnown(db.events, known) && db.heads.Keys <= known
    ensures EventsKnown(Sweep(db, ids, now).events, known)
    decreases |ids|
  {
    if ids != [] {
      if ids[0] in db.heads {
        var d := Put(db, ids[0], FailExhausted(db.heads[ids[0]], now), now);
        assert d.heads.Keys == db.heads.Keys;
        SweepEvents(d, ids[1..], now, known);
      } else {
        SweepEvents(db, ids[1..], now, known);
      }
    }
  }

  lemma EventsStayKnown(db: Db, op: Op, known: set<JobId>)
    requires Enabled(db, op) && EventsKnown(db.events, known) && db.heads.Keys <= known
    ensures EventsKnown(Apply(db, op).events, known + Apply(db, op).heads.Keys)
  {
    if op.ClaimNext? { SweepEvents(db, op.sweep, op.now, known); }
  }

  lemma {:induction false} NoHistory(events: seq<Event>, j: JobId)
    requires forall e :: e in events ==> e.id != j
    ensures History(events, j) == []
  {
    if events != [] { NoHistory(events[..|events| - 1], j); }
  }

  /** In every state each job's retained events are consecutive revisions that
      end at its head, the newest holding the head's payload. */
  lemma {:induction false} HistoryAlwaysLeadsToHead(states: seq<Db>, ops: seq<Op>, k: nat)
    requires IsRun(states, ops) && FreshIds(states, ops) && k <= |ops|
    ensures HistoryOk(states[k])
    ensures EventsKnown(states[k].events, Born(states[..k + 1]))
  {
    assert states[..k + 1][..k] == states[..k];
    if k > 0 {
      HistoryAlwaysLeadsToHead(states, ops, k - 1);
      assert StepAt(states, ops, k - 1);
      assert states[..k] == states[..(k - 1) + 1];
      BornGrows(states, k - 1, k);
      EventsStayKnown(states[k - 1], ops[k - 1], Born(states[..k]));
      assert FreshAt(states, ops, k - 1);
      if ops[k - 1].Create? && CreateGranted(states[k - 1], ops[k - 1]) {
        NoHistory(states[k - 1].events, ops[k - 1].job.id);
      }
      HistoryKept(states[k - 1], ops[k - 1]);
    }
  }

  // ----------------------------------------------------------------- fencing

  /** The claim's generation is over: a later epoch, or its own epoch unleased. */
  predicate Dead(db: Db, c: Claim) {
    c.job.id in db.heads ==>
      var h := db.heads[c.job.id];
      c.epoch < h.epoch || (c.epoch == h.epoch && h.token.None?)
  }

  /** The job's epoch has reached the claim's. */
  predicate Reached(db: Db, c: Claim) {
    c.job.id in db.heads ==> c.epoch <= db.heads[c.job.id].epoch
  }

  /** The step does not bring the claim's job id back after an eviction. */
  predicate NotReborn(db: Db, op: Op, c: Claim) {
    op.Create? && CreateGranted(db, op) ==> op.job.id != c.job.id
  }

  lemma DeadStaysDead(db: Db, op: Op, c: Claim)
    requires Enabled(db, op) && Dead(db, c) && NotReborn(db, op, c)
    ensures Dead(Apply(db, op), c)
  {
    Classify(db, op, c.job.id);
  }

  lemma ReachedStays(db: Db, op: Op, c: Claim)
    requires Enabled(db, op) && Reached(db, c) && NotReborn(db, op, c)
    ensures Reached(Apply(db, op), c)
  {
    Classify(db, op, c.job.id);
  }

  lemma IssuedHolds(db: Db, op: Op, c: Claim)
    requires Enabled(db, op) && Issued(db, op) == Some(c) && LeasesOk(db) && HeadsNamed(db)
    ensures c.job.id in db.heads && op.picked == Some(c.job.id)
    ensures c == IssuedClaim(db.heads[c.job.id], op)
    ensures Apply(db, op).heads[c.job.id] == ClaimHead(db.heads[c.job.id], op)
    ensures FirstCandidate(Swept(db, op), c.job.id, op.now, op.exclude)
    ensures |HoldingJobs(Swept(db, op), op.now)| < op.maxRunning
    ensures HoldsLease(Apply(db, op).heads[c.job.id], c) && Reached(Apply(db, op), c)
  {
    SweptAt(db, op, op.picked.value);
    Classify(db, op, op.picked.value);
  }

  ghost predicate HeadsNamed(db: Db) { forall j :: j in db.heads ==> db.heads[j].job.id == j }

  lemma {:induction false} HeadsAlwaysNamed(states: seq<Db>, ops: seq<Op>, k: nat)
    requires IsRun(states, ops) && k <= |ops|
    ensures HeadsNamed(states[k])
  {
    if k > 0 {
      HeadsAlwaysNamed(states, ops, k - 1);
      assert StepAt(states, ops, k - 1);
      forall j | j in states[k].heads ensures states[k].heads[j].job.id == j { Classify(states[k - 1], ops[k - 1], j); }
    }
  }

  /** Calls that end the claim's generation: a newer claim of the job, its
      completion, its manual retry, or a direct operation granted on its target. */
  predicate Ends(db: Db, op: Op, c: Claim) {
    && c.job.id in db.heads
    && (|| (op.ClaimNext? && Issued(db, op).Some? && op.picked == Some(c.job.id))
        || (op.Complete? && CompleteGranted(db, op) && op.job.id == c.job.id)
        || (op.ManualRetry? && op.id == c.job.id && Retryable(db.heads[op.id].job.state))
        || (op.Acquire? && AcquireGranted(db, op) && db.heads[c.job.id].target == op.target))
  }

  lemma EndedIsDead(db: Db, op: Op, c: Claim)
    requires Enabled(db, op) && LeasesOk(db) && Reached(db, c) && Ends(db, op, c)
    ensures Dead(Apply(db, op), c)
  {
    Classify(db, op, c.job.id);
    if op.Acquire? {
      var h := db.heads[c.job.id];
      assert LeaseShape(h);
      assert !Holding(h, op.now);
    }
  }

  lemma RebornNever(states: seq<Db>, ops: seq<Op>, i: nat, k: nat, c: Claim)
    requires IsRun(states, ops) && FreshIds(states, ops) && i <= k < |ops| && c.job.id in states[i].heads
    ensures NotReborn(states[k], ops[k], c)
  {
    BornGrows(states, i, k + 1);
    assert FreshAt(states, ops, k);
  }

  lemma DeadStep(states: seq<Db>, ops: seq<Op>, i: nat, k: nat, c: Claim)
    requires IsRun(states, ops) && FreshIds(states, ops) && i <= k < |ops|
    requires c.job.id in states[i].heads && Dead(states[k], c)
    ensures Dead(states[k + 1], c)
  {
    RebornNever(states, ops, i, k, c);
    assert StepAt(states, ops, k);
    DeadStaysDead(states[k], ops[k], c);
  }

  lemma {:induction false} DeadForEver(states: seq<Db>, ops: seq<Op>, i: nat, m: nat, k: nat, c: Claim)
    requires IsRun(states, ops) && FreshIds(states, ops) && i <= m <= k <= |ops|
    requires c.job.id in states[i].heads && Dead(states[m], c)
    ensures Dead(states[k], c)
    decreases k
  {
    if m < k {
      DeadForEver(states, ops, i, m, k - 1, c);
      DeadStep(states, ops, i, k - 1, c);
    }
  }

  lemma ReachedStep(states: seq<Db>, ops: seq<Op>, i: nat, k: nat, c: Claim)
    requires IsRun(states, ops) && FreshIds(states, ops) && i <= k < |ops|
    requires c.job.id in states[i].heads && Reached(states[k], c)
    ensures Reached(states[k + 1], c)
  {
    RebornNever(states, ops, i, k, c);
    assert StepAt(states, ops, k);
    ReachedStays(states[k], ops[k], c);
  }

  lemma IssuedReached(states: seq<Db>, ops: seq<Op>, i: nat, c: Claim)
    requires IsRun(states, ops) && i < |ops| && Issued(states[i], ops[i]) == Some(c)
    ensures c.job.id in states[i].heads && Reached(states[i + 1], c)
  {
    LeasesAlwaysOk(states, ops, i);
    HeadsAlwaysNamed(states, ops, i);
    assert StepAt(states, ops, i);
    IssuedHolds(states[i], ops[i], c);
  }

  lemma {:induction false} ReachedForEver(states: seq<Db>, ops: seq<Op>, i: nat, k: nat, c: Claim)
    requires IsRun(states, ops) && FreshIds(states, ops) && i < k <= |ops|
    requires Issued(states[i], ops[i]) == Some(c)
    ensures c.job.id in states[i].heads && Reached(states[k], c)
    decreases k
  {
    IssuedReached(states, ops, i, c);
    if i + 1 < k {
      ReachedForEver(states, ops, i, k - 1, c);
      ReachedStep(states, ops, i, k - 1, c);
    }
  }

  /** A claim whose generation has ended never passes the lease gate again,
      whatever clock reading it presents. */
  lemma StaleOwnerNeverPasses(states: seq<Db>, ops: seq<Op>, i: nat, m: nat, k: nat, c: Claim, now: Time)
    requires IsRun(states, ops) && FreshIds(states, ops) && i < m < k <= |ops|
    requires Issued(states[i], ops[i]) == Some(c) && Ends(states[m], ops[m], c)
    ensures !Leased(states[k], c, now)
  {
    ReachedForEver(states, ops, i, m, c);
    LeasesAlwaysOk(states, ops, m);
    assert StepAt(states, ops, m);
    EndedIsDead(states[m], ops[m], c);
    DeadForEver(states, ops, i, m + 1, k, c);
  }

  /** Epochs issued for one job strictly increase, so of all claims ever issued
      for it only the newest can renew or complete, under any clock. */
  lemma OnlyNewestClaimPasses(states: seq<Db>, ops: seq<Op>, i: nat, m: nat, k: nat, older: Claim, newer: Claim, now: Time)
    requires IsRun(states, ops) && FreshIds(states, ops) && i < m < k <= |ops|
    requires Issued(states[i], ops[i]) == Some(older) && Issued(states[m], ops[m]) == Some(newer)
    requires older.job.id == newer.job.id
    ensures older.epoch < newer.epoch
    ensures !Leased(states[k], older, now)
  {
    ReachedForEver(states, ops, i, m, older);
    LeasesAlwaysOk(states, ops, m);
    HeadsAlwaysNamed(states, ops, m);
    assert StepAt(states, ops, m);
    IssuedHolds(states[m], ops[m], newer);
    StaleOwnerNeverPasses(states, ops, i, m, k, older, now);
  }

  /** A granted direct operation kills every claim issued earlier on its target
      for ever: after its release, and for clocks that run backwards. */
  lemma DirectOperationFences(states: seq<Db>, ops: seq<Op>, i: nat, m: nat, k: nat, c: Claim, now: Time)
    requires IsRun(states, ops) && FreshIds(states, ops) && i < m < k <= |ops|
    requires Issued(states[i], ops[i]) == Some(c) && c.job.id in states[i].heads
    requires ops[m].Acquire? && AcquireGranted(states[m], ops[m]) && ops[m].target == states[i].heads[c.job.id].target
    ensures !Leased(states[k], c, now)
  {
    ReachedForEver(states, ops, i, m, c);
    if c.job.id in states[m].heads {
      TargetFixed(states, ops, i, m, c.job.id);
      StaleOwnerNeverPasses(states, ops, i, m, k, c, now);
    } else {
      DeadForEver(states, ops, i, m, k, c);
    }
  }

  /** A job keeps its target for as long as it has a head. */
  lemma {:induction false} TargetFixed(states: seq<Db>, ops: seq<Op>, i: nat, k: nat, j: JobId)
    requires IsRun(states, ops) && FreshIds(states, ops) && i <= k <= |ops|
    requires j in states[i].heads && j in states[k].heads
    ensures states[i].heads[j].target == states[k].heads[j].target
    decreases k
  {
    if i < k {
      BornGrows(states, i, k);
      assert StepAt(states, ops, k - 1) && FreshAt(states, ops, k - 1);
      assert states[..k] == states[..(k - 1) + 1];
      Classify(states[k - 1], ops[k - 1], j);
      TargetFixed(states, ops, i, k - 1, j);
    }
  }
}
