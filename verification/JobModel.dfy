/** The durable scan-job queue as a value: the three tables of the job database
    and, for every repository call, the state it commits.

    One call is one `BEGIN IMMEDIATE` transaction, hence one atomic step.  What
    SQL leaves open (the order of the exhausted rows, the row an ORDER BY picks,
    the rows an eviction removes) is part of the step's label, and `Enabled`
    says which labels the queries admit. */
module JobModel {
  import opened Basics

  // ---------------------------------------------------------------- payload

  type JobId = int
  type TargetId = int
  type Owner = int
  type Token = int

  datatype JobState = Pending | Retrying | Running | Cancelling | Succeeded | Failed | Cancelled

  datatype Capability = Host | Trace | Guard

  datatype DerivedState = DerivedPending | DerivedProcessing | DerivedComplete | DerivedPartial

  /** The text shown with a result: what the Analyzer is doing with the artifact. */
  datatype Detail = Detail(correlation: bool, derived: DerivedState, reason: Option<int>)

  datatype ScanResult = ScanResult(
    kind: Capability, reference: int, detail: Option<Detail>,
    derived: Option<DerivedState>, derivedRecords: nat, derivedTruncated: bool, derivedReason: Option<int>,
    derivedAttempts: nat, derivedAt: Option<Time>)

  /** One answer of the Analyzer about derived work. */
  datatype Observation = Observation(derived: DerivedState, records: int, truncated: bool, reason: Option<int>, attempts: int)

  datatype Error = CancelledByOperator | ExhaustedAttempts | TimedOut | NoResult | ExecutionError(code: int)

  datatype Job = Job(
    id: JobId, target: TargetId, capability: Capability, state: JobState,
    createdAt: Time, updatedAt: Time, availableAt: Option<Time>,
    startedAt: Option<Time>, finishedAt: Option<Time>, cancelRequestedAt: Option<Time>,
    attempt: nat, maxAttempts: nat, result: Option<ScanResult>, error: Option<Error>)

  predicate Terminal(s: JobState) { s.Succeeded? || s.Failed? || s.Cancelled? }

  predicate Active(s: JobState) { s.Running? || s.Cancelling? }

  predicate Waiting(s: JobState) { s.Pending? || s.Retrying? }

  /** What model validation does to a payload on its way into a row. */
  function Encode(job: Job): Job {
    if job.availableAt.None? && Waiting(job.state) then job.(availableAt := Some(job.createdAt)) else job
  }

  // ----------------------------------------------------------------- tables

  /** One row of `scan_job_heads`: the payload, the query columns that repeat
      parts of it, and the private lease columns. */
  datatype Head = Head(
    job: Job,
    state: JobState, target: TargetId, createdAt: Time, updatedAt: Time, availableAt: Option<Time>,
    attempt: nat, maxAttempts: nat, revision: nat,
    owner: Option<Owner>, token: Option<Token>, epoch: nat, expiresAt: Option<Time>, heartbeatAt: Option<Time>,
    key: Option<int>, fingerprint: Option<int>)

  /** One row of `target_operation_leases`, keyed by target. */
  datatype Direct = Direct(owner: Owner, token: Token, expiresAt: Time)

  /** One row of `scan_job_events`; the table is a sequence in id order. */
  datatype Event = Event(id: JobId, revision: nat, at: Time, payload: Job)

  /** Zero means unlimited, as in the configuration. */
  datatype Limits = Limits(maxJobs: nat, maxHistory: nat)

  datatype Db = Db(limits: Limits, heads: map<JobId, Head>, directs: map<TargetId, Direct>, events: seq<Event>)

  /** The private execution capability handed to a worker. */
  datatype Claim = Claim(job: Job, token: Token, epoch: nat, owner: Owner, expiresAt: Time)

  // ------------------------------------------------------------------ calls

  datatype Op =
    | Create(job: Job, key: Option<int>, fingerprint: Option<int>, evicted: set<JobId>)
    | ClaimNext(worker: Owner, now: Time, ttl: int, maxRunning: int, exclude: set<JobId>, token: Token,
                sweep: seq<JobId>, picked: Option<JobId>)
    | Acquire(target: TargetId, owner: Owner, now: Time, ttl: int, token: Token)
    | Release(target: TargetId, owner: Owner, token: Token)
    | RenewDirect(target: TargetId, owner: Owner, token: Token, now: Time, ttl: int)
    | Renew(claim: Claim, now: Time, ttl: int)
    | Complete(claim: Claim, job: Job, now: Time)
    | RequestCancel(id: JobId, now: Time)
    | ManualRetry(id: JobId, now: Time)
    | UpdateDerived(id: JobId, seen: Observation, now: Time)
    | Read

  /** The clock reading a call is given; creation, release and plain reads take none. */
  function Now(op: Op): Option<Time> {
    if op.Create? || op.Release? || op.Read? then None else Some(op.now)
  }

  // ----------------------------------------------------------- row updates

  /** `lease_expires_at_us > now`, false for NULL. */
  predicate Unexpired(e: Option<Time>, now: Time) { e.Some? && now < e.value }

  predicate Holding(h: Head, now: Time) { Active(h.state) && Unexpired(h.expiresAt, now) }

  predicate Due(h: Head, now: Time) { h.availableAt.None? || h.availableAt.value <= now }

  predicate Exhausted(h: Head, now: Time) {
    h.maxAttempts <= h.attempt && Waiting(h.state) && Due(h, now)
  }

  function Unleased(h: Head): Head {
    h.(owner := None, token := None, expiresAt := None, heartbeatAt := None)
  }

  /** Writes a new payload with the columns every payload update repeats. */
  function Rewritten(h: Head, job: Job, at: Time): Head {
    h.(job := job, state := job.state, updatedAt := at, availableAt := job.availableAt, revision := h.revision + 1)
  }

  function InitialHead(op: Op): Head
    requires op.Create?
  {
    var job := Encode(op.job);
    Head(job, job.state, job.target, job.createdAt, job.updatedAt, job.availableAt, job.attempt, job.maxAttempts, 0,
         None, None, 0, None, None, op.key, op.fingerprint)
  }

  function FailExhausted(h: Head, now: Time): Head {
    var job := h.job.(state := Failed, error := Some(ExhaustedAttempts), availableAt := None,
                      finishedAt := Some(now), updatedAt := now);
    Unleased(Rewritten(h, job, now))
  }

  /** The payload a claim writes: a cancelling job keeps its attempt; any other
      becomes running with the next attempt, pinned one past the maximum when
      an expired final execution is only being reconciled. */
  function ClaimedJob(job: Job, now: Time): Job {
    if job.state.Cancelling? then job.(updatedAt := now)
    else
      var next := if job.state.Running? && job.maxAttempts <= job.attempt then job.maxAttempts + 1 else job.attempt + 1;
      job.(state := Running, attempt := next, availableAt := None, error := None, updatedAt := now,
           startedAt := if job.startedAt.Some? then job.startedAt else Some(now))
  }

  function ClaimHead(h: Head, op: Op): Head
    requires op.ClaimNext?
  {
    var job := ClaimedJob(h.job, op.now);
    Rewritten(h, job, op.now).(attempt := job.attempt, maxAttempts := job.maxAttempts,
                               owner := Some(op.worker), token := Some(op.token), epoch := h.epoch + 1,
                               expiresAt := Some(op.now + op.ttl), heartbeatAt := Some(op.now))
  }

  function IssuedClaim(h: Head, op: Op): Claim
    requires op.ClaimNext?
  {
    Claim(ClaimedJob(h.job, op.now), op.token, h.epoch + 1, op.worker, op.now + op.ttl)
  }

  function Fenced(h: Head): Head { Unleased(h).(epoch := h.epoch + 1) }

  function RenewHead(h: Head, now: Time, ttl: int): Head {
    h.(expiresAt := Some(now + ttl), heartbeatAt := Some(now))
  }

  function CompleteHead(h: Head, updated: Job): Head {
    var job := Encode(updated);
    Unleased(Rewritten(h, job, job.updatedAt)).(attempt := job.attempt, maxAttempts := job.maxAttempts)
  }

  function CancelHead(h: Head, now: Time): Head {
    var job := h.job.(cancelRequestedAt := Some(now), updatedAt := now);
    var next := if Waiting(job.state)
                then job.(state := Cancelled, finishedAt := Some(now), availableAt := None, error := Some(CancelledByOperator))
                else job.(state := Cancelling);
    Rewritten(h, next, now)
  }

  function RetryHead(h: Head, now: Time): Head {
    var job := h.job.(state := Pending, attempt := 0, availableAt := Some(now), updatedAt := now, startedAt := None,
                      finishedAt := None, cancelRequestedAt := None, result := None, error := None);
    Unleased(Rewritten(h, job, now)).(attempt := 0)
  }

  /** Derived work may still be observed. */
  predicate DerivedOpen(job: Job) {
    job.state.Succeeded? && job.result.Some? && job.result.value.derived.Some?
    && (job.result.value.derived.value.DerivedPending? || job.result.value.derived.value.DerivedProcessing?)
  }

  function DeriveHead(h: Head, seen: Observation, now: Time): Head
    requires DerivedOpen(h.job)
  {
    var reason := if seen.derived.DerivedPartial? then seen.reason else None;
    var result := h.job.result.value.(
      derived := Some(seen.derived), derivedRecords := Max(0, seen.records), derivedTruncated := seen.truncated,
      derivedReason := seen.reason, derivedAttempts := Max(0, seen.attempts), derivedAt := Some(now),
      detail := Some(Detail(!h.job.capability.Host?, seen.derived, reason)));
    var job := h.job.(result := Some(result), updatedAt := now);
    h.(job := job, updatedAt := now, revision := h.revision + 1)
  }

  // --------------------------------------------------------------- queries

  /** `_leased_row`: the only gate through which a worker may renew or complete. */
  predicate Leased(db: Db, c: Claim, now: Time) {
    && c.job.id in db.heads
    && var h := db.heads[c.job.id];
    && HoldsLease(h, c)
    && Holding(h, now)
    && (h.heartbeatAt.None? || h.heartbeatAt.value <= now)
    && !DirectHeld(db, h.target, now)
  }

  predicate HoldsLease(h: Head, c: Claim) {
    h.owner == Some(c.owner) && h.token == Some(c.token) && h.epoch == c.epoch
  }

  predicate DirectHeld(db: Db, t: TargetId, now: Time) {
    t in db.directs && now < db.directs[t].expiresAt
  }

  /** The completion states a leased job may be moved to. */
  predicate CompletionState(s: JobState) { Terminal(s) || s.Retrying? }

  /** Once cancellation is requested only a cancellation outcome, or an already
      acknowledged host or trace result, may still be committed. */
  predicate CompletionAllowed(h: Head, job: Job) {
    h.state.Cancelling? ==>
      job.state.Cancelled? || job.state.Failed? || (job.state.Succeeded? && job.result.Some? && !job.capability.Guard?)
  }

  predicate Cancellable(s: JobState) { Waiting(s) || s.Running? }

  predicate Retryable(s: JobState) { s.Failed? || s.Cancelled? }

  predicate Claimable(h: Head, now: Time) {
    || (Waiting(h.state) && h.attempt < h.maxAttempts && Due(h, now))
    || (Active(h.state) && !Unexpired(h.expiresAt, now))
  }

  /** The WHERE clause of the claim query. */
  predicate Candidate(db: Db, j: JobId, now: Time, exclude: set<JobId>) {
    && j in db.heads
    && Claimable(db.heads[j], now)
    && (forall k :: k in db.heads && k != j && db.heads[k].target == db.heads[j].target ==> !Holding(db.heads[k], now))
    && !DirectHeld(db, db.heads[j].target, now)
    && j !in exclude
  }

  /** The ORDER BY of the claim query: cancelling, then running, then the rest;
      then due time, creation time and id. */
  function Class(s: JobState): nat { if s.Cancelling? then 0 else if s.Running? then 1 else 2 }

  function DueAt(h: Head): Time { if h.availableAt.Some? then h.availableAt.value else h.createdAt }

  predicate Precedes(a: Head, i: JobId, b: Head, j: JobId) {
    || Class(a.state) < Class(b.state)
    || (Class(a.state) == Class(b.state) &&
        (|| DueAt(a) < DueAt(b)
         || (DueAt(a) == DueAt(b) &&
             (|| a.createdAt < b.createdAt
              || (a.createdAt == b.createdAt && i <= j)))))
  }

  ghost predicate FirstCandidate(db: Db, j: JobId, now: Time, exclude: set<JobId>) {
    && Candidate(db, j, now, exclude)
    && forall k :: Candidate(db, k, now, exclude) ==> Precedes(db.heads[j], j, db.heads[k], k)
  }

  function HoldingJobs(db: Db, now: Time): set<JobId> { set j | j in db.heads && Holding(db.heads[j], now) }

  function ExhaustedJobs(db: Db, now: Time): set<JobId> { set j | j in db.heads && Exhausted(db.heads[j], now) }

  function TerminalJobs(db: Db): set<JobId> { set j | j in db.heads && Terminal(db.heads[j].state) }

  predicate OlderThan(a: Head, i: JobId, b: Head, j: JobId) {
    a.updatedAt < b.updatedAt || (a.updatedAt == b.updatedAt && i <= j)
  }

  /** How many rows making room tries to remove; zero when there is room. */
  function RoomWanted(db: Db): nat {
    if db.limits.maxJobs == 0 || |db.heads| < db.limits.maxJobs then 0
    else |db.heads| - Max(0, db.limits.maxJobs - Max(1, db.limits.maxJobs / 10))
  }

  /** `ORDER BY updated_at_us, job_id LIMIT n` over the terminal rows. */
  predicate OldestTerminal(db: Db, rows: set<JobId>, n: nat) {
    && rows <= TerminalJobs(db)
    && |rows| == Min(n, |TerminalJobs(db)|)
    && forall i, j :: i in rows && j in TerminalJobs(db) && j !in rows ==> OlderThan(db.heads[i], i, db.heads[j], j)
  }

  predicate KeyTaken(db: Db, key: Option<int>) {
    key.Some? && exists j :: j in db.heads && db.heads[j].key == key
  }

  // ----------------------------------------------------------------- steps

  function Trim(events: seq<Event>, maxHistory: nat): seq<Event> {
    if maxHistory == 0 || |events| <= maxHistory then events else events[|events| - maxHistory..]
  }

  /** Stores one new version of a head and its event. */
  function Put(db: Db, j: JobId, h: Head, at: Time): Db {
    db.(heads := db.heads[j := h], events := Trim(db.events + [Event(j, h.revision, at, h.job)], db.limits.maxHistory))
  }

  function Sweep(db: Db, ids: seq<JobId>, now: Time): Db
    decreases |ids|
  {
    if ids == [] then db
    else if ids[0] !in db.heads then Sweep(db, ids[1..], now)
    else Sweep(Put(db, ids[0], FailExhausted(db.heads[ids[0]], now), now), ids[1..], now)
  }

  function DropExpired(db: Db, now: Time): Db {
    db.(directs := map t | t in db.directs && now < db.directs[t].expiresAt :: db.directs[t])
  }

  /** The state the claim query runs on: exhausted rows failed, stale direct leases gone. */
  function Swept(db: Db, op: Op): Db
    requires op.ClaimNext?
  {
    DropExpired(Sweep(db, op.sweep, op.now), op.now)
  }

  predicate CreateGranted(db: Db, op: Op)
    requires op.Create?
  {
    && !KeyTaken(db, op.key)
    && op.job.id !in db.heads
    && (RoomWanted(db) > 0 ==> op.evicted != {})
    && (forall e :: e in db.events ==> e.id != op.job.id || e.revision != 0)
  }

  predicate AcquireGranted(db: Db, op: Op)
    requires op.Acquire?
  {
    && op.ttl > 0
    && (forall j :: j in db.heads && db.heads[j].target == op.target ==> !Holding(db.heads[j], op.now))
    && !DirectHeld(db, op.target, op.now)
  }

  predicate DirectOwned(db: Db, op: Op)
    requires op.Release? || op.RenewDirect?
  {
    op.target in db.directs && db.directs[op.target].owner == op.owner && db.directs[op.target].token == op.token
  }

  predicate CompleteGranted(db: Db, op: Op)
    requires op.Complete?
  {
    && op.job.id == op.claim.job.id
    && CompletionState(op.job.state)
    && Leased(db, op.claim, op.now)
    && CompletionAllowed(db.heads[op.claim.job.id], op.job)
  }

  function FenceTarget(db: Db, t: TargetId, now: Time): map<JobId, Head> {
    map j | j in db.heads ::
      var h := db.heads[j];
      if h.target == t && Active(h.state) && !Unexpired(h.expiresAt, now) then Fenced(h) else h
  }

  predicate ClaimArgumentsOk(op: Op)
    requires op.ClaimNext?
  {
    op.ttl > 0 && op.maxRunning > 0
  }

  /** The labels the queries of a call admit in a state. */
  ghost predicate Enabled(db: Db, op: Op) {
    match op
    case Create(_, _, _, evicted) => OldestTerminal(db, evicted, RoomWanted(db))
    case ClaimNext(_, now, _, maxRunning, exclude, _, sweep, picked) =>
      && (forall i, j :: 0 <= i < j < |sweep| ==> sweep[i] != sweep[j])
      && (forall j :: j in sweep <==> j in ExhaustedJobs(db, now))
      && (ClaimArgumentsOk(op) ==>
            if maxRunning <= |HoldingJobs(Swept(db, op), now)| then picked == None
            else if picked.Some? then FirstCandidate(Swept(db, op), picked.value, now, exclude)
            else forall j :: !Candidate(Swept(db, op), j, now, exclude))
    case _ => true
  }

  /** The committed state after a call.  A call that raises rolls back; a call
      that returns nothing still commits its clean-up. */
  function Apply(db: Db, op: Op): Db {
    match op
    case Create(job, _, _, evicted) =>
      if CreateGranted(db, op)
      then Put(db.(heads := db.heads - evicted), job.id, InitialHead(op), InitialHead(op).updatedAt)
      else db
    case ClaimNext(_, now, _, _, _, _, _, picked) =>
      if !ClaimArgumentsOk(op) then db
      else
        var d := Swept(db, op);
        if picked.Some? && picked.value in d.heads
        then Put(d, picked.value, ClaimHead(d.heads[picked.value], op), now)
        else d
    case Acquire(target, owner, now, ttl, token) =>
      if ttl <= 0 then db
      else if AcquireGranted(db, op)
      then DropExpired(db, now).(heads := FenceTarget(db, target, now),
                                 directs := DropExpired(db, now).directs[target := Direct(owner, token, now + ttl)])
      else DropExpired(db, now)
    case Release(target, _, _) =>
      if DirectOwned(db, op) then db.(directs := db.directs - {target}) else db
    case RenewDirect(target, owner, token, now, ttl) =>
      if ttl > 0 && DirectOwned(db, op) && now < db.directs[target].expiresAt
      then db.(directs := db.directs[target := Direct(owner, token, now + ttl)])
      else db
    case Renew(c, now, ttl) =>
      if ttl > 0 && Leased(db, c, now)
      then db.(heads := db.heads[c.job.id := RenewHead(db.heads[c.job.id], now, ttl)])
      else db
    case Complete(c, job, now) =>
      if CompleteGranted(db, op)
      then Put(db, job.id, CompleteHead(db.heads[job.id], job), Encode(job).updatedAt)
      else db
    case RequestCancel(id, now) =>
      if id in db.heads && Cancellable(db.heads[id].job.state)
      then Put(db, id, CancelHead(db.heads[id], now), now)
      else db
    case ManualRetry(id, now) =>
      if id in db.heads && Retryable(db.heads[id].job.state)
      then Put(db, id, RetryHead(db.heads[id], now), now)
      else db
    case UpdateDerived(id, seen, now) =>
      if id in db.heads && DerivedOpen(db.heads[id].job)
      then Put(db, id, DeriveHead(db.heads[id], seen, now), now)
      else db
    case Read => db
  }

  /** The claim a step issues, if any. */
  function Issued(db: Db, op: Op): Option<Claim> {
    if op.ClaimNext? && ClaimArgumentsOk(op) && op.picked.Some? && op.picked.value in Swept(db, op).heads
    then Some(IssuedClaim(Swept(db, op).heads[op.picked.value], op))
    else None
  }
}
