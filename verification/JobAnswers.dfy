/** What each repository call answers and stores, column by column, read off the
    statements themselves: which rows a call touches, what it writes into them,
    and what it records in the history. */
module JobAnswers {
  import opened Basics
  import opened JobModel

  // ------------------------------------------------- reading the columns

  /** `state IN ('running', 'cancelling') AND lease_expires_at_us > now`. */
  predicate LiveLease(h: Head, now: Time) {
    (h.state.Running? || h.state.Cancelling?) && h.expiresAt.Some? && h.expiresAt.value > now
  }

  predicate LiveDirect(db: Db, t: TargetId, now: Time) {
    t in db.directs && db.directs[t].expiresAt > now
  }

  predicate Queued(h: Head) { h.state.Pending? || h.state.Retrying? }

  predicate EndedRow(h: Head) { h.state.Succeeded? || h.state.Failed? || h.state.Cancelled? }

  predicate DueBy(due: Option<Time>, now: Time) { due.Some? ==> due.value <= now }

  predicate NoLease(h: Head) {
    h.owner.None? && h.token.None? && h.expiresAt.None? && h.heartbeatAt.None?
  }

  predicate SameLease(h: Head, k: Head) {
    h.owner == k.owner && h.token == k.token && h.epoch == k.epoch && h.expiresAt == k.expiresAt && h.heartbeatAt == k.heartbeatAt
  }

  /** Columns no update ever writes. */
  predicate SameIdentity(h: Head, k: Head) {
    h.target == k.target && h.createdAt == k.createdAt && h.key == k.key && h.fingerprint == k.fingerprint
  }

  /** The row of `j` is the next version of `h` with this payload, and nothing
      else but the history changed: its newest entry records that version. */
  predicate Wrote(db: Db, after: Db, j: JobId, job: Job, at: Time) {
    && j in db.heads && j in after.heads
    && after.heads == db.heads[j := after.heads[j]] && after.directs == db.directs && after.limits == db.limits
    && after.heads[j].job == job && after.heads[j].state == job.state && after.heads[j].availableAt == job.availableAt
    && after.heads[j].updatedAt == at && after.heads[j].revision == db.heads[j].revision + 1
    && SameIdentity(db.heads[j], after.heads[j])
    && after.events != [] && after.events[|after.events| - 1] == Event(j, db.heads[j].revision + 1, at, job)
  }

  /** A due time that was left open is the creation time, for queued jobs only. */
  predicate StoredAs(given: Job, job: Job) {
    && job == given.(availableAt := job.availableAt)
    && (given.availableAt.Some? || !(given.state.Pending? || given.state.Retrying?) ==> job.availableAt == given.availableAt)
    && (given.availableAt.None? && (given.state.Pending? || given.state.Retrying?) ==> job.availableAt == Some(given.createdAt))
  }

  lemma NewestEvent(db: Db, j: JobId, h: Head, at: Time)
    ensures var events := Put(db, j, h, at).events;
            events != [] && events[|events| - 1] == Event(j, h.revision, at, h.job)
  {}

  /** Nothing of the history is given up but what is over the limit, oldest first. */
  lemma HistoryIsKept(db: Db, j: JobId, h: Head, at: Time)
    ensures var all, limit := db.events + [Event(j, h.revision, at, h.job)], db.limits.maxHistory;
            var dropped := if limit > 0 && |all| > limit then |all| - limit else 0;
            Put(db, j, h, at).events == all[dropped..]
  {}

  // ------------------------------------------------------------ completion

  /** The lease gate, condition by condition. */
  predicate OwnsLease(db: Db, c: Claim, now: Time) {
    && c.job.id in db.heads
    && var h := db.heads[c.job.id];
    && h.owner == Some(c.owner) && h.token == Some(c.token) && h.epoch == c.epoch && LiveLease(h, now)
    && (h.heartbeatAt.Some? ==> h.heartbeatAt.value <= now) && !LiveDirect(db, h.target, now)
  }

  /** A completion is stored exactly when the claim still owns its lease, the job
      is the claimed one in an outcome state, and a cancelling job is given up,
      failed, or a finished host or trace result.  The head then holds the given
      job as it is, no lease, and the history ends with it. */
  lemma CompletionIsStored(db: Db, op: Op)
    requires op.Complete?
    ensures var job := op.job;
            var granted := && job.id == op.claim.job.id && OwnsLease(db, op.claim, op.now)
                           && (job.state.Succeeded? || job.state.Failed? || job.state.Cancelled? || job.state.Retrying?)
                           && (db.heads[job.id].state.Cancelling? ==>
                                 || job.state.Cancelled? || job.state.Failed?
                                 || (job.state.Succeeded? && job.result.Some? && !job.capability.Guard?));
            && (CompleteGranted(db, op) <==> granted)
            && (!granted ==> Apply(db, op) == db)
            && (granted ==> var h := Apply(db, op).heads[job.id];
                            && Wrote(db, Apply(db, op), job.id, h.job, job.updatedAt) && StoredAs(job, h.job)
                            && h.attempt == job.attempt && h.maxAttempts == job.maxAttempts
                            && NoLease(h) && h.epoch == db.heads[job.id].epoch)
  {
    if CompleteGranted(db, op) {
      NewestEvent(db, op.job.id, CompleteHead(db.heads[op.job.id], op.job), Encode(op.job).updatedAt);
    }
  }

  /** A renewal is granted to whoever owns the lease, for a positive time, and
      moves nothing but expiry and heartbeat. */
  lemma RenewalIsStored(db: Db, op: Op)
    requires op.Renew?
    ensures if op.ttl > 0 && OwnsLease(db, op.claim, op.now)
            then && op.claim.job.id in Apply(db, op).heads
                 && var h, k := db.heads[op.claim.job.id], Apply(db, op).heads[op.claim.job.id];
                 && k == h.(expiresAt := Some(op.now + op.ttl), heartbeatAt := Some(op.now))
                 && Apply(db, op) == db.(heads := db.heads[op.claim.job.id := k])
            else Apply(db, op) == db
  {}

  // ------------------------------------------------------- operator's calls

  /** Cancelling a queued job ends it at once; a running one becomes cancelling
      and keeps its lease; all others stay. */
  lemma CancellationIsStored(db: Db, op: Op)
    requires op.RequestCancel?
    ensures var touched := op.id in db.heads
                           && (db.heads[op.id].job.state.Pending? || db.heads[op.id].job.state.Retrying? || db.heads[op.id].job.state.Running?);
            && (!touched ==> Apply(db, op) == db)
            && (touched ==>
                  var h := db.heads[op.id];
                  var noted := h.job.(cancelRequestedAt := Some(op.now), updatedAt := op.now);
                  var job := if h.job.state.Running? then noted.(state := Cancelling)
                             else noted.(state := Cancelled, finishedAt := Some(op.now), availableAt := None,
                                         error := Some(CancelledByOperator));
                  && Wrote(db, Apply(db, op), op.id, job, op.now) && SameLease(h, Apply(db, op).heads[op.id])
                  && Apply(db, op).heads[op.id].attempt == h.attempt && Apply(db, op).heads[op.id].maxAttempts == h.maxAttempts)
  {
    if op.id in db.heads { NewestEvent(db, op.id, CancelHead(db.heads[op.id], op.now), op.now); }
  }

  /** A manual retry makes a failed or cancelled job pending again, due now, with
      no attempt used and no trace of its last outcome. */
  lemma RetryIsStored(db: Db, op: Op)
    requires op.ManualRetry?
    ensures var touched := op.id in db.heads && (db.heads[op.id].job.state.Failed? || db.heads[op.id].job.state.Cancelled?);
            && (!touched ==> Apply(db, op) == db)
            && (touched ==>
                  var h := db.heads[op.id];
                  var job := h.job.(state := Pending, attempt := 0, availableAt := Some(op.now), updatedAt := op.now,
                                    startedAt := None, finishedAt := None, cancelRequestedAt := None, result := None, error := None);
                  && Wrote(db, Apply(db, op), op.id, job, op.now) && NoLease(Apply(db, op).heads[op.id])
                  && Apply(db, op).heads[op.id].epoch == h.epoch
                  && Apply(db, op).heads[op.id].attempt == 0 && Apply(db, op).heads[op.id].maxAttempts == h.maxAttempts)
  {
    if op.id in db.heads { NewestEvent(db, op.id, RetryHead(db.heads[op.id], op.now), op.now); }
  }

  /** What the Analyzer reports is stored in the result of a succeeded job whose
      derived work is pending or processing, and nowhere else. */
  lemma ObservationIsStored(db: Db, op: Op)
    requires op.UpdateDerived?
    ensures var touched := && op.id in db.heads && db.heads[op.id].job.state.Succeeded? && db.heads[op.id].job.result.Some?
                           && (|| db.heads[op.id].job.result.value.derived == Some(DerivedPending)
                               || db.heads[op.id].job.result.value.derived == Some(DerivedProcessing));
            && (!touched ==> Apply(db, op) == db)
            && (touched && db.heads[op.id].state == db.heads[op.id].job.state && db.heads[op.id].availableAt == db.heads[op.id].job.availableAt ==>
                  var h, seen := db.heads[op.id], op.seen;
                  var was := h.job.result.value;
                  var result := Apply(db, op).heads[op.id].job.result;
                  && Wrote(db, Apply(db, op), op.id, h.job.(result := result, updatedAt := op.now), op.now)
                  && SameLease(h, Apply(db, op).heads[op.id])
                  && result.Some? && result.value.kind == was.kind && result.value.reference == was.reference
                  && result.value.derived == Some(seen.derived)
                  && result.value.derivedRecords == (if seen.records < 0 then 0 else seen.records)
                  && result.value.derivedTruncated == seen.truncated && result.value.derivedReason == seen.reason
                  && result.value.derivedAttempts == (if seen.attempts < 0 then 0 else seen.attempts)
                  && result.value.derivedAt == Some(op.now)
                  && result.value.detail.Some? && result.value.detail.value.derived == seen.derived
                  && (result.value.detail.value.correlation <==> !h.job.capability.Host?)
                  && result.value.detail.value.reason == (if seen.derived == DerivedPartial then seen.reason else None))
  {
    if op.id in db.heads && DerivedOpen(db.heads[op.id].job) {
      NewestEvent(db, op.id, DeriveHead(db.heads[op.id], op.seen, op.now), op.now);
    }
  }

  // -------------------------------------------------------- direct operations

  /** A direct operation is granted when nobody holds the target; its lease lasts
      for the given time, and every active job of the target whose lease is over
      loses it and moves to the next epoch. */
  lemma DirectGrant(db: Db, op: Op, j: JobId)
    requires op.Acquire?
    ensures var granted := && op.ttl > 0 && !LiveDirect(db, op.target, op.now)
                           && forall i :: i in db.heads && db.heads[i].target == op.target ==> !LiveLease(db.heads[i], op.now);
            && (AcquireGranted(db, op) <==> granted)
            && Apply(db, op).heads.Keys == db.heads.Keys && Apply(db, op).events == db.events
            && (j in db.heads ==>
                  var h, k := db.heads[j], Apply(db, op).heads[j];
                  if granted && h.target == op.target && (h.state.Running? || h.state.Cancelling?)
                  then NoLease(k) && k == h.(owner := None, token := None, expiresAt := None, heartbeatAt := None, epoch := h.epoch + 1)
                  else k == h)
            && (granted ==> op.target in Apply(db, op).directs
                            && Apply(db, op).directs[op.target] == Direct(op.owner, op.token, op.now + op.ttl))
            && (forall t :: t in db.directs && db.directs[t].expiresAt > op.now ==>
                              t in Apply(db, op).directs && Apply(db, op).directs[t] == db.directs[t])
  {}

  lemma DirectEnd(db: Db, op: Op)
    requires op.Release? || op.RenewDirect?
    ensures var own := op.target in db.directs && db.directs[op.target].owner == op.owner && db.directs[op.target].token == op.token;
            if op.Release?
            then Apply(db, op) == db.(directs := if own then db.directs - {op.target} else db.directs)
            else Apply(db, op) ==
                 if own && op.ttl > 0 && db.directs[op.target].expiresAt > op.now
                 then db.(directs := db.directs[op.target := Direct(op.owner, op.token, op.now + op.ttl)]) else db
  {}
}
