/** What a claim and a creation do to the queue as a whole: who is failed, who is
    handed out and in which order, and who makes room. */
module QueueAnswers {
  import opened Basics
  import opened JobModel
  import opened JobMoves
  import opened JobAnswers

  // ----------------------------------------------------------------- claims

  /** Queued and due, with every attempt used. */
  predicate Spent(h: Head, now: Time) { Queued(h) && h.attempt >= h.maxAttempts && DueBy(h.availableAt, now) }

  /** May be handed out: due with an attempt left, or abandoned by its worker; and
      nobody else holds its target. */
  predicate Eligible(db: Db, j: JobId, now: Time, exclude: set<JobId>) {
    && j in db.heads && j !in exclude
    && var h := db.heads[j];
    && (|| (Queued(h) && h.attempt < h.maxAttempts && DueBy(h.availableAt, now))
        || ((h.state.Running? || h.state.Cancelling?) && !LiveLease(h, now)))
    && !LiveDirect(db, h.target, now)
    && forall i :: i in db.heads && i != j && db.heads[i].target == h.target ==> !LiveLease(db.heads[i], now)
  }

  /** Cancelling jobs first, then abandoned running ones, then the queue by due
      time; ties by creation time and id. */
  predicate Ahead(a: Head, i: JobId, b: Head, j: JobId) {
    var x := if a.state == Cancelling then 0 else if a.state == Running then 1 else 2;
    var y := if b.state == Cancelling then 0 else if b.state == Running then 1 else 2;
    var s := if a.availableAt == None then a.createdAt else a.availableAt.value;
    var t := if b.availableAt == None then b.createdAt else b.availableAt.value;
    if x != y then x < y else if s != t then s < t else if a.createdAt != b.createdAt then a.createdAt < b.createdAt else i <= j
  }

  predicate ClaimAsked(op: Op) { op.ClaimNext? && op.ttl > 0 && op.maxRunning > 0 }

  lemma EligibleIsCandidate(db: Db, op: Op, j: JobId)
    requires ClaimAsked(op) && Enabled(db, op)
    ensures Candidate(Swept(db, op), j, op.now, op.exclude) <==> Eligible(db, j, op.now, op.exclude)
    ensures Eligible(db, j, op.now, op.exclude) ==> Swept(db, op).heads[j] == db.heads[j]
  {
    SweptAt(db, op, j);
    forall i | i in db.heads ensures Holding(Swept(db, op).heads[i], op.now) <==> LiveLease(db.heads[i], op.now)
      ensures Swept(db, op).heads[i].target == db.heads[i].target
    {
      SweptAt(db, op, i);
    }
  }

  lemma LiveAreHolding(db: Db, op: Op)
    requires ClaimAsked(op) && Enabled(db, op)
    ensures HoldingJobs(Swept(db, op), op.now) == set j | j in db.heads && LiveLease(db.heads[j], op.now)
  {
    SweptAt(db, op, 0);
    forall j | j in db.heads ensures Holding(Swept(db, op).heads[j], op.now) <==> LiveLease(db.heads[j], op.now) {
      SweptAt(db, op, j);
    }
  }

  /** A claim is issued exactly when fewer leases are live than the cap and some
      job is eligible, and it is issued for the eligible job ahead of all others. */
  lemma ClaimIsFirst(db: Db, op: Op)
    requires ClaimAsked(op) && Enabled(db, op)
    ensures Issued(db, op).Some? <==>
            && |set j | j in db.heads && LiveLease(db.heads[j], op.now)| < op.maxRunning
            && exists j :: Eligible(db, j, op.now, op.exclude)
    ensures Issued(db, op).Some? ==>
            && op.picked.Some? && Eligible(db, op.picked.value, op.now, op.exclude)
            && forall j :: Eligible(db, j, op.now, op.exclude) ==> Ahead(db.heads[op.picked.value], op.picked.value, db.heads[j], j)
  {
    LiveAreHolding(db, op);
    forall j ensures Candidate(Swept(db, op), j, op.now, op.exclude) <==> Eligible(db, j, op.now, op.exclude) {
      EligibleIsCandidate(db, op, j);
    }
    if Issued(db, op).Some? {
      var p := op.picked.value;
      EligibleIsCandidate(db, op, p);
      forall j | Eligible(db, j, op.now, op.exclude) ensures Ahead(db.heads[p], p, db.heads[j], j) {
        EligibleIsCandidate(db, op, j);
        assert Precedes(Swept(db, op).heads[p], p, Swept(db, op).heads[j], j);
      }
    }
  }

  /** The claimed row becomes running with the next attempt, or the one attempt
      past the maximum when it was abandoned on its last; a cancelling row keeps
      state and attempt.  The claim carries the new payload, token, next epoch,
      owner and expiry, the row holds them, and the history ends with them. */
  lemma ClaimIsStored(db: Db, op: Op)
    requires ClaimAsked(op) && Enabled(db, op) && Issued(db, op).Some?
    ensures var j, c := op.picked.value, Issued(db, op).value;
            && j in db.heads && j in Apply(db, op).heads
            && var h, k := db.heads[j], Apply(db, op).heads[j];
            && (h.job.state == Cancelling ==> c.job == h.job.(updatedAt := op.now))
            && (h.job.state != Cancelling ==>
                  c.job == h.job.(state := Running, availableAt := None, error := None, updatedAt := op.now,
                                  startedAt := if h.job.startedAt == None then Some(op.now) else h.job.startedAt,
                                  attempt := if h.job.state == Running && h.job.attempt >= h.job.maxAttempts
                                             then h.job.maxAttempts + 1 else h.job.attempt + 1))
            && k.job == c.job && k.state == c.job.state && k.availableAt == c.job.availableAt && k.updatedAt == op.now
            && k.attempt == c.job.attempt && k.maxAttempts == c.job.maxAttempts && k.revision == h.revision + 1 && SameIdentity(h, k)
            && k.owner == Some(op.worker) && k.token == Some(op.token) && k.epoch == h.epoch + 1
            && k.expiresAt == Some(op.now + op.ttl) && k.heartbeatAt == Some(op.now)
            && c.token == op.token && c.epoch == h.epoch + 1 && c.owner == op.worker && c.expiresAt == op.now + op.ttl
            && var events := Apply(db, op).events;
            && events != [] && events[|events| - 1] == Event(j, h.revision + 1, op.now, c.job)
  {
    var j := op.picked.value;
    ClaimIsFirst(db, op);
    EligibleIsCandidate(db, op, j);
    NewestEvent(Swept(db, op), j, ClaimHead(db.heads[j], op), op.now);
  }

  /** Of the other rows, those whose attempts are spent are failed there and then
      with the reason, and the rest are untouched; direct leases that are over
      are gone. */
  lemma SpentAreFailed(db: Db, op: Op, j: JobId)
    requires ClaimAsked(op) && Enabled(db, op) && j in db.heads && op.picked != Some(j)
    ensures j in Apply(db, op).heads
    ensures var h, k := db.heads[j], Apply(db, op).heads[j];
            if Spent(h, op.now)
            then && k.job == h.job.(state := JobState.Failed, error := Some(ExhaustedAttempts), availableAt := None,
                                    finishedAt := Some(op.now), updatedAt := op.now)
                 && k.state == JobState.Failed && k.availableAt == None && k.updatedAt == op.now && k.revision == h.revision + 1
                 && NoLease(k) && k.epoch == h.epoch && k.attempt == h.attempt && k.maxAttempts == h.maxAttempts && SameIdentity(h, k)
            else k == h
    ensures Apply(db, op).heads.Keys == db.heads.Keys
    ensures forall t :: t in Apply(db, op).directs <==> LiveDirect(db, t, op.now)
  {
    SweptAt(db, op, j);
    SweepAt(db, op.sweep, op.now, j);
    if op.picked.Some? { SweptAt(db, op, op.picked.value); }
    assert Apply(db, op).heads.Keys == db.heads.Keys by {
      if Issued(db, op).Some? { ClaimIsFirst(db, op); }
    }
  }

  /** The claim just issued passes the lease gate until it expires, as long as no
      direct operation holds the target and nothing else touches the row. */
  lemma NewClaimPasses(db: Db, op: Op, now: Time)
    requires ClaimAsked(op) && Enabled(db, op) && Issued(db, op).Some? && op.now <= now < op.now + op.ttl
    requires op.picked.value in db.heads ==>
               var h := db.heads[op.picked.value]; h.job.id == op.picked.value && h.state == h.job.state
    ensures Leased(Apply(db, op), Issued(db, op).value, now)
  {
    ClaimIsFirst(db, op);
    ClaimIsStored(db, op);
    SweptAt(db, op, op.picked.value);
  }

  // --------------------------------------------------------------- creation

  /** How many ended rows a full table gives up: down to a tenth below the limit,
      at least one. */
  function Surplus(db: Db): int {
    var tenth := if db.limits.maxJobs / 10 == 0 then 1 else db.limits.maxJobs / 10;
    |db.heads| - (db.limits.maxJobs - tenth)
  }

  predicate Roomy(db: Db) { db.limits.maxJobs == 0 || |db.heads| < db.limits.maxJobs }

  function EndedJobs(db: Db): set<JobId> { set j | j in db.heads && EndedRow(db.heads[j]) }

  lemma EndedAreTerminal(db: Db)
    ensures TerminalJobs(db) == EndedJobs(db)
  {
    forall j ensures j in TerminalJobs(db) <==> j in EndedJobs(db) {
      if j in db.heads { assert Terminal(db.heads[j].state) <==> EndedRow(db.heads[j]); }
    }
  }

  /** A creation goes through exactly when its key and id are unused, no retained
      event is its first one, and there is room or an ended row to give up. */
  lemma CreationGoesThrough(db: Db, op: Op)
    requires op.Create? && Enabled(db, op)
    ensures CreateGranted(db, op) <==>
            && op.job.id !in db.heads
            && (forall j :: j in db.heads && op.key.Some? ==> db.heads[j].key != op.key)
            && (forall e :: e in db.events && e.id == op.job.id ==> e.revision != 0)
            && (Roomy(db) || EndedJobs(db) != {})
    ensures !CreateGranted(db, op) ==> Apply(db, op) == db
  {
    EndedAreTerminal(db);
    assert Roomy(db) <==> RoomWanted(db) == 0;
  }

  /** With room nobody leaves; otherwise the longest-ended rows leave, as many as
      the surplus asks for or all there are, and never one that has not ended. */
  lemma OldestMakeRoom(db: Db, op: Op)
    requires op.Create? && Enabled(db, op)
    ensures op.evicted <= EndedJobs(db)
    ensures |op.evicted| == if Roomy(db) then 0 else if Surplus(db) < |EndedJobs(db)| then Surplus(db) else |EndedJobs(db)|
    ensures forall i, j :: i in op.evicted && j in EndedJobs(db) && j !in op.evicted ==>
              db.heads[i].updatedAt < db.heads[j].updatedAt || (db.heads[i].updatedAt == db.heads[j].updatedAt && i < j)
  {
    EndedAreTerminal(db);
    forall i, j | i in op.evicted && j in EndedJobs(db) && j !in op.evicted
      ensures db.heads[i].updatedAt < db.heads[j].updatedAt || (db.heads[i].updatedAt == db.heads[j].updatedAt && i < j)
    {
      assert i in op.evicted && j in TerminalJobs(db) && j !in op.evicted;
      assert OlderThan(db.heads[i], i, db.heads[j], j) && i != j;
    }
  }

  /** The new row holds the given job, repeats it in its columns, and has neither
      lease nor history before its first event. */
  lemma CreationIsStored(db: Db, op: Op)
    requires op.Create? && Enabled(db, op) && CreateGranted(db, op)
    ensures var after, id := Apply(db, op), op.job.id;
            && id in after.heads && after.heads == (db.heads - op.evicted)[id := after.heads[id]] && after.directs == db.directs
            && var h := after.heads[id];
            && StoredAs(op.job, h.job) && h.state == op.job.state && h.target == op.job.target
            && h.createdAt == op.job.createdAt && h.updatedAt == op.job.updatedAt && h.availableAt == h.job.availableAt
            && h.attempt == op.job.attempt && h.maxAttempts == op.job.maxAttempts && h.revision == 0 && h.epoch == 0 && NoLease(h)
            && h.key == op.key && h.fingerprint == op.fingerprint
            && after.events != [] && after.events[|after.events| - 1] == Event(id, 0, op.job.updatedAt, h.job)
  {
    NewestEvent(db.(heads := db.heads - op.evicted), op.job.id, InitialHead(op), InitialHead(op).updatedAt);
  }
}
