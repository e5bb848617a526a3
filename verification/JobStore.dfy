/** The repository itself: an object over the three tables whose methods are the
    transactions.  Each method is proved to commit exactly `Apply` of the label
    it reports, and that label is one the queries admit. */
module JobStore {
  import opened Basics
  import opened JobModel
  import opened JobRuns

  datatype StoreError = NotFound | Conflict | LeaseLost | InvalidArgument | AtCapacity

  datatype Reply<+T> = Ok(value: T) | Err(error: StoreError)

  /** A created or replayed job. */
  datatype Creation = Creation(job: Job, created: bool)

  /** An identical request was already answered with `job`. */
  ghost predicate Replays(db: Db, key: Option<int>, fingerprint: Option<int>, job: Job) {
    key.Some? && exists j :: j in db.heads && db.heads[j].key == key && db.heads[j].fingerprint == fingerprint
                             && db.heads[j].job == job
  }

  lemma ReplayedBy(db: Db, key: Option<int>, fingerprint: Option<int>, j: JobId)
    requires key.Some? && j in db.heads && db.heads[j].key == key && db.heads[j].fingerprint == fingerprint
    ensures Replays(db, key, fingerprint, db.heads[j].job)
  {}

  lemma TakenBy(db: Db, key: Option<int>, j: JobId)
    requires key.Some? && j in db.heads && db.heads[j].key == key
    ensures KeyTaken(db, key)
  {}

  /** Sweeping one more row at the end. */
  lemma {:induction false} SweepOneMore(db: Db, ids: seq<JobId>, j: JobId, now: Time)
    requires j in db.heads && j !in ids
    ensures j in Sweep(db, ids, now).heads && Sweep(db, ids, now).heads[j] == db.heads[j]
    ensures Sweep(db, ids + [j], now) == Put(Sweep(db, ids, now), j, FailExhausted(db.heads[j], now), now)
    decreases |ids|
  {
    if ids == [] {
      assert ids + [j] == [j];
      assert Sweep(db, [j], now) == Sweep(Put(db, j, FailExhausted(db.heads[j], now), now), [j][1..], now);
    } else {
      assert (ids + [j])[1..] == ids[1..] + [j];
      var d := if ids[0] in db.heads then Put(db, ids[0], FailExhausted(db.heads[ids[0]], now), now) else db;
      SweepOneMore(d, ids[1..], j, now);
    }
  }

  class ScanJobRepository {
    const limits: Limits
    var heads: map<JobId, Head>
    var directs: map<TargetId, Direct>
    var events: seq<Event>

    ghost function View(): Db
      reads this
    {
      Db(limits, heads, directs, events)
    }

    constructor (limits: Limits)
      ensures View() == Empty(limits)
    {
      this.limits := limits;
      heads, directs, events := map[], map[], [];
    }

    /** Writes a head and appends its event, dropping the oldest overflow. */
    method Store(j: JobId, h: Head, at: Time)
      modifies this
      ensures View() == Put(old(View()), j, h, at)
    {
      heads := heads[j := h];
      events := events + [Event(j, h.revision, at, h.job)];
      if limits.maxHistory > 0 {
        var overflow := |events| - limits.maxHistory;
        if overflow > 0 {
          events := events[overflow..];
        }
      }
    }

    method OldestTerminalRow(rows: set<JobId>) returns (r: Option<JobId>)
      ensures r.None? ==> forall j :: j in TerminalJobs(View()) ==> j in rows
      ensures r.Some? ==> r.value in TerminalJobs(View()) - rows
      ensures r.Some? ==> forall j :: j in TerminalJobs(View()) && j !in rows ==>
                                        OlderThan(heads[r.value], r.value, heads[j], j)
    {
      r := None;
      var todo := heads.Keys;
      while todo != {}
        invariant todo <= heads.Keys
        invariant r.None? ==> forall j :: j in TerminalJobs(View()) && j !in rows ==> j in todo
        invariant r.Some? ==> r.value in TerminalJobs(View()) - rows
        invariant r.Some? ==> forall j :: j in TerminalJobs(View()) && j !in rows && j !in todo ==>
                                            OlderThan(heads[r.value], r.value, heads[j], j)
      {
        SomeMember(todo);
        var j :| j in todo;
        if Terminal(heads[j].state) && j !in rows && (r.None? || OlderThan(heads[j], j, heads[r.value], r.value)) {
          r := Some(j);
        }
        todo := todo - {j};
      }
    }

    /** Removes the oldest terminal rows down to the low-water mark when the
        table is full; refuses when only unfinished jobs are left. */
    method MakeRoom() returns (ok: bool, ghost evicted: set<JobId>)
      modifies this
      ensures OldestTerminal(old(View()), evicted, RoomWanted(old(View())))
      ensures ok <==> RoomWanted(old(View())) == 0 || evicted != {}
      ensures View() == old(View()).(heads := old(heads) - evicted)
    {
      var rows: set<JobId> := {};
      evicted := {};
      var count := |heads|;
      if limits.maxJobs == 0 || count < limits.maxJobs {
        ok := true;
        assert heads - evicted == heads;
        return;
      }
      var lowWater := Max(0, limits.maxJobs - Max(1, limits.maxJobs / 10));
      var remove := count - lowWater;
      assert remove == RoomWanted(View());
      var more := true;
      while |rows| < remove && more
        invariant View() == old(View())
        invariant rows <= TerminalJobs(View()) && |rows| <= remove
        invariant forall i, j :: i in rows && j in TerminalJobs(View()) && j !in rows ==> OlderThan(heads[i], i, heads[j], j)
        invariant !more ==> TerminalJobs(View()) <= rows
        decreases remove - |rows|, more
      {
        var next := OldestTerminalRow(rows);
        if next.Some? {
          rows := rows + {next.value};
        } else {
          more := false;
        }
      }
      SubsetCard(rows, TerminalJobs(View()));
      if !more { assert rows == TerminalJobs(View()); }
      evicted := rows;
      ok := rows != {};
      heads := heads - rows;
    }

    method Create(job: Job, key: Option<int>, fingerprint: Option<int>) returns (r: Reply<Creation>, ghost op: Op)
      modifies this
      ensures op.Create? && op == Op.Create(job, key, fingerprint, op.evicted)
      ensures Enabled(old(View()), op) && View() == Apply(old(View()), op)
      ensures CreateGranted(old(View()), op) <==> r.Ok? && r.value.created
      ensures r.Ok? && r.value.created ==> r.value.job == Encode(job)
      ensures r.Ok? && !r.value.created ==> Replays(old(View()), key, fingerprint, r.value.job)
    {
      ghost var before := View();
      var saved := heads;
      var replayed := FindKey(key);
      if replayed.Some? {
        TakenBy(before, key, replayed.value);
      }
      var ok; ghost var evicted;
      ok, evicted := MakeRoom();
      op := Op.Create(job, key, fingerprint, evicted);
      if replayed.Some? {
        heads := saved;
        if saved[replayed.value].fingerprint == fingerprint {
          r := Ok(Creation(saved[replayed.value].job, false));
          ReplayedBy(before, key, fingerprint, replayed.value);
        } else {
          r := Err(Conflict);
        }
        return;
      }
      if job.id in saved || (exists k :: 0 <= k < |events| && events[k].id == job.id && events[k].revision == 0) {
        heads := saved;
        r := Err(Conflict);
        return;
      }
      if !ok {
        heads := saved;
        r := Err(AtCapacity);
        return;
      }
      assert CreateGranted(before, op);
      Store(job.id, NewHead(job, key, fingerprint), Encode(job).updatedAt);
      r := Ok(Creation(Encode(job), true));
    }

    method FindKey(key: Option<int>) returns (r: Option<JobId>)
      ensures r.None? ==> !KeyTaken(View(), key)
      ensures r.Some? ==> key.Some? && r.value in heads && heads[r.value].key == key
    {
      r := None;
      if key.Some? {
        var todo := heads.Keys;
        while todo != {}
          invariant todo <= heads.Keys
          invariant forall j :: j in heads && j !in todo ==> heads[j].key != key
        {
          SomeMember(todo);
          var j :| j in todo;
          if heads[j].key == key { return Some(j); }
          todo := todo - {j};
        }
      }
    }

    /** Fails every due waiting job that has no attempts left. */
    method FailExhaustedRows(now: Time) returns (ghost sweep: seq<JobId>)
      modifies this
      ensures forall i, j :: 0 <= i < j < |sweep| ==> sweep[i] != sweep[j]
      ensures forall j :: j in sweep <==> j in ExhaustedJobs(old(View()), now)
      ensures View() == Sweep(old(View()), sweep, now)
    {
      ghost var before := View();
      sweep := [];
      var todo := set j | j in heads && Exhausted(heads[j], now);
      while todo != {}
        invariant forall i, j :: 0 <= i < j < |sweep| ==> sweep[i] != sweep[j]
        invariant forall j :: j in sweep ==> j !in todo
        invariant forall j :: j in sweep || j in todo <==> j in ExhaustedJobs(before, now)
        invariant View() == Sweep(before, sweep, now)
      {
        SomeMember(todo);
        var j :| j in todo;
        SweepOneMore(before, sweep, j, now);
        Store(j, FailExhausted(heads[j], now), now);
        sweep := sweep + [j];
        todo := todo - {j};
      }
    }

    method DropExpiredDirects(now: Time)
      modifies this`directs
      ensures View() == DropExpired(old(View()), now)
    {
      directs := map t | t in directs && now < directs[t].expiresAt :: directs[t];
    }

    /** The row the claim query returns. */
    method SelectCandidate(now: Time, exclude: set<JobId>) returns (r: Option<JobId>)
      ensures r.Some? ==> FirstCandidate(View(), r.value, now, exclude)
      ensures r.None? ==> forall j :: !Candidate(View(), j, now, exclude)
    {
      r := None;
      var todo := heads.Keys;
      while todo != {}
        invariant todo <= heads.Keys
        invariant r.Some? ==> r.value in heads && Candidate(View(), r.value, now, exclude)
        invariant r.Some? ==> forall j :: j in heads && j !in todo && Candidate(View(), j, now, exclude) ==>
                                            Precedes(heads[r.value], r.value, heads[j], j)
        invariant r.None? ==> forall j :: j in heads && j !in todo ==> !Candidate(View(), j, now, exclude)
      {
        SomeMember(todo);
        var j :| j in todo;
        var eligible := IsCandidate(j, now, exclude);
        if eligible && (r.None? || Precedes(heads[j], j, heads[r.value], r.value)) {
          r := Some(j);
        }
        todo := todo - {j};
      }
    }

    method IsCandidate(j: JobId, now: Time, exclude: set<JobId>) returns (yes: bool)
      requires j in heads
      ensures yes == Candidate(View(), j, now, exclude)
    {
      var t := heads[j].target;
      yes := Claimable(heads[j], now) && j !in exclude && !(t in directs && now < directs[t].expiresAt)
             && (forall k :: k in heads && k != j && heads[k].target == t ==> !Holding(heads[k], now));
    }

    method ClaimNext(worker: Owner, now: Time, ttl: int, maxRunning: int, exclude: set<JobId>, token: Token)
      returns (r: Reply<Option<Claim>>, ghost op: Op)
      modifies this
      ensures op.ClaimNext? && op == Op.ClaimNext(worker, now, ttl, maxRunning, exclude, token, op.sweep, op.picked)
      ensures Enabled(old(View()), op) && View() == Apply(old(View()), op)
      ensures r == if ClaimArgumentsOk(op) then Ok(Issued(old(View()), op)) else Err(InvalidArgument)
    {
      ghost var before := View();
      if maxRunning <= 0 || ttl <= 0 {
        ghost var sweep := ExhaustedList(ExhaustedJobs(before, now));
        op := Op.ClaimNext(worker, now, ttl, maxRunning, exclude, token, sweep, None);
        return Err(InvalidArgument), op;
      }
      ghost var sweep;
      sweep := FailExhaustedRows(now);
      DropExpiredDirects(now);
      var live := set j | j in heads && Holding(heads[j], now);
      assert live == HoldingJobs(View(), now);
      if maxRunning <= |live| {
        op := Op.ClaimNext(worker, now, ttl, maxRunning, exclude, token, sweep, None);
        return Ok(None), op;
      }
      var picked := SelectCandidate(now, exclude);
      op := Op.ClaimNext(worker, now, ttl, maxRunning, exclude, token, sweep, picked);
      assert View() == Swept(before, op);
      if picked.None? {
        return Ok(None), op;
      }
      var row := heads[picked.value];
      var job := ClaimedJob(row.job, now);
      var claimed := row.(job := job, state := job.state, updatedAt := now, availableAt := job.availableAt,
                          attempt := job.attempt, maxAttempts := job.maxAttempts, revision := row.revision + 1,
                          owner := Some(worker), token := Some(token), epoch := row.epoch + 1,
                          expiresAt := Some(now + ttl), heartbeatAt := Some(now));
      assert claimed == ClaimHead(row, op);
      Store(picked.value, claimed, now);
      return Ok(Some(Claim(job, token, row.epoch + 1, worker, now + ttl))), op;
    }

    /** Serialises a direct deployment with the jobs of its target. */
    method AcquireTargetOperation(target: TargetId, owner: Owner, now: Time, ttl: int, token: Token)
      returns (r: Reply<Option<Direct>>)
      modifies this
      ensures var op := Op.Acquire(target, owner, now, ttl, token);
              && View() == Apply(old(View()), op)
              && r == if ttl <= 0 then Err(InvalidArgument)
                      else if AcquireGranted(old(View()), op) then Ok(Some(Direct(owner, token, now + ttl))) else Ok(None)
    {
      if ttl <= 0 { return Err(InvalidArgument); }
      DropExpiredDirects(now);
      if exists j :: j in heads && heads[j].target == target && Holding(heads[j], now) { return Ok(None); }
      if target in directs { return Ok(None); }
      directs := directs[target := Direct(owner, token, now + ttl)];
      heads := map j | j in heads ::
        if heads[j].target == target && Active(heads[j].state) && !Unexpired(heads[j].expiresAt, now)
        then Fenced(heads[j]) else heads[j];
      return Ok(Some(Direct(owner, token, now + ttl)));
    }

    method ReleaseTargetOperation(target: TargetId, owner: Owner, token: Token) returns (r: Reply<()>)
      modifies this`directs
      ensures View() == Apply(old(View()), Op.Release(target, owner, token))
      ensures r == if DirectOwned(old(View()), Op.Release(target, owner, token)) then Ok(()) else Err(LeaseLost)
    {
      if target in directs && directs[target].owner == owner && directs[target].token == token {
        directs := directs - {target};
        return Ok(());
      }
      return Err(LeaseLost);
    }

    method RenewTargetOperation(target: TargetId, owner: Owner, token: Token, now: Time, ttl: int) returns (r: Reply<Direct>)
      modifies this`directs
      ensures View() == Apply(old(View()), Op.RenewDirect(target, owner, token, now, ttl))
      ensures r.Ok? <==> ttl > 0 && DirectOwned(old(View()), Op.RenewDirect(target, owner, token, now, ttl))
                         && now < old(directs)[target].expiresAt
      ensures r.Ok? ==> r.value == Direct(owner, token, now + ttl) == directs[target]
    {
      if ttl <= 0 { return Err(InvalidArgument); }
      if target in directs && directs[target].owner == owner && directs[target].token == token
         && now < directs[target].expiresAt {
        directs := directs[target := Direct(owner, token, now + ttl)];
        return Ok(directs[target]);
      }
      return Err(LeaseLost);
    }

    method LeasedRow(c: Claim, now: Time) returns (r: Reply<Head>)
      ensures r.Ok? <==> Leased(View(), c, now)
      ensures r.Ok? ==> r.value == heads[c.job.id]
      ensures r.Err? ==> r.error == LeaseLost
    {
      if c.job.id in heads {
        var h := heads[c.job.id];
        if h.owner == Some(c.owner) && h.token == Some(c.token) && h.epoch == c.epoch && Active(h.state)
           && Unexpired(h.expiresAt, now) && (h.heartbeatAt.None? || h.heartbeatAt.value <= now)
           && !(h.target in directs && now < directs[h.target].expiresAt) {
          return Ok(h);
        }
      }
      return Err(LeaseLost);
    }

    method Renew(c: Claim, now: Time, ttl: int) returns (r: Reply<Claim>)
      modifies this`heads
      ensures View() == Apply(old(View()), Op.Renew(c, now, ttl))
      ensures r.Ok? <==> ttl > 0 && Leased(old(View()), c, now)
      ensures r.Ok? ==> r.value == c.(job := old(heads)[c.job.id].job, expiresAt := now + ttl)
    {
      if ttl <= 0 { return Err(InvalidArgument); }
      var row := LeasedRow(c, now);
      if row.Err? { return Err(row.error); }
      heads := heads[c.job.id := row.value.(expiresAt := Some(now + ttl), heartbeatAt := Some(now))];
      return Ok(c.(job := row.value.job, expiresAt := now + ttl));
    }

    method Complete(c: Claim, updated: Job, now: Time) returns (r: Reply<Job>)
      modifies this
      ensures View() == Apply(old(View()), Op.Complete(c, updated, now))
      ensures r.Ok? <==> CompleteGranted(old(View()), Op.Complete(c, updated, now))
      ensures r.Ok? ==> r.value == Encode(updated)
    {
      var job := Encode(updated);
      if job.id != c.job.id || job.state.Pending? || Active(job.state) { return Err(InvalidArgument); }
      var row := LeasedRow(c, now);
      if row.Err? { return Err(row.error); }
      var cancellationTerminal := job.state.Cancelled? || job.state.Failed?;
      var acknowledged := job.state.Succeeded? && job.result.Some? && !job.capability.Guard?;
      if row.value.state.Cancelling? && !cancellationTerminal && !acknowledged { return Err(LeaseLost); }
      Store(job.id, CompleteHead(row.value, updated), job.updatedAt);
      return Ok(job);
    }

    method RequestCancel(id: JobId, now: Time) returns (r: Reply<Job>)
      modifies this
      ensures View() == Apply(old(View()), Op.RequestCancel(id, now))
      ensures r == if id in heads then Ok(heads[id].job) else Err(NotFound)
    {
      if id !in heads { return Err(NotFound); }
      var row := heads[id];
      if Terminal(row.job.state) || row.job.state.Cancelling? { return Ok(row.job); }
      Store(id, CancelHead(row, now), now);
      return Ok(heads[id].job);
    }

    method ManualRetry(id: JobId, now: Time) returns (r: Reply<Job>)
      modifies this
      ensures View() == Apply(old(View()), Op.ManualRetry(id, now))
      ensures r == if id !in old(heads) then Err(NotFound)
                   else if Retryable(old(heads)[id].job.state) then Ok(heads[id].job) else Err(Conflict)
    {
      if id !in heads { return Err(NotFound); }
      if !heads[id].job.state.Failed? && !heads[id].job.state.Cancelled? { return Err(Conflict); }
      Store(id, RetryHead(heads[id], now), now);
      return Ok(heads[id].job);
    }

    method UpdateDerivedResult(id: JobId, seen: Observation, now: Time) returns (r: Option<Job>)
      modifies this
      ensures View() == Apply(old(View()), Op.UpdateDerived(id, seen, now))
      ensures r == if id in heads then Some(heads[id].job) else None
    {
      if id !in heads { return None; }
      var row := heads[id];
      if !DerivedOpen(row.job) { return Some(row.job); }
      var detail := Detail(!row.job.capability.Host?, seen.derived, if seen.derived.DerivedPartial? then seen.reason else None);
      var result := row.job.result.value.(
        derived := Some(seen.derived), derivedRecords := Max(0, seen.records), derivedTruncated := seen.truncated,
        derivedReason := seen.reason, derivedAttempts := Max(0, seen.attempts), derivedAt := Some(now), detail := Some(detail));
      var job := row.job.(result := Some(result), updatedAt := now);
      Store(id, row.(job := job, updatedAt := now, revision := row.revision + 1), now);
      return Some(job);
    }
  }

  /** The inserted row, written out column by column. */
  function NewHead(job: Job, key: Option<int>, fingerprint: Option<int>): Head {
    InitialHead(Op.Create(job, key, fingerprint, {}))
  }

  /** Some listing of a finite set without repetition. */
  ghost function ExhaustedList(ids: set<JobId>): (r: seq<JobId>)
    ensures forall i, j :: 0 <= i < j < |r| ==> r[i] != r[j]
    ensures forall j :: j in r <==> j in ids
  {
    if ids == {} then [] else
      SomeMember(ids);
      var j :| j in ids;
      [j] + ExhaustedList(ids - {j})
  }
}
