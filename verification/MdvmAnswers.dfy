/** What the steps of a synchronisation answer: which mode is planned, when the
    lease is given, when a batch is stored, and what a batch leaves of a device. */
module MdvmAnswers {
  import opened Basics
  import opened MdvmModel
  import opened MdvmRuns

  // -------------------------------------------------------------- planning

  /** A baseline is planned when none was acknowledged, the last one is as old as
      the refresh interval, or the watermark is thirteen days old; otherwise a
      delta from the watermark less the overlap. */
  lemma PlanAnswer(cfg: Config, s: Store, started: Time)
    ensures var due := || s.watermark == None || s.lastBaseline == None
                       || s.lastBaseline.value <= started - cfg.refresh
                       || s.watermark.value <= started - 1_123_200_000_000;
            var p := PlanOf(cfg, s, started);
            p.Planned? && p.baseline == due && (!due ==> p.since == s.watermark.value - cfg.overlap)
  {}

  /** The owner's success sets the watermark to its own start, remembers it as the
      last baseline if it was one, and frees the lease; a failure only frees the
      lease; neither does anything for anyone else. */
  lemma EndAnswer(s: Store, owner: Owner, started: Time, baseline: bool)
    ensures var own := s.lease != None && s.lease.value.owner == owner;
            && Success(s, owner, started, baseline) ==
               (if own then Store(s.tables, None, Some(started), if baseline then Some(started) else s.lastBaseline) else s)
            && Failure(s, owner) == (if own then Store(s.tables, None, s.watermark, s.lastBaseline) else s)
  {}

  /** The lease is given to its own holder, or when it is free or over, and then
      lasts for the given time from the caller's own start. */
  lemma LeaseAnswer(s: Store, owner: Owner, now: Time, duration: Time, other: Owner, later: Time)
    requires other != owner
    ensures var given := s.lease == None || s.lease.value.owner == owner || now >= s.lease.value.until;
            && (Acquirable(s, owner, now) <==> given)
            && Acquire(s, owner, now, duration) ==
               (if given then Store(s.tables, Some(Lease(owner, now + duration)), s.watermark, s.lastBaseline) else s)
            && (given ==> (Acquirable(Acquire(s, owner, now, duration), other, later) <==> later >= now + duration))
  {}

  /** Where a stored baseline time comes from: an acknowledged baseline that
      started then. */
  lemma {:induction false} BaselineOrigin(log: Log, cfg: Config, states: seq<System>, steps: seq<Step>, n: nat) returns (m: nat)
    requires IsRun(log, cfg, states, steps) && n < |states| && states[n].store.lastBaseline.Some?
    ensures m < n && steps[m].Succeed? && At(states[m], steps[m].owner, (x: Phase) => x.Applied? && x.baseline)
    ensures states[m].syncers[steps[m].owner].started == states[n].store.lastBaseline.value
  {
    assert n > 0;
    m := n - 1;
    assert StepAt(log, cfg, states, steps, m);
    if states[m].store.lastBaseline == states[n].store.lastBaseline {
      m := BaselineOrigin(log, cfg, states, steps, m);
    }
  }

  /** Over every run: a delta is planned only on top of an acknowledged baseline
      that started less than the refresh interval before. */
  lemma DeltaFollowsBaseline(log: Log, cfg: Config, states: seq<System>, steps: seq<Step>, n: nat) returns (m: nat)
    requires IsRun(log, cfg, states, steps) && n < |steps| && steps[n].Plan?
    requires At(states[n + 1], steps[n].owner, (x: Phase) => x.Planned? && !x.baseline)
    ensures m < n && steps[m].Succeed? && At(states[m], steps[m].owner, (x: Phase) => x.Applied? && x.baseline)
    ensures states[n + 1].syncers[steps[n].owner].started - states[m].syncers[steps[m].owner].started < cfg.refresh
  {
    assert StepAt(log, cfg, states, steps, n);
    PlanAnswer(cfg, states[n].store, states[n].syncers[steps[n].owner].started);
    m := BaselineOrigin(log, cfg, states, steps, n);
  }

  // --------------------------------------------------------------- batches

  /** When a batch is stored, and what then is in the tables. */
  lemma CommitAnswer(s: Store, owner: Owner, q: seq<Change>, limits: Limits)
    ensures var own := s.lease != None && s.lease.value.owner == owner;
            var clash := exists i, j :: 0 <= i < j < |q| && q[i].key == q[j].key && q[i].at == q[j].at && q[i].action != q[j].action;
            var listed := PutAll(EMPTY, AsUpserts(q));
            var folded := PutAll(s.tables, Ordered(q));
            && Baseline(s, owner, q, limits) ==
               (if !own then LeaseLost
                else if |listed.findings| <= limits.maxFindings && limits.bytes(listed.findings) <= limits.maxBytes then Committed(listed)
                else TooLarge)
            && Delta(s, owner, q, limits) ==
               (if clash then AmbiguousBatch else if !own then LeaseLost
                else if |folded.findings| <= limits.maxFindings && limits.bytes(folded.findings) <= limits.maxBytes then Committed(folded)
                else TooLarge)
  {
    forall i, j | 0 <= i < j < |q|
      ensures Clash(q[i], q[j]) <==> q[i].key == q[j].key && q[i].at == q[j].at && q[i].action != q[j].action {}
  }

  /** The changes of one instant and one kind, in order. */
  function Pick(q: seq<Change>, at: Time, action: Action): seq<Change> {
    if q == [] then []
    else
      var rest, c := Pick(q[..|q| - 1], at, action), q[|q| - 1];
      if c.at == at && c.action == action then rest + [c] else rest
  }

  lemma PickSnoc(q: seq<Change>, c: Change, at: Time, action: Action)
    ensures Pick(q + [c], at, action) == Pick(q, at, action) + if c.at == at && c.action == action then [c] else []
  {
    assert (q + [c])[..|q|] == q;
  }

  lemma {:induction false} InsertKeepsOrder(q: seq<Change>, c: Change, at: Time, action: Action)
    ensures Pick(Insert(q, c), at, action) == Pick(q + [c], at, action)
  {
    PickSnoc(q, c, at, action);
    if q != [] && !NotAfter(q[|q| - 1], c) {
      var init, z := q[..|q| - 1], q[|q| - 1];
      assert q == init + [z];
      InsertKeepsOrder(init, c, at, action);
      PickSnoc(init, c, at, action);
      PickSnoc(init, z, at, action);
      PickSnoc(Insert(init, c), z, at, action);
    }
  }

  lemma {:induction false} OrderedIsStable(q: seq<Change>, at: Time, action: Action)
    ensures Pick(Ordered(q), at, action) == Pick(q, at, action)
  {
    if q != [] {
      var init, c := q[..|q| - 1], q[|q| - 1];
      OrderedIsStable(init, at, action);
      InsertKeepsOrder(Ordered(init), c, at, action);
      PickSnoc(Ordered(init), c, at, action);
      PickSnoc(init, c, at, action);
      assert q == init + [c];
    }
  }

  /** The order in which a delta is folded: by event time, at one instant upserts
      before fixes, and otherwise as the batch lists them. */
  lemma FoldingOrder(q: seq<Change>, i: nat, j: nat, at: Time, action: Action)
    ensures multiset(Ordered(q)) == multiset(q)
    ensures i < j < |Ordered(q)| ==>
              var a, b := Ordered(q)[i], Ordered(q)[j];
              a.at <= b.at && (a.at == b.at && a.action == Fixed ==> b.action == Fixed)
    ensures Pick(Ordered(q), at, action) == Pick(q, at, action)
  {
    OrderedIsStable(q, at, action);
  }

  /** A device shows the profile of the last change folded for it. */
  lemma {:induction false} ProfileIsLast(t: Tables, q: seq<Change>, i: nat)
    requires i < |q| && forall j :: i < j < |q| ==> q[j].device != q[i].device
    ensures q[i].device in PutAll(t, q).devices && PutAll(t, q).devices[q[i].device].profile == q[i].profile
  {
    if i < |q| - 1 {
      var init := q[..|q| - 1];
      ProfileIsLast(t, init, i);
      assert init[i] == q[i];
    }
  }

  /** A device no change speaks of keeps its row. */
  lemma {:induction false} OtherDevicesStay(t: Tables, q: seq<Change>, d: Device)
    requires forall j :: 0 <= j < |q| ==> q[j].device != d
    ensures (d in PutAll(t, q).devices <==> d in t.devices) && (d in t.devices ==> PutAll(t, q).devices[d] == t.devices[d])
  {
    if q != [] { OtherDevicesStay(t, q[..|q| - 1], d); }
  }
}
