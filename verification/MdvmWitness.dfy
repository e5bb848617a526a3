/** A run in which a device is emptied between two baselines and the Analyzer is
    never told. */
module MdvmWitness {
  import opened Basics
  import opened MdvmModel
  import opened MdvmFold
  import opened MdvmRuns

  /** Record 1 appears on device 5 and is fixed there soon after. */
  const APPEARS := Change(1, Upsert, 5, 0, 10, 8)
  const FIXED := Change(1, Fixed, 5, 0, 20, 8)
  const LOG: Log := map[APPEARS := 10, FIXED := 20]

  /** Ample limits, an overlap of 5 and a refresh every 100. */
  function Setup(): Config { Config(5, 100, 50, Limits(10, 10, _ => 0)) }

  lemma LogIsFine()
    ensures Upstream(LOG, Setup().overlap)
    ensures Visible(LOG, 10) == {APPEARS} && Visible(LOG, 110) == LOG.Keys && Visible(LOG, 120) == LOG.Keys
  {}

  lemma BaselinesAreExact()
    ensures ExactExport([APPEARS], {APPEARS}) && ExactExport([], LOG.Keys)
  {
    var q := [APPEARS];
    assert AsUpserts(q) == q && q[..0] == [];
    assert PutAll(EMPTY, q[..0]) == EMPTY;
    assert PutAll(EMPTY, q) == Put(EMPTY, APPEARS);
    assert BackedBy(APPEARS, 1, Row(5, 8), {APPEARS});
    assert AsUpserts([]) == [];
    forall c | Newest(c, LOG.Keys) ensures c == FIXED {
      assert c == APPEARS ==> FIXED.at <= c.at;
    }
  }

  lemma Step(states: seq<System>, steps: seq<MdvmRuns.Step>, p: MdvmRuns.Step) returns (more: seq<System>, calls: seq<MdvmRuns.Step>)
    requires IsRun(LOG, Setup(), states, steps) && Can(LOG, states[|steps|], p)
    ensures IsRun(LOG, Setup(), more, calls)
    ensures more == states + [Next(LOG, Setup(), states[|steps|], p)] && calls == steps + [p]
  {
    more, calls := states + [Next(LOG, Setup(), states[|steps|], p)], steps + [p];
    forall i | 0 <= i < |calls| ensures StepAt(LOG, Setup(), more, calls, i) {
      assert i < |steps| ==> StepAt(LOG, Setup(), states, steps, i);
    }
  }

  /** A synchronisation that gets as far as its hand-over. */
  function AfterCommit(y: System, o: Owner, now: Time, batch: seq<Change>, tables: Tables): System {
    var p := PlanOf(Setup(), y.store, now);
    var x := if p.Planned? then Applied(p.baseline, now, DevicesOf(batch)) else Over;
    System(y.store.(tables := tables, lease := Some(Lease(o, now + 50))),
           y.syncers[o := Syncer(now, x)], now, Some(now))
  }

  function Held(y: System, o: Owner, now: Time): Store {
    y.store.(lease := Some(Lease(o, now + 50)))
  }

  /** The system while `o` holds the lease and is in some phase. */
  function While(y: System, o: Owner, now: Time, x: Phase): System {
    System(Held(y, o, now), y.syncers[o := Syncer(now, x)], now, y.mirrored)
  }

  function FetchedOf(y: System, now: Time, batch: seq<Change>): Phase {
    var p := PlanOf(Setup(), y.store, now);
    if p.Planned? then Fetched(p.baseline, p.since, now, batch) else Over
  }

  lemma BeginIs(y: System, o: Owner, now: Time)
    requires y.store.lease.None? && o !in y.syncers && y.clock <= now
    ensures Can(LOG, y, Begin(o, now, now)) && Next(LOG, Setup(), y, Begin(o, now, now)) == While(y, o, now, Begun)
  {}

  lemma ToWhile(y: System, o: Owner, now: Time, x: Phase, next: Phase)
    ensures To(While(y, o, now, x), o, next) == While(y, o, now, next)
  {
    assert y.syncers[o := Syncer(now, x)][o := Syncer(now, next)] == y.syncers[o := Syncer(now, next)];
  }

  lemma PlanIs(y: System, o: Owner, now: Time)
    ensures var z := While(y, o, now, Begun);
            Can(LOG, z, Plan(o)) && Next(LOG, Setup(), z, Plan(o)) == While(y, o, now, PlanOf(Setup(), y.store, now))
  {
    ToWhile(y, o, now, Begun, PlanOf(Setup(), y.store, now));
  }

  lemma FetchIs(y: System, o: Owner, now: Time, batch: seq<Change>)
    requires var p := PlanOf(Setup(), y.store, now); Fetches(LOG, p.baseline, p.since, now, batch)
    ensures var z := While(y, o, now, PlanOf(Setup(), y.store, now));
            && Can(LOG, z, Fetch(o, now, batch))
            && Next(LOG, Setup(), z, Fetch(o, now, batch)) == While(y, o, now, FetchedOf(y, now, batch))
  {
    ToWhile(y, o, now, PlanOf(Setup(), y.store, now), FetchedOf(y, now, batch));
  }

  lemma CommitIs(y: System, o: Owner, now: Time, batch: seq<Change>, tables: Tables)
    requires OutcomeOf(Setup(), Held(y, o, now), o, FetchedOf(y, now, batch)) == Committed(tables)
    ensures var z := While(y, o, now, FetchedOf(y, now, batch));
            Can(LOG, z, Commit(o)) && Next(LOG, Setup(), z, Commit(o)) == AfterCommit(y, o, now, batch, tables)
  {
    var x := FetchedOf(y, now, batch);
    var applied := Applied(x.baseline, now, DevicesOf(batch));
    ToWhile(y, o, now, x, applied);
    assert AfterCommit(y, o, now, batch, tables) ==
           While(y, o, now, applied).(store := Settle(Held(y, o, now), Committed(tables)), mirrored := Some(now));
  }

  lemma UpToHandOver(states: seq<System>, steps: seq<MdvmRuns.Step>, o: Owner, now: Time, batch: seq<Change>, tables: Tables)
    returns (more: seq<System>, calls: seq<MdvmRuns.Step>)
    requires IsRun(LOG, Setup(), states, steps)
    requires var y := states[|steps|]; y.store.lease.None? && o !in y.syncers && y.clock <= now
    requires var p := PlanOf(Setup(), states[|steps|].store, now); Fetches(LOG, p.baseline, p.since, now, batch)
    requires OutcomeOf(Setup(), Held(states[|steps|], o, now), o, FetchedOf(states[|steps|], now, batch)) == Committed(tables)
    ensures IsRun(LOG, Setup(), more, calls) && |calls| == |steps| + 4 && states <= more
    ensures more[|steps| + 3] == While(states[|steps|], o, now, FetchedOf(states[|steps|], now, batch))
    ensures more[|steps| + 4] == AfterCommit(states[|steps|], o, now, batch, tables)
  {
    var y := states[|steps|];
    BeginIs(y, o, now);
    more, calls := Step(states, steps, Begin(o, now, now));
    PlanIs(y, o, now);
    more, calls := Step(more, calls, Plan(o));
    FetchIs(y, o, now, batch);
    more, calls := Step(more, calls, Fetch(o, now, batch));
    CommitIs(y, o, now, batch, tables);
    more, calls := Step(more, calls, Commit(o));
  }

  lemma Acknowledged(states: seq<System>, steps: seq<MdvmRuns.Step>, o: Owner)
    returns (more: seq<System>, calls: seq<MdvmRuns.Step>)
    requires IsRun(LOG, Setup(), states, steps) && At(states[|steps|], o, (x: Phase) => x.Applied?)
    requires OwnedBy(states[|steps|].store, o)
    ensures IsRun(LOG, Setup(), more, calls) && |calls| == |steps| + 1 && states <= more
    ensures var y, z := states[|steps|], more[|steps| + 1];
            && z.store == Success(y.store, o, y.syncers[o].started, y.syncers[o].phase.baseline)
            && z.syncers.Keys == y.syncers.Keys && z.clock == y.clock
  {
    more, calls := Step(states, steps, Succeed(o));
    assert more[|steps| + 1].syncers.Keys == states[|steps|].syncers.Keys;
  }

  /** The tables after the first baseline. */
  const ONE := Tables(map[1 := Row(5, 8)], map[5 := DeviceRow(0, 10)])

  lemma Outcomes(s: Store, o: Owner)
    requires OwnedBy(s, o)
    ensures Baseline(s, o, [APPEARS], Setup().limits) == Committed(ONE)
    ensures Baseline(s, o, [], Setup().limits) == Committed(EMPTY)
    ensures s.tables == EMPTY ==> Delta(s, o, [], Setup().limits) == Committed(EMPTY)
  {
    var q := [APPEARS];
    assert AsUpserts(q) == q && q[..0] == [];
    assert PutAll(EMPTY, q[..0]) == EMPTY;
    assert PutAll(EMPTY, q) == Put(EMPTY, APPEARS) == ONE;
    assert AsUpserts([]) == [] && Ordered([]) == [];
  }

  /** The first baseline is acknowledged. */
  lemma FirstBaseline() returns (states: seq<System>, steps: seq<MdvmRuns.Step>)
    ensures IsRun(LOG, Setup(), states, steps) && |steps| == 5
    ensures states[5].store == Store(ONE, None, Some(10), Some(10)) && states[5].syncers.Keys == {1} && states[5].clock == 10
  {
    LogIsFine();
    BaselinesAreExact();
    states, steps := [Initial(0)], [];
    assert IsRun(LOG, Setup(), states, steps);
    Outcomes(Initial(0).store.(lease := Some(Lease(1, 60))), 1);
    states, steps := UpToHandOver(states, steps, 1, 10, [APPEARS], ONE);
    states, steps := Acknowledged(states, steps, 1);
  }

  /** The second baseline exports nothing, hands over nothing, and moves the
      watermark past the fix. */
  lemma SecondBaseline() returns (states: seq<System>, steps: seq<MdvmRuns.Step>)
    ensures IsRun(LOG, Setup(), states, steps) && |steps| == 10
    ensures states[5].store.tables == ONE && states[8].store.watermark == Some(10)
    ensures At(states[9], 2, (x: Phase) => x == Applied(true, 110, {})) && OwnedBy(states[9].store, 2)
    ensures states[10].store == Store(EMPTY, None, Some(110), Some(110)) && states[10].syncers.Keys == {1, 2} && states[10].clock == 110
  {
    LogIsFine();
    BaselinesAreExact();
    states, steps := FirstBaseline();
    var y := states[5];
    Outcomes(y.store.(lease := Some(Lease(2, 160))), 2);
    var more, calls := UpToHandOver(states, steps, 2, 110, [], EMPTY);
    assert DevicesOf([]) == {};
    assert more[5] == y && more[9] == AfterCommit(y, 2, 110, [], EMPTY);
    assert more[9].syncers.Keys == {1, 2};
    states, steps := Acknowledged(more, calls, 2);
    assert states[9] == more[9] && states[8] == more[8] && states[5] == more[5];
  }

  /** The fix appeared after the acknowledged watermark 10, and its record is gone
      from the set; yet neither the baseline that noticed nor the delta after it
      hands its device over, and the delta's window no longer reaches back to it. */
  lemma EmptiedDeviceIsNeverHandedOver() returns (states: seq<System>, steps: seq<MdvmRuns.Step>)
    ensures Upstream(LOG, Setup().overlap) && IsRun(LOG, Setup(), states, steps) && |steps| == 14
    ensures 1 in states[5].store.tables.findings && 1 !in states[14].store.tables.findings
    ensures states[8].store.watermark == Some(10) && LOG[FIXED] > 10
    ensures At(states[9], 2, (x: Phase) => x.Applied? && x.baseline && FIXED.device !in x.affected)
    ensures At(states[14], 3, (x: Phase) => x.Applied? && !x.baseline && FIXED.device !in x.affected)
    ensures states[14].store.watermark == Some(110) && FIXED.at < 110 - Setup().overlap
  {
    LogIsFine();
    var before, done := SecondBaseline();
    var y := before[10];
    Outcomes(y.store.(lease := Some(Lease(3, 170))), 3);
    assert Window([], Visible(LOG, 120), 105);
    assert DevicesOf([]) == {};
    states, steps := UpToHandOver(before, done, 3, 120, [], EMPTY);
    assert states[5] == before[5] && states[8] == before[8] && states[9] == before[9];
  }
}
