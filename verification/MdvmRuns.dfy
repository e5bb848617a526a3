/** Every run of the MDVM synchronisation: any number of processes, crashes,
    failed hand-offs and lost leases, over one upstream change log. */
module MdvmRuns {
  import opened Basics
  import opened MdvmModel
  import opened MdvmFold

  /** The upstream log: each change with the instant from which an export shows it. */
  type Log = map<Change, Time>

  datatype Config = Config(overlap: Time, refresh: Time, lease: Time, limits: Limits)

  /** Where one call of `sync_once` stands between two awaits. */
  datatype Phase =
    | Begun
    | Planned(baseline: bool, since: Time)
    | Fetched(baseline: bool, since: Time, at: Time, batch: seq<Change>)
    | Applied(baseline: bool, at: Time, affected: set<Device>)
    | Over

  datatype Syncer = Syncer(started: Time, phase: Phase)

  /** `mirrored` is the fetch instant of the batch committed last. */
  datatype System = System(store: Store, syncers: map<Owner, Syncer>, clock: Time, mirrored: Option<Time>)

  datatype Step =
    | Begin(owner: Owner, started: Time, now: Time)
    | Plan(owner: Owner)
    | Fetch(owner: Owner, now: Time, batch: seq<Change>)
    | Commit(owner: Owner)
    | Succeed(owner: Owner)
    | Fail(owner: Owner)

  function Visible(log: Log, u: Time): set<Change> {
    set c | c in log && log[c] <= u
  }

  /** What the design relies on upstream: a change shows up within the overlap
      after its event time, and no record is fixed and active at one time. */
  ghost predicate Upstream(log: Log, overlap: Time) {
    Consistent(log.Keys) && forall c :: c in log ==> log[c] <= c.at + overlap
  }

  /** A full export: the records active at that instant and nothing else. */
  ghost predicate Export(q: seq<Change>, seen: set<Change>) {
    Mirrors(PutAll(EMPTY, AsUpserts(q)).findings, seen)
  }

  ghost predicate Fetches(log: Log, baseline: bool, since: Time, at: Time, q: seq<Change>) {
    if baseline then Export(q, Visible(log, at)) else Window(q, Visible(log, at), since)
  }

  predicate At(y: System, owner: Owner, phase: Phase -> bool) {
    owner in y.syncers && phase(y.syncers[owner].phase)
  }

  /** Owners are never reused and the clock never runs back; nothing else binds
      the order in which the processes step, and a crashed one just stops. */
  ghost predicate Can(log: Log, y: System, p: Step) {
    match p
    case Begin(o, started, now) => o !in y.syncers && started <= now && y.clock <= now
    case Plan(o) => At(y, o, (x: Phase) => x.Begun?)
    case Fetch(o, now, q) =>
      && At(y, o, (x: Phase) => x.Planned?)
      && y.clock <= now
      && Fetches(log, y.syncers[o].phase.baseline, y.syncers[o].phase.since, now, q)
    case Commit(o) => At(y, o, (x: Phase) => x.Fetched?)
    case Succeed(o) => At(y, o, (x: Phase) => x.Applied?)
    case Fail(o) => o in y.syncers && !y.syncers[o].phase.Over?
  }

  function To(y: System, o: Owner, phase: Phase): System
    requires o in y.syncers
  {
    y.(syncers := y.syncers[o := y.syncers[o].(phase := phase)])
  }

  function OutcomeOf(cfg: Config, s: Store, o: Owner, x: Phase): Outcome
    requires x.Fetched?
  {
    if x.baseline then Baseline(s, o, x.batch, cfg.limits) else Delta(s, o, x.batch, cfg.limits)
  }

  /** The mode and window that `sync_once` takes from the stored row. */
  function PlanOf(cfg: Config, s: Store, started: Time): Phase {
    if BaselineDue(s, started, cfg.refresh) then Planned(true, 0)
    else Planned(false, s.watermark.value - cfg.overlap)
  }

  ghost function Next(log: Log, cfg: Config, y: System, p: Step): System
    requires Can(log, y, p)
  {
    match p
    case Begin(o, started, now) =>
      var phase := if Acquirable(y.store, o, started) then Begun else Over;
      y.(store := Acquire(y.store, o, started, cfg.lease), clock := now,
         syncers := y.syncers[o := Syncer(started, phase)])
    case Plan(o) => To(y, o, PlanOf(cfg, y.store, y.syncers[o].started))
    case Fetch(o, now, q) =>
      var x := y.syncers[o].phase;
      To(y, o, Fetched(x.baseline, x.since, now, q)).(clock := now)
    case Commit(o) =>
      var x := y.syncers[o].phase;
      var out := OutcomeOf(cfg, y.store, o, x);
      if out.Committed? then
        To(y, o, Applied(x.baseline, x.at, DevicesOf(x.batch)))
          .(store := Settle(y.store, out), mirrored := Some(x.at))
      else To(y, o, Over).(store := Failure(y.store, o))
    case Succeed(o) =>
      var z := y.syncers[o];
      To(y, o, Over).(store := Success(y.store, o, z.started, z.phase.baseline))
    case Fail(o) => To(y, o, Over).(store := Failure(y.store, o))
  }

  function Initial(clock: Time): System {
    System(Store(EMPTY, None, None, None), map[], clock, None)
  }

  // ----- The invariant -----

  /** A window from the stored watermark less the overlap. */
  predicate FromWatermark(cfg: Config, s: Store, since: Time) {
    s.watermark.Some? && since == s.watermark.value - cfg.overlap
  }

  predicate DevicesWithin(f: map<Key, Row>, devices: set<Device>) {
    forall k :: k in f ==> f[k].device in devices
  }

  /** The devices to hand over: those of every change that has appeared since
      the last acknowledged synchronisation started, or of every active record. */
  ghost predicate Covers(log: Log, s: Store, x: Phase)
    requires x.Applied?
  {
    if x.baseline then DevicesWithin(s.tables.findings, x.affected)
    else s.watermark.Some? && forall c :: c in Visible(log, x.at) && log[c] > s.watermark.value ==> c.device in x.affected
  }

  ghost predicate HolderOk(log: Log, cfg: Config, y: System, z: Syncer) {
    match z.phase
    case Begun => z.started <= y.clock
    case Planned(baseline, since) =>
      z.started <= y.clock && (baseline || FromWatermark(cfg, y.store, since))
    case Fetched(baseline, since, at, q) =>
      && z.started <= at <= y.clock
      && (y.mirrored.Some? ==> y.mirrored.value <= at)
      && (baseline || FromWatermark(cfg, y.store, since))
      && Fetches(log, baseline, since, at, q)
    case Applied(baseline, at, affected) =>
      && y.mirrored == Some(at) && z.started <= at
      && Covers(log, y.store, z.phase)
    case Over => false
  }

  ghost predicate MirrorOk(log: Log, y: System) {
    match y.mirrored
    case None => y.store.watermark.None? && y.store.tables == EMPTY
    case Some(u) =>
      && u <= y.clock
      && (y.store.watermark.Some? ==> y.store.watermark.value <= u)
      && Mirrors(y.store.tables.findings, Visible(log, u))
  }

  /** Only the lease holder is bound: no one else can still write. */
  ghost predicate Ok(log: Log, cfg: Config, y: System) {
    && MirrorOk(log, y)
    && (y.store.lease.Some? ==>
      var o := y.store.lease.value.owner;
      o in y.syncers && HolderOk(log, cfg, y, y.syncers[o]))
  }

  lemma VisibleGrows(log: Log, u: Time, v: Time)
    requires u <= v
    ensures Visible(log, u) <= Visible(log, v)
  {}

  /** A delta window carries the set from one fetch instant to the next. */
  lemma DeltaMirrors(log: Log, cfg: Config, t: Tables, u: Time, watermark: Time, at: Time, q: seq<Change>)
    requires Upstream(log, cfg.overlap) && watermark <= u <= at
    requires Mirrors(t.findings, Visible(log, u)) && Window(q, Visible(log, at), watermark - cfg.overlap)
    ensures Mirrors(PutAll(t, Ordered(q)).findings, Visible(log, at))
  {
    VisibleGrows(log, u, at);
    OrderedMembers(q);
    assert Rows(Ordered(q)) == Rows(q);
    forall c | c in Visible(log, at) && c.at < watermark - cfg.overlap ensures c in Visible(log, u) {
      assert log[c] <= c.at + cfg.overlap;
    }
    WindowMirrors(t, Ordered(q), Visible(log, u), Visible(log, at), watermark - cfg.overlap);
  }

  /** The overlap must reach as far as upstream lags: a change that shows up
      later than that is missed by the window after its event time. */
  lemma LateChangeIsMissed()
    ensures var c := Change(1, Upsert, 1, 1, 0, 1);
            var log: Log := map[c := 100];
            && Mirrors(map[], Visible(log, 50))
            && Window([], Visible(log, 100), 50 - 10)
            && !Mirrors(PutAll(EMPTY, Ordered([])).findings, Visible(log, 100))
  {
    var c := Change(1, Upsert, 1, 1, 0, 1);
    var log: Log := map[c := 100];
    assert Visible(log, 50) == {};
    assert Visible(log, 100) == {c};
    assert Newest(c, {c});
  }

  /** A change that appeared after the watermark lies in the window. */
  lemma WindowReaches(log: Log, cfg: Config, watermark: Time, at: Time, q: seq<Change>)
    requires Upstream(log, cfg.overlap) && Window(q, Visible(log, at), watermark - cfg.overlap)
    ensures forall c :: c in Visible(log, at) && log[c] > watermark ==> c.device in DevicesOf(q)
  {
    forall c | c in Visible(log, at) && log[c] > watermark ensures c.device in DevicesOf(q) {
      assert c in Rows(q);
    }
  }

  /** Every active record of a baseline belongs to one of its devices. */
  lemma ExportCovers(q: seq<Change>)
    ensures DevicesWithin(PutAll(EMPTY, AsUpserts(q)).findings, DevicesOf(q))
  {
    var r := AsUpserts(q);
    var f := PutAll(EMPTY, r).findings;
    forall k | k in f ensures f[k].device in DevicesOf(q) {
      PutAllAt(EMPTY, r, k);
      assert q[LastOf(r, k).value] in q;
    }
  }

  lemma CommitKept(log: Log, cfg: Config, y: System, o: Owner)
    requires Upstream(log, cfg.overlap) && Ok(log, cfg, y) && Can(log, y, Commit(o))
    ensures Ok(log, cfg, Next(log, cfg, y, Commit(o)))
  {
    var x := y.syncers[o].phase;
    if OwnedBy(y.store, o) {
      if x.baseline {
        ExportCovers(x.batch);
      } else {
        var w := y.store.watermark.value;
        WindowReaches(log, cfg, w, x.at, x.batch);
        DeltaMirrors(log, cfg, y.store.tables, y.mirrored.value, w, x.at, x.batch);
      }
    }
  }

  lemma StepKept(log: Log, cfg: Config, y: System, p: Step)
    requires Upstream(log, cfg.overlap) && Ok(log, cfg, y) && Can(log, y, p)
    ensures Ok(log, cfg, Next(log, cfg, y, p))
  {
    if p.Commit? { CommitKept(log, cfg, y, p.owner); }
  }

  // ----- Runs -----

  ghost predicate StepAt(log: Log, cfg: Config, states: seq<System>, steps: seq<Step>, i: nat)
    requires i < |steps| && |states| == |steps| + 1
  {
    Can(log, states[i], steps[i]) && states[i + 1] == Next(log, cfg, states[i], steps[i])
  }

  ghost predicate IsRun(log: Log, cfg: Config, states: seq<System>, steps: seq<Step>) {
    && |states| == |steps| + 1
    && (exists clock :: states[0] == Initial(clock))
    && (forall i :: 0 <= i < |steps| ==> StepAt(log, cfg, states, steps, i))
  }

  lemma {:induction false} AlwaysOk(log: Log, cfg: Config, states: seq<System>, steps: seq<Step>, n: nat)
    requires Upstream(log, cfg.overlap) && IsRun(log, cfg, states, steps) && n < |states|
    ensures Ok(log, cfg, states[n])
  {
    if n > 0 {
      AlwaysOk(log, cfg, states, steps, n - 1);
      assert StepAt(log, cfg, states, steps, n - 1);
      StepKept(log, cfg, states[n - 1], steps[n - 1]);
    }
  }

  /** Overlapping windows converge: whatever crashed, failed or was repeated, the
      active keys are those of folding the log up to the last committed fetch
      once, in time order; and the stored findings too if no record changes
      twice at one time. */
  lemma WindowsConverge(
    log: Log, cfg: Config, states: seq<System>, steps: seq<Step>, n: nat, once: seq<Change>)
    requires Upstream(log, cfg.overlap) && IsRun(log, cfg, states, steps) && n < |states|
    requires states[n].mirrored.Some? && TimeOrdered(once)
    requires Rows(once) == Visible(log, states[n].mirrored.value)
    ensures var f := states[n].store.tables.findings;
            && f.Keys == PutAll(EMPTY, once).findings.Keys
            && (Functional(log.Keys) ==> f == PutAll(EMPTY, once).findings)
  {
    AlwaysOk(log, cfg, states, steps, n);
    var f, seen := states[n].store.tables.findings, Rows(once);
    FoldOnceMirrors(once, seen);
    MirrorsKeys(f, PutAll(EMPTY, once).findings, seen);
    if Functional(log.Keys) {
      assert Functional(seen);
      MirrorsRows(f, PutAll(EMPTY, once).findings, seen);
    }
  }

  /** An acknowledged synchronisation is never ahead of the set: every change
      that had appeared when it started is in it. */
  lemma WatermarkIsCovered(log: Log, cfg: Config, states: seq<System>, steps: seq<Step>, n: nat)
    requires Upstream(log, cfg.overlap) && IsRun(log, cfg, states, steps) && n < |states|
    requires states[n].store.watermark.Some?
    ensures states[n].mirrored.Some?
    ensures Visible(log, states[n].store.watermark.value) <= Visible(log, states[n].mirrored.value)
  {
    AlwaysOk(log, cfg, states, steps, n);
  }

  lemma StepAdvances(log: Log, cfg: Config, states: seq<System>, steps: seq<Step>, n: nat)
    requires Upstream(log, cfg.overlap) && IsRun(log, cfg, states, steps) && n < |steps| && states[n].mirrored.Some?
    ensures states[n + 1].mirrored.Some? && states[n].mirrored.value <= states[n + 1].mirrored.value
  {
    AlwaysOk(log, cfg, states, steps, n);
    var y, p := states[n], steps[n];
    assert StepAt(log, cfg, states, steps, n);
    if p.Commit? && OwnedBy(y.store, p.owner) {
      assert HolderOk(log, cfg, y, y.syncers[p.owner]);
    }
  }

  /** The commit instant never goes back, so a late commit by a process that
      lost its lease cannot undo a newer one. */
  lemma {:induction false} MirrorOnlyAdvances(log: Log, cfg: Config, states: seq<System>, steps: seq<Step>, m: nat, n: nat)
    requires Upstream(log, cfg.overlap) && IsRun(log, cfg, states, steps) && m <= n < |states|
    requires states[m].mirrored.Some?
    ensures states[n].mirrored.Some? && states[m].mirrored.value <= states[n].mirrored.value
  {
    if m < n {
      MirrorOnlyAdvances(log, cfg, states, steps, m, n - 1);
      StepAdvances(log, cfg, states, steps, n - 1);
    }
  }

  /** A hand-over that is about to be acknowledged includes the device of every
      change that appeared since the previous acknowledged one started, also
      those that a failed run had already stored. */
  lemma HandOverCoversChanges(log: Log, cfg: Config, states: seq<System>, steps: seq<Step>, n: nat, o: Owner, c: Change)
    requires Upstream(log, cfg.overlap) && IsRun(log, cfg, states, steps) && n < |states|
    requires At(states[n], o, (x: Phase) => x.Applied? && !x.baseline) && OwnedBy(states[n].store, o)
    requires c in log && log[c] <= states[n].syncers[o].phase.at
    requires states[n].store.watermark.Some? && states[n].store.watermark.value < log[c]
    ensures c.device in states[n].syncers[o].phase.affected
  {
    AlwaysOk(log, cfg, states, steps, n);
    assert c in Visible(log, states[n].syncers[o].phase.at);
  }

  // ----------------------------------------------------- baseline hand-overs

  /** The export lists active records only, each as it is at that instant. */
  ghost predicate ExactExport(q: seq<Change>, seen: set<Change>) {
    Export(q, seen) && forall c :: c in q ==> exists m :: BackedBy(m, c.key, Row(c.device, c.payload), seen)
  }

  /** The newest change of some record leaves it active on the device. */
  ghost predicate HasActiveRecord(d: Device, seen: set<Change>) {
    exists m :: Newest(m, seen) && m.action.Upsert? && m.device == d
  }

  lemma ListedIsActive(q: seq<Change>, seen: set<Change>, d: Device)
    requires ExactExport(q, seen) && d in DevicesOf(q)
    ensures HasActiveRecord(d, seen)
  {
    var c :| c in q && c.device == d;
    var m :| BackedBy(m, c.key, Row(c.device, c.payload), seen);
    assert Newest(m, seen) && m.action.Upsert? && m.device == d;
  }

  lemma ActiveIsListed(q: seq<Change>, seen: set<Change>, m: Change)
    requires Export(q, seen) && Functional(seen) && Newest(m, seen) && m.action.Upsert?
    ensures m.device in DevicesOf(q)
  {
    var r := AsUpserts(q);
    var f := PutAll(EMPTY, r).findings;
    assert m.key in f;
    PutAllAt(EMPTY, r, m.key);
    var b :| BackedBy(b, m.key, f[m.key], seen);
    NewestAgree(m, b, seen);
    assert q[LastOf(r, m.key).value] in q;
  }

  /** The devices of an exact export are those with an active record. */
  lemma ExportDevices(q: seq<Change>, seen: set<Change>, d: Device)
    requires ExactExport(q, seen) && Functional(seen)
    ensures d in DevicesOf(q) <==> HasActiveRecord(d, seen)
  {
    if d in DevicesOf(q) { ListedIsActive(q, seen, d); }
    if HasActiveRecord(d, seen) {
      var m :| Newest(m, seen) && m.action.Upsert? && m.device == d;
      ActiveIsListed(q, seen, m);
    }
  }

  /** A baseline hands over a device if and only if the device occurs in the
      export, that is, still has an active record: of the changes that appeared
      since the previous acknowledged synchronisation, those that emptied their
      device are not handed over. */
  lemma BaselineHandsOverIff(
    log: Log, cfg: Config, states: seq<System>, steps: seq<Step>, n: nat, o: Owner, c: Change)
    requires Upstream(log, cfg.overlap) && IsRun(log, cfg, states, steps) && n < |steps| && steps[n] == Commit(o)
    requires At(states[n], o, (x: Phase) => x.Fetched? && x.baseline) && At(states[n + 1], o, (x: Phase) => x.Applied?)
    ensures c.device in states[n + 1].syncers[o].phase.affected <==>
            c.device in DevicesOf(states[n].syncers[o].phase.batch)
    ensures var x := states[n].syncers[o].phase;
            ExactExport(x.batch, Visible(log, x.at)) && Functional(log.Keys) ==>
            (c.device in states[n + 1].syncers[o].phase.affected <==> HasActiveRecord(c.device, Visible(log, x.at)))
  {
    var x := states[n].syncers[o].phase;
    assert StepAt(log, cfg, states, steps, n);
    if ExactExport(x.batch, Visible(log, x.at)) && Functional(log.Keys) {
      assert Functional(Visible(log, x.at));
      ExportDevices(x.batch, Visible(log, x.at), c.device);
    }
  }
}
