/** Joining one Guard job's certificate generations to the remote manifest.  The
    reads, the remote probe and the aborts are separate steps, and any other
    registry call may land between them. */
module Reconcile {
  import opened Basics
  import opened IdentityModel
  import opened IdentityInvariants

  datatype Candidate = Candidate(attempt: nat, id: CertId, state: CertState, fingerprint: int)

  /** The remote manifest names a generation and the first 16 of the 64 hex
      digits of its certificate's fingerprint. */
  datatype Manifest = Manifest(generation: nat, prefix: int, pid: int)

  function Prefix(fingerprint: int): int { fingerprint / 0x1_000000000000_000000000000_000000000000_000000000000 }

  datatype Result = Raises | Nothing | Unresolved | Found(id: CertId, revoked: bool)

  datatype Pc =
    | ReadingIdentity
    | ReadingKey(agent: AgentId, attempt: nat)
    | Probing(agent: AgentId)
    | Aborting(agent: AgentId, left: seq<Candidate>)
    | Activating(id: CertId)
    | Returned(result: Result)

  /** `last` is the newest attempt considered; `late` records, for the proofs,
      the generations granted to an attempt's key after that key was read. */
  datatype State = State(reg: Registry, target: TargetId, job: int, last: nat, allowRevoked: bool, activateStaged: bool,
                         pc: Pc, candidates: seq<Candidate>, late: set<CertId>)

  datatype Label =
    | Elsewhere(op: Op)
    | Breaks
    | ReadsIdentity(agent: Option<AgentId>)
    | ReadsKey(found: Option<CertId>)
    | Probes(manifest: Option<Manifest>, alive: bool, pid: Option<int>)
    | Aborts(now: Time)
    | Activates(overlap: int, now: Time)

  function Begin(reg: Registry, target: TargetId, job: int, last: nat, allowRevoked: bool, activateStaged: bool): State {
    State(reg, target, job, last, allowRevoked, activateStaged, ReadingIdentity, [], {})
  }

  predicate Allowed(s: State, c: CertState) { c.Staged? || c.Active? || (s.allowRevoked && c.Revoked?) }

  predicate Matches(c: Candidate, m: Manifest) { c.id.generation == m.generation && Prefix(c.fingerprint) == m.prefix }

  /** The first candidate the manifest names. */
  function Match(cs: seq<Candidate>, m: Manifest): Option<Candidate> {
    if cs == [] then None else if Matches(cs[0], m) then Some(cs[0]) else Match(cs[1..], m)
  }

  function StagedOnes(cs: seq<Candidate>): seq<Candidate> {
    if cs == [] then [] else (if cs[0].state.Staged? then [cs[0]] else []) + StagedOnes(cs[1..])
  }

  predicate AllStaged(cs: seq<Candidate>) { forall i :: 0 <= i < |cs| ==> cs[i].state.Staged? }

  function AfterKeys(s: State, agent: AgentId, cs: seq<Candidate>): State {
    s.(candidates := cs, pc := if cs == [] then Returned(Nothing) else Probing(agent))
  }

  function AfterProbe(s: State, manifest: Option<Manifest>, alive: bool, pid: Option<int>): State
    requires s.pc.Probing?
  {
    if manifest.None? then
      if alive then s.(pc := Returned(Unresolved))
      else NextAbort(s, s.pc.agent, StagedOnes(s.candidates))
    else
      var m := Match(s.candidates, manifest.value);
      if m.None? || !alive || pid != Some(manifest.value.pid) then s.(pc := Returned(Unresolved))
      else if m.value.state.Staged? && s.activateStaged then s.(pc := Activating(m.value.id))
      else s.(pc := Returned(Found(m.value.id, m.value.state.Revoked?)))
  }

  function NextAbort(s: State, agent: AgentId, left: seq<Candidate>): State {
    s.(pc := if left != [] then Aborting(agent, left)
             else Returned(if AllStaged(s.candidates) then Nothing else Unresolved))
  }

  /** The attempts whose keys are still to be read are those up to this one. */
  function ReadDownTo(s: State): nat {
    match s.pc
    case ReadingIdentity => s.last
    case ReadingKey(_, attempt) => attempt
    case _ => 0
  }

  /** The call stages a generation of the target's agent under the key of an
      attempt that was read before. */
  predicate GrantsLate(s: State, op: Op) {
    && op.Stage? && Stages(s.reg, op) && BoundTo(s.reg, op.agent, s.target)
    && op.key.Some? && op.key.value.AttemptKey? && op.key.value.job == s.job
    && ReadDownTo(s) < op.key.value.attempt <= s.last
  }

  function Meanwhile(s: State, op: Op): set<CertId> {
    if GrantsLate(s, op) then s.late + {CertId(op.agent, op.generation)} else s.late
  }

  ghost predicate Next(s: State, event: Label, t: State) {
    match event
    case Elsewhere(op) => t == s.(reg := Apply(s.reg, op), late := Meanwhile(s, op))
    case Breaks => !s.pc.Returned? && t == s.(pc := Returned(Raises))
    case ReadsIdentity(agent) =>
      && s.pc.ReadingIdentity?
      && (if agent.Some? then BoundTo(s.reg, agent.value, s.target) else !TargetKnown(s.reg, s.target))
      && t == s.(pc := if agent.None? then Returned(Nothing)
                       else if s.last == 0 then Returned(Nothing) else ReadingKey(agent.value, s.last))
    case ReadsKey(found) =>
      && s.pc.ReadingKey? && s.pc.attempt > 0
      && var key := AttemptKey(s.job, s.pc.attempt);
      && (if found.Some? then KeyAt(s.reg, found.value, s.pc.agent, key) else !Keyed(s.reg, s.pc.agent, Some(key)))
      && var cs := if found.Some? && Allowed(s, s.reg.certs[found.value].state)
                   then s.candidates + [Candidate(s.pc.attempt, found.value, s.reg.certs[found.value].state,
                                                  s.reg.certs[found.value].fingerprint)]
                   else s.candidates;
      && t == if s.pc.attempt == 1 then AfterKeys(s, s.pc.agent, cs)
              else s.(candidates := cs, pc := ReadingKey(s.pc.agent, s.pc.attempt - 1))
    case Probes(manifest, alive, pid) => s.pc.Probing? && t == AfterProbe(s, manifest, alive, pid)
    case Aborts(now) =>
      && s.pc.Aborting? && s.pc.left != []
      && var id := s.pc.left[0].id;
      && var op := Abort(id.agent, id.generation, now);
      && t == if id in s.reg.certs && (s.reg.certs[id].state.Staged? || s.reg.certs[id].state.Revoked?)
                 && id.agent in s.reg.identities
              then NextAbort(s.(reg := Apply(s.reg, op)), s.pc.agent, s.pc.left[1..])
              else s.(pc := Returned(Raises))
    case Activates(overlap, now) =>
      && s.pc.Activating?
      && var op := Activate(s.pc.id.agent, s.pc.id.generation, overlap, now);
      && t == if IdentityModel.Activates(s.reg, op) || (s.pc.id in s.reg.certs && s.reg.certs[s.pc.id].state.Active?)
              then s.(reg := Apply(s.reg, op), pc := Returned(Found(s.pc.id, false)))
              else s.(pc := Returned(Raises))
  }

  ghost predicate IsRun(states: seq<State>, events: seq<Label>) {
    && |states| == |events| + 1
    && RegistryOk(states[0].reg)
    && states[0] == Begin(states[0].reg, states[0].target, states[0].job, states[0].last, states[0].allowRevoked, states[0].activateStaged)
    && forall i :: 0 <= i < |events| ==> Next(states[i], events[i], states[i + 1])
  }

  // -------------------------------------------------------------- settlement

  predicate Unsettled(reg: Registry, id: CertId, agent: AgentId, key: Key) {
    KeyAt(reg, id, agent, key) && (reg.certs[id].state.Staged? || reg.certs[id].state.Active?)
  }

  /** No certificate of the agent holds this key while staged or active. */
  ghost predicate Settled(reg: Registry, agent: AgentId, key: Key) {
    forall id :: !Unsettled(reg, id, agent, key)
  }

  /** The same but for some generations. */
  ghost predicate SettledBut(reg: Registry, agent: AgentId, key: Key, late: set<CertId>) {
    forall id :: Unsettled(reg, id, agent, key) ==> id in late
  }

  /** What holds a key unsettled after a call held it so before, or has just
      been staged under it. */
  lemma UnsettledOrigin(reg: Registry, op: Op, id: CertId, agent: AgentId, key: Key)
    requires RegistryOk(reg) && Unsettled(Apply(reg, op), id, agent, key)
    ensures Unsettled(reg, id, agent, key)
            || (op.Stage? && Stages(reg, op) && op.agent == agent && op.key == Some(key) && id == CertId(agent, op.generation))
  {
    CertChange(reg, op, id);
  }

  /** A settled key is unsettled by a granted staging under it and by no other
      call. */
  lemma SettledStays(reg: Registry, op: Op, agent: AgentId, key: Key)
    requires RegistryOk(reg) && Settled(reg, agent, key)
    ensures Settled(Apply(reg, op), agent, key) <==>
            !(op.Stage? && Stages(reg, op) && op.agent == agent && op.key == Some(key))
  {
    forall id | Unsettled(Apply(reg, op), id, agent, key)
      ensures op.Stage? && Stages(reg, op) && op.agent == agent && op.key == Some(key)
    {
      UnsettledOrigin(reg, op, id, agent, key);
    }
    if op.Stage? && Stages(reg, op) && op.agent == agent && op.key == Some(key) {
      assert Unsettled(Apply(reg, op), CertId(agent, op.generation), agent, key);
    }
  }

  predicate Represents(s: State, agent: AgentId, c: Candidate, attempt: nat) {
    c.id.agent == agent && KeyAt(s.reg, c.id, agent, AttemptKey(s.job, attempt))
  }

  ghost predicate RepresentedIn(s: State, agent: AgentId, cs: seq<Candidate>, attempt: nat) {
    exists i :: 0 <= i < |cs| && Represents(s, agent, cs[i], attempt)
  }

  /** A candidate that is still to be handled represents the attempt. */
  ghost predicate InHand(s: State, agent: AgentId, n: nat) {
    match s.pc
    case Returned(result) => !result.Nothing?
    case Aborting(_, left) => !AllStaged(s.candidates) || RepresentedIn(s, agent, left, n)
    case _ => RepresentedIn(s, agent, s.candidates, n)
  }

  /** What is known of an attempt once its key has been read: only later grants
      can leave it unsettled, or it is in hand. */
  ghost predicate AttemptOk(s: State, agent: AgentId, n: nat) {
    SettledBut(s.reg, agent, AttemptKey(s.job, n), s.late) || InHand(s, agent, n)
  }

  ghost predicate ProgressOk(s: State, agent: AgentId) {
    && RegistryOk(s.reg)
    && (agent in s.reg.identities ==> BoundTo(s.reg, agent, s.target))
    && (s.pc.ReadingKey? ==> s.pc.agent == agent && s.pc.attempt <= s.last)
    && (s.pc.Probing? || s.pc.Aborting? ==> s.pc.agent == agent)
    && (forall n :: ReadDownTo(s) < n <= s.last ==> AttemptOk(s, agent, n))
  }

  lemma {:induction false} AllStagedKept(cs: seq<Candidate>)
    requires AllStaged(cs)
    ensures StagedOnes(cs) == cs
  {
    if cs != [] { AllStagedKept(cs[1..]); }
  }

  /** Another call leaves a represented attempt represented, or settles it: the
      key cannot be granted again while a certificate holds it. */
  lemma RepresentedStays(s: State, op: Op, agent: AgentId, c: Candidate, n: nat)
    requires RegistryOk(s.reg) && Represents(s, agent, c, n)
    ensures Represents(s.(reg := Apply(s.reg, op)), agent, c, n) || Settled(Apply(s.reg, op), agent, AttemptKey(s.job, n))
  {
    var key := AttemptKey(s.job, n);
    CertChange(s.reg, op, c.id);
    assert Keyed(s.reg, agent, Some(key));
    forall id | Unsettled(Apply(s.reg, op), id, agent, key) ensures id == c.id {
      UnsettledOrigin(s.reg, op, id, agent, key);
    }
  }

  /** Whatever a call stages under a key already read counts as late. */
  lemma SettledButStays(s: State, op: Op, agent: AgentId, n: nat)
    requires RegistryOk(s.reg) && (agent in s.reg.identities ==> BoundTo(s.reg, agent, s.target))
    requires SettledBut(s.reg, agent, AttemptKey(s.job, n), s.late) && ReadDownTo(s) < n <= s.last
    ensures SettledBut(Apply(s.reg, op), agent, AttemptKey(s.job, n), Meanwhile(s, op))
  {
    forall id | Unsettled(Apply(s.reg, op), id, agent, AttemptKey(s.job, n)) ensures id in Meanwhile(s, op) {
      UnsettledOrigin(s.reg, op, id, agent, AttemptKey(s.job, n));
    }
  }

  lemma RepresentedInStays(s: State, op: Op, agent: AgentId, cs: seq<Candidate>, n: nat)
    requires RegistryOk(s.reg) && RepresentedIn(s, agent, cs, n)
    ensures RepresentedIn(s.(reg := Apply(s.reg, op)), agent, cs, n) || Settled(Apply(s.reg, op), agent, AttemptKey(s.job, n))
  {
    var i :| 0 <= i < |cs| && Represents(s, agent, cs[i], n);
    RepresentedStays(s, op, agent, cs[i], n);
  }

  lemma SameRepresented(s: State, t: State, agent: AgentId, cs: seq<Candidate>, n: nat)
    requires s.reg == t.reg && s.job == t.job && RepresentedIn(s, agent, cs, n)
    ensures RepresentedIn(t, agent, cs, n)
  {
    var i :| 0 <= i < |cs| && Represents(s, agent, cs[i], n);
    assert Represents(t, agent, cs[i], n);
  }

  /** The effect of any call on what is known of one attempt. */
  lemma AttemptStays(s: State, op: Op, agent: AgentId, n: nat)
    requires RegistryOk(s.reg) && (agent in s.reg.identities ==> BoundTo(s.reg, agent, s.target))
    requires AttemptOk(s, agent, n) && ReadDownTo(s) < n <= s.last
    ensures AttemptOk(s.(reg := Apply(s.reg, op), late := Meanwhile(s, op)), agent, n)
  {
    var m := s.(reg := Apply(s.reg, op));
    var t := m.(late := Meanwhile(s, op));
    if SettledBut(s.reg, agent, AttemptKey(s.job, n), s.late) {
      SettledButStays(s, op, agent, n);
    } else {
      var cs := if s.pc.Aborting? then s.pc.left else s.candidates;
      if RepresentedIn(s, agent, cs, n) {
        RepresentedInStays(s, op, agent, cs, n);
        if RepresentedIn(m, agent, cs, n) { SameRepresented(m, t, agent, cs, n); }
      }
    }
  }

  /** Reading an attempt's key settles it or makes it a candidate. */
  lemma KeyRead(s: State, agent: AgentId, found: Option<CertId>, t: State)
    requires RegistryOk(s.reg) && s.pc.ReadingKey? && s.pc.agent == agent && s.pc.attempt > 0
    requires Next(s, ReadsKey(found), t)
    ensures AttemptOk(t, agent, s.pc.attempt)
  {
    var n := s.pc.attempt;
    var key := AttemptKey(s.job, n);
    if found.None? {
      assert forall id :: !KeyAt(s.reg, id, agent, key);
    } else if Allowed(s, s.reg.certs[found.value].state) {
      assert t.candidates != [];
      assert Represents(t, agent, t.candidates[|t.candidates| - 1], n);
    }
  }

  lemma CandidatesGrow(s: State, agent: AgentId, found: Option<CertId>, t: State, n: nat)
    requires s.pc.ReadingKey? && s.pc.attempt > 0 && Next(s, ReadsKey(found), t) && AttemptOk(s, agent, n)
    ensures AttemptOk(t, agent, n)
  {
    if RepresentedIn(s, agent, s.candidates, n) {
      var i :| 0 <= i < |s.candidates| && Represents(s, agent, s.candidates[i], n);
      assert t.candidates[i] == s.candidates[i];
      assert Represents(t, agent, t.candidates[i], n);
    }
  }

  /** An aborted candidate settles the attempt it represents. */
  lemma AbortSettles(s: State, agent: AgentId, c: Candidate, now: Time, n: nat)
    requires RegistryOk(s.reg) && Represents(s, agent, c, n) && agent in s.reg.identities
    requires s.reg.certs[c.id].state.Staged? || s.reg.certs[c.id].state.Revoked?
    ensures Settled(Apply(s.reg, Abort(c.id.agent, c.id.generation, now)), agent, AttemptKey(s.job, n))
  {
    var op, key := Abort(c.id.agent, c.id.generation, now), AttemptKey(s.job, n);
    forall id ensures !Unsettled(Apply(s.reg, op), id, agent, key) {
      if Unsettled(Apply(s.reg, op), id, agent, key) {
        UnsettledOrigin(s.reg, op, id, agent, key);
        CertChange(s.reg, op, id);
      }
    }
  }

  /** What one abort leaves of the candidates in hand. */
  lemma AbortInHand(s: State, agent: AgentId, now: Time, n: nat)
    requires RegistryOk(s.reg) && s.pc.Aborting? && s.pc.left != [] && RepresentedIn(s, agent, s.pc.left, n)
    requires var id := s.pc.left[0].id;
             id in s.reg.certs && (s.reg.certs[id].state.Staged? || s.reg.certs[id].state.Revoked?) && id.agent in s.reg.identities
    ensures var m := s.(reg := Apply(s.reg, Abort(s.pc.left[0].id.agent, s.pc.left[0].id.generation, now)));
            Settled(m.reg, agent, AttemptKey(s.job, n)) || RepresentedIn(m, agent, s.pc.left[1..], n)
  {
    var op := Abort(s.pc.left[0].id.agent, s.pc.left[0].id.generation, now);
    var i :| 0 <= i < |s.pc.left| && Represents(s, agent, s.pc.left[i], n);
    if i == 0 {
      AbortSettles(s, agent, s.pc.left[0], now, n);
    } else {
      RepresentedStays(s, op, agent, s.pc.left[i], n);
      assert s.pc.left[1..][i - 1] == s.pc.left[i];
    }
  }

  lemma AbortStep(s: State, agent: AgentId, now: Time, t: State, n: nat)
    requires RegistryOk(s.reg) && (agent in s.reg.identities ==> BoundTo(s.reg, agent, s.target))
    requires s.pc.Aborting? && s.pc.agent == agent && AttemptOk(s, agent, n) && 0 < n <= s.last && Next(s, Label.Aborts(now), t)
    ensures AttemptOk(t, agent, n)
  {
    var op := Abort(s.pc.left[0].id.agent, s.pc.left[0].id.generation, now);
    if SettledBut(s.reg, agent, AttemptKey(s.job, n), s.late) {
      SettledButStays(s, op, agent, n);
    } else if t.pc != Returned(Raises) && AllStaged(s.candidates) {
      var m := s.(reg := Apply(s.reg, op));
      AbortInHand(s, agent, now, n);
      if RepresentedIn(m, agent, s.pc.left[1..], n) { SameRepresented(m, t, agent, s.pc.left[1..], n); }
    }
  }

  lemma ProbeStep(s: State, agent: AgentId, manifest: Option<Manifest>, alive: bool, pid: Option<int>, t: State, n: nat)
    requires s.pc.Probing? && AttemptOk(s, agent, n) && Next(s, Probes(manifest, alive, pid), t)
    ensures AttemptOk(t, agent, n)
  {
    if RepresentedIn(s, agent, s.candidates, n) {
      SameRepresented(s, t, agent, s.candidates, n);
      if AllStaged(s.candidates) { AllStagedKept(s.candidates); }
    }
  }

  /** A target without an agent has no certificates under any key. */
  lemma IdentityStep(s: State, found: Option<AgentId>, t: State, agent: AgentId, n: nat)
    requires RegistryOk(s.reg) && Next(s, ReadsIdentity(found), t) && ReadDownTo(t) < n <= t.last
    requires if found.Some? then found.value == agent else agent !in s.reg.identities
    ensures AttemptOk(t, agent, n)
  {
    assert found.None? && forall id :: !KeyAt(s.reg, id, agent, AttemptKey(s.job, n));
  }

  lemma KeyStep(s: State, found: Option<CertId>, t: State, agent: AgentId, n: nat)
    requires ProgressOk(s, agent) && Next(s, ReadsKey(found), t) && ReadDownTo(t) < n <= t.last
    ensures AttemptOk(t, agent, n)
  {
    if n == s.pc.attempt {
      KeyRead(s, agent, found, t);
    } else {
      assert AttemptOk(s, agent, n);
      CandidatesGrow(s, agent, found, t, n);
    }
  }

  /** An exception or a found deployment is an answer of its own. */
  lemma EndStep(s: State, event: Label, t: State, agent: AgentId, n: nat)
    requires (event.Breaks? || event.Activates?) && Next(s, event, t)
    ensures AttemptOk(t, agent, n)
  {
    assert t.pc.Returned? && !t.pc.result.Nothing?;
  }

  lemma AttemptStep(s: State, event: Label, t: State, agent: AgentId, n: nat)
    requires ProgressOk(s, agent) && Next(s, event, t) && ReadDownTo(t) < n <= t.last
    requires event.ReadsIdentity? ==> (if event.agent.Some? then event.agent.value == agent else agent !in s.reg.identities)
    ensures AttemptOk(t, agent, n)
  {
    match event
    case Elsewhere(op) => AttemptStays(s, op, agent, n);
    case ReadsIdentity(found) => IdentityStep(s, found, t, agent, n);
    case ReadsKey(found) => KeyStep(s, found, t, agent, n);
    case Probes(manifest, alive, pid) => ProbeStep(s, agent, manifest, alive, pid, t, n);
    case Aborts(now) => AbortStep(s, agent, now, t, n);
    case Breaks => EndStep(s, event, t, agent, n);
    case Activates(_, _) => EndStep(s, event, t, agent, n);
  }

  /** The registry call a step makes, if any. */
  function StepOp(s: State, event: Label): Option<Op> {
    match event
    case Elsewhere(op) => Some(op)
    case Aborts(now) =>
      if s.pc.Aborting? && s.pc.left != []
      then Some(Abort(s.pc.left[0].id.agent, s.pc.left[0].id.generation, now)) else None
    case Activates(overlap, now) =>
      if s.pc.Activating? then Some(Activate(s.pc.id.agent, s.pc.id.generation, overlap, now)) else None
    case _ => None
  }

  lemma StepIs(s: State, event: Label, t: State)
    requires Next(s, event, t)
    ensures t.reg == s.reg || (StepOp(s, event).Some? && t.reg == Apply(s.reg, StepOp(s, event).value))
    ensures t.target == s.target && t.job == s.job && t.last == s.last
  {}

  /** A step keeps the registry well formed, and bindings fixed. */
  lemma StepBasics(s: State, event: Label, t: State, a: AgentId)
    requires RegistryOk(s.reg) && Next(s, event, t)
    ensures RegistryOk(t.reg) && t.target == s.target && t.job == s.job && t.last == s.last
    ensures a in s.reg.identities ==> a in t.reg.identities && t.reg.identities[a].target == s.reg.identities[a].target
  {
    StepIs(s, event, t);
    var op := StepOp(s, event);
    if op.Some? {
      RegistryKept(s.reg, op.value);
      IdentityChange(s.reg, op.value, a);
    }
  }

  lemma PcStep(s: State, event: Label, t: State, agent: AgentId)
    requires Next(s, event, t)
    requires s.pc.ReadingKey? ==> s.pc.agent == agent && s.pc.attempt <= s.last
    requires s.pc.Probing? || s.pc.Aborting? ==> s.pc.agent == agent
    requires event.ReadsIdentity? && event.agent.Some? ==> event.agent.value == agent
    ensures t.pc.ReadingKey? ==> t.pc.agent == agent && t.pc.attempt <= t.last
    ensures t.pc.Probing? || t.pc.Aborting? ==> t.pc.agent == agent
  {}

  lemma ProgressStep(s: State, event: Label, t: State, agent: AgentId)
    requires ProgressOk(s, agent) && Next(s, event, t)
    requires event.ReadsIdentity? ==> (if event.agent.Some? then event.agent.value == agent else agent !in s.reg.identities)
    requires agent in t.reg.identities ==> BoundTo(t.reg, agent, t.target)
    ensures ProgressOk(t, agent)
  {
    StepBasics(s, event, t, agent);
    PcStep(s, event, t, agent);
    forall n | ReadDownTo(t) < n <= t.last ensures AttemptOk(t, agent, n) {
      AttemptStep(s, event, t, agent, n);
    }
  }

  lemma {:induction false} RunBasics(states: seq<State>, events: seq<Label>, i: nat, k: nat, a: AgentId)
    requires IsRun(states, events) && i <= k <= |events|
    ensures RegistryOk(states[i].reg) && RegistryOk(states[k].reg)
    ensures states[k].target == states[i].target && states[k].job == states[i].job && states[k].last == states[i].last
    ensures a in states[i].reg.identities ==>
              a in states[k].reg.identities && states[k].reg.identities[a].target == states[i].reg.identities[a].target
    decreases k
  {
    if i < k {
      RunBasics(states, events, i, k - 1, a);
      assert Next(states[k - 1], events[k - 1], states[k]);
      StepBasics(states[k - 1], events[k - 1], states[k], a);
    } else if k > 0 {
      RunBasics(states, events, k - 1, k - 1, a);
      assert Next(states[k - 1], events[k - 1], states[k]);
      StepBasics(states[k - 1], events[k - 1], states[k], a);
    }
  }

  /** Whoever is bound to the target in the end was bound to it, or did not
      exist, at every earlier step; and nobody else was. */
  lemma TheTargetsAgent(states: seq<State>, events: seq<Label>, k: nat, end: nat, agent: AgentId, a: AgentId)
    requires IsRun(states, events) && k <= end <= |events| && BoundTo(states[end].reg, agent, states[end].target)
    ensures agent in states[k].reg.identities ==> BoundTo(states[k].reg, agent, states[k].target)
    ensures BoundTo(states[k].reg, a, states[k].target) ==> a == agent
  {
    RunBasics(states, events, k, end, agent);
    RunBasics(states, events, k, end, a);
  }

  lemma {:induction false} ProgressAlwaysOk(states: seq<State>, events: seq<Label>, k: nat, end: nat, agent: AgentId)
    requires IsRun(states, events) && k <= end <= |events| && BoundTo(states[end].reg, agent, states[end].target)
    ensures ProgressOk(states[k], agent)
    decreases k
  {
    TheTargetsAgent(states, events, k, end, agent, agent);
    if k > 0 {
      ProgressAlwaysOk(states, events, k - 1, end, agent);
      var s, event := states[k - 1], events[k - 1];
      assert Next(s, event, states[k]);
      if event.ReadsIdentity? {
        TheTargetsAgent(states, events, k - 1, end, agent, if event.agent.Some? then event.agent.value else agent);
      }
      ProgressStep(s, event, states[k], agent);
    }
  }

  /** When reconciliation answers "nothing found, nothing unresolved", an earlier
      attempt of the job is unsettled exactly when a generation that was granted
      to its key after the key was read is still staged or active. */
  lemma NothingMeansSettled(states: seq<State>, events: seq<Label>, k: nat, agent: AgentId, attempt: nat)
    requires IsRun(states, events) && k <= |events|
    requires BoundTo(states[k].reg, agent, states[k].target) && states[k].pc == Returned(Nothing)
    requires 1 <= attempt <= states[k].last
    ensures !Settled(states[k].reg, agent, AttemptKey(states[k].job, attempt)) <==>
            exists id :: id in states[k].late && Unsettled(states[k].reg, id, agent, AttemptKey(states[k].job, attempt))
    ensures states[k].late == {} ==> Settled(states[k].reg, agent, AttemptKey(states[k].job, attempt))
  {
    ProgressAlwaysOk(states, events, k, k, agent);
    assert AttemptOk(states[k], agent, attempt);
  }

  /** A generation counts as late only if a staging under the key of an attempt
      of this job was granted to the target's agent after that key was read. */
  lemma {:induction false} LateIsGranted(states: seq<State>, events: seq<Label>, k: nat, id: CertId) returns (i: nat)
    requires IsRun(states, events) && k <= |events| && id in states[k].late
    ensures i < k && events[i].Elsewhere? && GrantsLate(states[i], events[i].op)
    ensures id == CertId(events[i].op.agent, events[i].op.generation)
  {
    assert k > 0;
    i := k - 1;
    assert Next(states[i], events[i], states[k]);
    if id in states[i].late {
      i := LateIsGranted(states, events, i, id);
    }
  }

  /** At the moment a fresh generation is granted, no certificate of the agent is
      staged, so an earlier attempt can only be unsettled by a late generation
      that has been activated since. */
  lemma FreshGenerationOverSettled(states: seq<State>, events: seq<Label>, k: nat, op: Op, attempt: nat)
    requires IsRun(states, events) && k <= |events| && states[k].pc == Returned(Nothing) && 1 <= attempt <= states[k].last
    requires op.Stage? && Stages(states[k].reg, op) && BoundTo(states[k].reg, op.agent, states[k].target)
    ensures var reg, key := states[k].reg, AttemptKey(states[k].job, attempt);
            !Settled(reg, op.agent, key) <==>
            exists id :: id in states[k].late && KeyAt(reg, id, op.agent, key) && reg.certs[id].state.Active?
  {
    var reg, key := states[k].reg, AttemptKey(states[k].job, attempt);
    NothingMeansSettled(states, events, k, op.agent, attempt);
    if !Settled(reg, op.agent, key) {
      var id :| id in states[k].late && Unsettled(reg, id, op.agent, key);
      assert !reg.certs[id].state.Staged?;
    }
    if exists id :: id in states[k].late && KeyAt(reg, id, op.agent, key) && reg.certs[id].state.Active? {
      var id :| id in states[k].late && KeyAt(reg, id, op.agent, key) && reg.certs[id].state.Active?;
      assert Unsettled(reg, id, op.agent, key);
    }
  }

  /** The exception is real: an owner that lost its lease stages attempt 2 after
      its key was read, and the answer is still "nothing found". */
  lemma StaleOwnerCanUnsettle() returns (states: seq<State>, events: seq<Label>)
    ensures IsRun(states, events) && |events| == 4 && states[4].pc == Returned(Nothing) && states[4].last == 2
    ensures BoundTo(states[4].reg, 1, states[4].target) && !Settled(states[4].reg, 1, AttemptKey(states[4].job, 2))
  {
    var reg := Registry(map[1 := Identity(5, 6, {GuardEvents}, false, 0)], map[]);
    var key := AttemptKey(7, 2);
    var stage := Stage(1, 1, 10, 11, 0, 100, Some(key));
    var s0 := Begin(reg, 5, 7, 2, false, true);
    var s1 := s0.(pc := ReadingKey(1, 2));
    var s2 := s1.(pc := ReadingKey(1, 1));
    var s3 := s2.(reg := Apply(reg, stage), late := {CertId(1, 1)});
    var s4 := s3.(pc := Returned(Nothing));
    assert BoundTo(reg, 1, 5) && Stages(reg, stage);
    assert !Keyed(s1.reg, 1, Some(key)) && !Keyed(s3.reg, 1, Some(AttemptKey(7, 1)));
    states := [s0, s1, s2, s3, s4];
    events := [ReadsIdentity(Some(1)), ReadsKey(None), Elsewhere(stage), ReadsKey(None)];
    assert Next(s0, events[0], s1);
    assert Next(s1, events[1], s2);
    assert Next(s2, events[2], s3);
    assert Next(s3, events[3], s4);
    assert Unsettled(s4.reg, CertId(1, 1), 1, key);
  }

  /** A running Guard is only ever joined to the job when the manifest names one
      of the job's own generations and the live process is the one it records. */
  lemma FoundIsProven(s: State, manifest: Option<Manifest>, alive: bool, pid: Option<int>, t: State)
    requires s.pc.Probing? && Next(s, Probes(manifest, alive, pid), t)
    requires t.pc.Activating? || (t.pc.Returned? && t.pc.result.Found?)
    ensures manifest.Some? && alive && pid == Some(manifest.value.pid)
    ensures exists i :: 0 <= i < |s.candidates| && Matches(s.candidates[i], manifest.value)
                        && s.candidates[i].id == if t.pc.Activating? then t.pc.id else t.pc.result.id
  {
    var i := MatchIsMember(s.candidates, manifest.value);
    assert Matches(s.candidates[i], manifest.value);
  }

  lemma {:induction false} MatchIsMember(cs: seq<Candidate>, m: Manifest) returns (i: nat)
    requires Match(cs, m).Some?
    ensures i < |cs| && cs[i] == Match(cs, m).value && Matches(cs[i], m)
    ensures forall k :: 0 <= k < i ==> !Matches(cs[k], m)
  {
    if Matches(cs[0], m) {
      i := 0;
    } else {
      i := MatchIsMember(cs[1..], m);
      i := i + 1;
    }
  }

  lemma {:induction false} StagedOnesAre(cs: seq<Candidate>, c: Candidate)
    ensures c in StagedOnes(cs) <==> c in cs && c.state == Staged
    ensures StagedOnes(cs) == [] <==> forall i :: 0 <= i < |cs| ==> cs[i].state != Staged
  {
    if cs != [] {
      StagedOnesAre(cs[1..], c);
      assert c in cs <==> c == cs[0] || c in cs[1..];
      assert forall i :: 0 < i < |cs| ==> cs[i] == cs[1..][i - 1];
      assert forall i :: 0 <= i < |cs| - 1 ==> cs[1..][i] == cs[i + 1];
    }
  }

  /** Which certificates a key read takes into consideration. */
  lemma ReadAnswer(s: State, found: Option<CertId>, t: State)
    requires Next(s, ReadsKey(found), t)
    ensures var taken := found.Some? &&
                         (|| s.reg.certs[found.value].state == Staged || s.reg.certs[found.value].state == Active
                          || (s.allowRevoked && s.reg.certs[found.value].state == Revoked));
            && |t.candidates| == |s.candidates| + (if taken then 1 else 0) && s.candidates <= t.candidates
            && (taken ==> var c := t.candidates[|s.candidates|];
                          && c.id == found.value && c.attempt == s.pc.attempt && c.state == s.reg.certs[found.value].state
                          && c.fingerprint == s.reg.certs[found.value].fingerprint)
            && t.pc == (if s.pc.attempt > 1 then ReadingKey(s.pc.agent, s.pc.attempt - 1)
                        else if t.candidates == [] then Returned(Nothing) else Probing(s.pc.agent))
  {}

  /** Without a manifest, a live Guard is unresolved and a dead one has the job's
      staged generations aborted. */
  lemma NoManifestAnswer(s: State, alive: bool, pid: Option<int>, t: State)
    requires s.pc.Probing? && Next(s, Probes(None, alive, pid), t)
    ensures alive ==> t == s.(pc := Returned(Unresolved))
    ensures !alive && (exists i :: 0 <= i < |s.candidates| && s.candidates[i].state == Staged) ==>
              && t.pc.Aborting? && t == s.(pc := t.pc) && t.pc.agent == s.pc.agent
              && forall c :: c in t.pc.left <==> c in s.candidates && c.state == Staged
    ensures !alive && (forall i :: 0 <= i < |s.candidates| ==> s.candidates[i].state != Staged) ==>
              t.pc == Returned(if s.candidates == [] then Nothing else Unresolved)
  {
    forall c ensures c in StagedOnes(s.candidates) <==> c in s.candidates && c.state == Staged {
      StagedOnesAre(s.candidates, c);
    }
    StagedOnesAre(s.candidates, Candidate(0, CertId(0, 0), Staged, 0));
    if s.candidates != [] && forall i :: 0 <= i < |s.candidates| ==> s.candidates[i].state != Staged {
      assert s.candidates[0].state != Staged;
    }
  }

  /** With a manifest, the deployment is found exactly when a candidate has the
      manifest's generation and fingerprint prefix and the live process is the
      recorded one; a staged one is activated first if asked for. */
  lemma ManifestAnswer(s: State, m: Manifest, alive: bool, pid: Option<int>, t: State)
    requires s.pc.Probing? && Next(s, Probes(Some(m), alive, pid), t)
    ensures var named := exists i :: 0 <= i < |s.candidates| && NamedBy(s.candidates[i], m);
            && (alive && pid == Some(m.pid) && named <==> t.pc != Returned(Unresolved))
            && (t.pc != Returned(Unresolved) ==>
                  exists i :: 0 <= i < |s.candidates| && NamedBy(s.candidates[i], m)
                              && t.pc == (if s.candidates[i].state == Staged && s.activateStaged then Activating(s.candidates[i].id)
                                          else Returned(Found(s.candidates[i].id, s.candidates[i].state == Revoked))))
  {
    if Match(s.candidates, m).Some? {
      var i := MatchIsMember(s.candidates, m);
      assert NamedBy(s.candidates[i], m);
    } else {
      NoMatch(s.candidates, m);
    }
  }

  /** The manifest's generation, and the first 16 of the 64 digits of the
      fingerprint. */
  predicate NamedBy(c: Candidate, m: Manifest) {
    c.id.generation == m.generation && c.fingerprint / 0x1_0000000000000000_0000000000000000_0000000000000000 == m.prefix
  }

  lemma {:induction false} NoMatch(cs: seq<Candidate>, m: Manifest)
    requires Match(cs, m).None?
    ensures forall i :: 0 <= i < |cs| ==> !NamedBy(cs[i], m)
  {
    if cs != [] {
      NoMatch(cs[1..], m);
      assert forall i :: 0 < i < |cs| ==> cs[i] == cs[1..][i - 1];
    }
  }
}
