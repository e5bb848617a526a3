/** Staging a certificate for a target: several calls at once, each a sequence
    of registry transactions between which anything else may happen.  Issuing
    key material is outside the registry; its serial and fingerprint are
    arbitrary here. */
module Staging {
  import opened Basics
  import opened IdentityModel
  import opened IdentityInvariants

  datatype Stop = PkiError | StoreError

  /** Where a call stands between two transactions.  A call that has staged a
      generation holds its material in memory until it returns; if its process
      dies before that, the material is lost. */
  datatype Pc =
    | Ensuring(target: TargetId, host: HostId, scopes: set<Scope>, requested: Option<AgentId>)
    | Fetching(agent: AgentId)
    | LookingUp(agent: AgentId, next: nat)
    | Issuing(agent: AgentId, next: nat)
    | Committed(id: CertId)
    | Replaying(agent: AgentId)
    | Returned(id: CertId, bundle: bool)
    | Failed(stop: Stop)
    | Died(lost: Option<CertId>)

  /** One call of `stage_for_target` (with or without a key) or `issue_staged`. */
  datatype Call = Call(key: Option<Key>, pc: Pc)

  datatype State = State(reg: Registry, calls: seq<Call>)

  /** The material the certificate authority produced for one call. */
  datatype Material = Material(serial: int, fingerprint: int, notBefore: Time, notAfter: Time)

  datatype Label =
    | Begin(call: Call)
    | Elsewhere(op: Op)
    | Step(index: nat, generated: AgentId, material: Material, found: Option<CertId>)
    | Dies(index: nat)

  predicate Starts(c: Call) { c.pc.Ensuring? || (c.pc.Fetching? && c.key.None?) }

  function StageOp(c: Call, m: Material): Op
    requires c.pc.Issuing?
  {
    Stage(c.pc.agent, c.pc.next, m.serial, m.fingerprint, m.notBefore, m.notAfter, c.key)
  }

  function CallOp(c: Call, generated: AgentId, m: Material): Option<Op> {
    match c.pc
    case Ensuring(target, host, scopes, requested) => Some(GetOrCreate(target, host, scopes, requested, generated))
    case Issuing(_, _) => Some(StageOp(c, m))
    case _ => None
  }

  /** The row a key lookup returns. */
  ghost predicate LookupIs(reg: Registry, agent: AgentId, key: Option<Key>, found: Option<CertId>) {
    if found.Some? then key.Some? && KeyAt(reg, found.value, agent, key.value)
    else !Keyed(reg, agent, key)
  }

  ghost predicate CallStep(reg: Registry, c: Call, generated: AgentId, m: Material, found: Option<CertId>, after: Registry, d: Call) {
    && d.key == c.key
    && match c.pc
       case Ensuring(target, host, scopes, requested) =>
         && after == Apply(reg, GetOrCreate(target, host, scopes, requested, generated))
         && (if exists a :: SameBinding(after, a, target, host, scopes, requested)
             then exists a :: SameBinding(after, a, target, host, scopes, requested)
                              && d.pc == LookingUp(a, after.identities[a].generation + 1)
             else d.pc == Failed(StoreError))
       case Fetching(agent) =>
         && after == reg
         && d.pc == if agent in reg.identities && !reg.identities[agent].revoked
                    then Issuing(agent, reg.identities[agent].generation + 1) else Failed(PkiError)
       case LookingUp(agent, next) =>
         && after == reg && LookupIs(reg, agent, c.key, found)
         && d.pc == if found.Some? then Returned(found.value, false) else Issuing(agent, next)
       case Issuing(agent, next) =>
         && after == Apply(reg, StageOp(c, m))
         && d.pc == (if Stages(reg, StageOp(c, m)) then Committed(CertId(agent, next))
                     else if agent in reg.identities && !reg.identities[agent].revoked && Keyed(reg, agent, c.key)
                             && m.notBefore < m.notAfter
                     then Replaying(agent)
                     else Failed(StoreError))
       case Committed(id) => after == reg && d.pc == Returned(id, true)
       case Replaying(agent) =>
         && after == reg && LookupIs(reg, agent, c.key, found)
         && d.pc == if found.Some? then Returned(found.value, false) else Failed(PkiError)
       case _ => after == reg && d == c
  }

  ghost predicate Next(s: State, event: Label, t: State) {
    match event
    case Begin(call) => Starts(call) && t == State(s.reg, s.calls + [call])
    case Elsewhere(op) => !op.Stage? && t == State(Apply(s.reg, op), s.calls)
    case Step(i, generated, m, found) =>
      && i < |s.calls| && |t.calls| == |s.calls|
      && CallStep(s.reg, s.calls[i], generated, m, found, t.reg, t.calls[i])
      && forall j :: 0 <= j < |s.calls| && j != i ==> t.calls[j] == s.calls[j]
    case Dies(i) =>
      && i < |s.calls| && !Over(s.calls[i])
      && t == s.(calls := s.calls[i := s.calls[i].(pc := Died(Named(s.calls[i])))])
  }

  /** The call has come to an end. */
  predicate Over(c: Call) { c.pc.Returned? || c.pc.Failed? || c.pc.Died? }

  /** The generation a call has staged or answers with. */
  function Named(c: Call): Option<CertId> {
    match c.pc
    case Committed(id) => Some(id)
    case Returned(id, _) => Some(id)
    case Died(lost) => lost
    case _ => None
  }

  ghost predicate IsRun(states: seq<State>, events: seq<Label>) {
    && |states| == |events| + 1
    && states[0] == State(EMPTY, [])
    && forall i :: 0 <= i < |events| ==> Next(states[i], events[i], states[i + 1])
  }

  // --------------------------------------------------------------- material

  /** The call staged this generation: it holds, has returned or has lost the
      material. */
  predicate Made(c: Call, id: CertId) { c.pc == Committed(id) || c.pc == Returned(id, true) || c.pc == Died(Some(id)) }

  ghost predicate MadeBySome(s: State, id: CertId) { exists i :: 0 <= i < |s.calls| && Made(s.calls[i], id) }

  /** What a call names exists. */
  predicate NamedOk(reg: Registry, c: Call) { Named(c).Some? ==> Named(c).value in reg.certs }

  ghost predicate NamesOk(s: State) { forall i :: 0 <= i < |s.calls| ==> NamedOk(s.reg, s.calls[i]) }

  ghost predicate MadeOnce(s: State) {
    forall i, j, id :: 0 <= i < |s.calls| && 0 <= j < |s.calls| && Made(s.calls[i], id) && Made(s.calls[j], id) ==> i == j
  }

  ghost predicate AllMade(s: State) { forall id :: id in s.reg.certs ==> MadeBySome(s, id) }

  /** Exactly the generations that exist were staged by calls, each by exactly
      one. */
  ghost predicate BundlesOk(s: State) { NamesOk(s) && MadeOnce(s) && AllMade(s) }

  /** A keyed call's answer still has its key, or the key was released. */
  ghost predicate KeysOk(s: State) {
    forall i :: 0 <= i < |s.calls| ==> AnswerOk(s.reg, s.calls[i])
  }

  /** What a step does to the registry. */
  lemma RegistryStep(s: State, event: Label, t: State)
    requires RegistryOk(s.reg) && Next(s, event, t)
    ensures RegistryOk(t.reg)
    ensures forall id :: id in s.reg.certs ==> id in t.reg.certs
    ensures forall id :: id in s.reg.certs ==>
              t.reg.certs[id].key == s.reg.certs[id].key || (t.reg.certs[id].key.None? && t.reg.certs[id].state.Revoked?)
    ensures forall id :: id in s.reg.certs && s.reg.certs[id].state.Revoked? ==> t.reg.certs[id].state.Revoked?
  {
    var op := if event.Elsewhere? then Some(event.op)
              else if event.Step? then CallOp(s.calls[event.index], event.generated, event.material) else None;
    if op.Some? {
      RegistryKept(s.reg, op.value);
      forall id | id in s.reg.certs ensures id in Apply(s.reg, op.value).certs && CertMoves(s.reg, op.value, id, s.reg.certs[id], Apply(s.reg, op.value).certs[id]) {
        CertChange(s.reg, op.value, id);
      }
    }
  }

  /** The key a call's answer carries, or that it was released. */
  predicate AnswerOk(reg: Registry, c: Call) {
    Named(c).Some? && c.key.Some? ==>
      var id := Named(c).value;
      id in reg.certs && (reg.certs[id].key == c.key || (reg.certs[id].key.None? && reg.certs[id].state.Revoked?))
  }

  /** A call that answers in this step answers with a row that has its key. */
  lemma NewAnswerOk(reg: Registry, c: Call, generated: AgentId, m: Material, found: Option<CertId>, after: Registry, d: Call)
    requires Named(c).None? && CallStep(reg, c, generated, m, found, after, d)
    ensures AnswerOk(after, d)
  {}

  /** Registry calls keep what was answered before. */
  lemma OldAnswerOk(s: State, event: Label, t: State, c: Call)
    requires RegistryOk(s.reg) && Next(s, event, t) && AnswerOk(s.reg, c)
    ensures AnswerOk(t.reg, c)
  {
    RegistryStep(s, event, t);
  }

  lemma AnswerStep(s: State, event: Label, t: State, i: nat)
    requires RegistryOk(s.reg) && KeysOk(s) && Next(s, event, t) && i < |t.calls|
    ensures AnswerOk(t.reg, t.calls[i])
  {
    if event.Step? && i == event.index && Named(s.calls[i]).None? {
      NewAnswerOk(s.reg, s.calls[i], event.generated, event.material, event.found, t.reg, t.calls[i]);
    } else if i < |s.calls| {
      assert Named(t.calls[i]) == Named(s.calls[i]) && t.calls[i].key == s.calls[i].key && AnswerOk(s.reg, s.calls[i]);
      OldAnswerOk(s, event, t, s.calls[i]);
    }
  }

  lemma KeysKept(s: State, event: Label, t: State)
    requires RegistryOk(s.reg) && KeysOk(s) && Next(s, event, t)
    ensures KeysOk(t)
  {
    forall i | 0 <= i < |t.calls| ensures AnswerOk(t.reg, t.calls[i]) {
      AnswerStep(s, event, t, i);
    }
  }

  /** The only step that adds a generation leaves its material with the call that
      made it. */
  lemma NewGenerations(s: State, event: Label, t: State, id: CertId)
    requires RegistryOk(s.reg) && Next(s, event, t) && id in t.reg.certs && id !in s.reg.certs
    ensures event.Step? && t.calls[event.index].pc == Committed(id)
  {
    var op := if event.Elsewhere? then Some(event.op)
              else if event.Step? then CallOp(s.calls[event.index], event.generated, event.material) else None;
    if op.Some? { CertChange(s.reg, op.value, id); }
  }

  /** A call that has made a generation made it before the step, or in it. */
  lemma BundleOrigin(s: State, event: Label, t: State, i: nat, id: CertId)
    requires RegistryOk(s.reg) && Next(s, event, t) && i < |t.calls| && Made(t.calls[i], id)
    ensures (i < |s.calls| && Made(s.calls[i], id)) || (event.Step? && i == event.index && id !in s.reg.certs)
    ensures id in t.reg.certs || (i < |s.calls| && Made(s.calls[i], id))
  {}

  lemma BundleStays(s: State, event: Label, t: State, i: nat, id: CertId)
    requires Next(s, event, t) && i < |s.calls| && Made(s.calls[i], id)
    ensures i < |t.calls| && Made(t.calls[i], id)
  {}

  lemma MadeStays(s: State, event: Label, t: State, id: CertId)
    requires RegistryOk(s.reg) && BundlesOk(s) && Next(s, event, t) && id in t.reg.certs
    ensures MadeBySome(t, id)
  {
    if id in s.reg.certs {
      assert MadeBySome(s, id);
      var i :| 0 <= i < |s.calls| && Made(s.calls[i], id);
      BundleStays(s, event, t, i, id);
    } else {
      NewGenerations(s, event, t, id);
    }
  }

  lemma NewNameOk(reg: Registry, c: Call, generated: AgentId, m: Material, found: Option<CertId>, after: Registry, d: Call)
    requires Named(c).None? && CallStep(reg, c, generated, m, found, after, d)
    ensures NamedOk(after, d)
  {}

  lemma NameStep(s: State, event: Label, t: State, i: nat)
    requires RegistryOk(s.reg) && NamesOk(s) && Next(s, event, t) && i < |t.calls|
    ensures NamedOk(t.reg, t.calls[i])
  {
    if event.Step? && i == event.index && Named(s.calls[i]).None? {
      NewNameOk(s.reg, s.calls[i], event.generated, event.material, event.found, t.reg, t.calls[i]);
    } else if i < |s.calls| {
      assert Named(t.calls[i]) == Named(s.calls[i]) && NamedOk(s.reg, s.calls[i]);
      RegistryStep(s, event, t);
    }
  }

  lemma MadeOnceKept(s: State, event: Label, t: State)
    requires RegistryOk(s.reg) && NamesOk(s) && MadeOnce(s) && Next(s, event, t)
    ensures MadeOnce(t)
  {
    forall i, j, id | 0 <= i < |t.calls| && 0 <= j < |t.calls| && Made(t.calls[i], id) && Made(t.calls[j], id)
      ensures i == j
    {
      BundleOrigin(s, event, t, i, id);
      BundleOrigin(s, event, t, j, id);
      assert i < |s.calls| && Made(s.calls[i], id) ==> NamedOk(s.reg, s.calls[i]);
      assert j < |s.calls| && Made(s.calls[j], id) ==> NamedOk(s.reg, s.calls[j]);
    }
  }

  lemma BundlesKept(s: State, event: Label, t: State)
    requires RegistryOk(s.reg) && BundlesOk(s) && Next(s, event, t)
    ensures BundlesOk(t)
  {
    forall i | 0 <= i < |t.calls| ensures NamedOk(t.reg, t.calls[i]) { NameStep(s, event, t, i); }
    MadeOnceKept(s, event, t);
    forall id | id in t.reg.certs ensures MadeBySome(t, id) { MadeStays(s, event, t, id); }
  }

  lemma {:induction false} StagingAlwaysOk(states: seq<State>, events: seq<Label>, k: nat)
    requires IsRun(states, events) && k <= |events|
    ensures RegistryOk(states[k].reg) && BundlesOk(states[k]) && KeysOk(states[k])
  {
    if k == 0 {
      EmptyOk();
    } else {
      StagingAlwaysOk(states, events, k - 1);
      assert Next(states[k - 1], events[k - 1], states[k]);
      RegistryStep(states[k - 1], events[k - 1], states[k]);
      BundlesKept(states[k - 1], events[k - 1], states[k]);
      KeysKept(states[k - 1], events[k - 1], states[k]);
    }
  }

  /** However calls interleave and die, each generation's one-time material is
      returned by at most one call: by exactly one, unless the call that staged
      the generation died before it returned, or is still about to. */
  lemma OneTimeMaterial(states: seq<State>, events: seq<Label>, k: nat, id: CertId)
    requires IsRun(states, events) && k <= |events| && id in states[k].reg.certs
    ensures MadeBySome(states[k], id)
    ensures forall i, j | 0 <= i < |states[k].calls| && 0 <= j < |states[k].calls| ::
              Made(states[k].calls[i], id) && Made(states[k].calls[j], id) ==> i == j
    ensures (exists i :: 0 <= i < |states[k].calls| && states[k].calls[i].pc == Returned(id, true)) <==>
            !(exists i :: 0 <= i < |states[k].calls| && Unreturned(states[k].calls[i], id))
  {
    StagingAlwaysOk(states, events, k);
    var i :| 0 <= i < |states[k].calls| && Made(states[k].calls[i], id);
    assert states[k].calls[i].pc == Returned(id, true) || Unreturned(states[k].calls[i], id);
  }

  /** The call staged the generation and has not returned, or never will. */
  predicate Unreturned(c: Call, id: CertId) { c.pc == Committed(id) || c.pc == Died(Some(id)) }

  /** Material can be lost: the only call dies between its commit and its return,
      and its generation stays staged without a holder. */
  lemma MaterialCanBeLost() returns (states: seq<State>, events: seq<Label>)
    ensures IsRun(states, events) && |events| == 5 && CertId(1, 1) in states[5].reg.certs
    ensures forall i :: 0 <= i < |states[5].calls| ==> states[5].calls[i].pc != Returned(CertId(1, 1), true)
  {
    var m := Material(10, 11, 0, 100);
    var create := GetOrCreate(5, 6, {GuardEvents}, Some(1), 1);
    var r1 := Apply(EMPTY, create);
    var stage := Stage(1, 1, 10, 11, 0, 100, None);
    var r2 := Apply(r1, stage);
    assert Creates(EMPTY, create) && Stages(r1, stage);
    var c0, c1, c2 := Call(None, Fetching(1)), Call(None, Issuing(1, 1)), Call(None, Committed(CertId(1, 1)));
    var c3 := Call(None, Died(Some(CertId(1, 1))));
    var s0, s1, s2 := State(EMPTY, []), State(r1, []), State(r1, [c0]);
    var s3, s4, s5 := State(r1, [c1]), State(r2, [c2]), State(r2, [c3]);
    var step := Step(0, 0, m, None);
    states := [s0, s1, s2, s3, s4, s5];
    events := [Elsewhere(create), Begin(c0), step, step, Dies(0)];
    assert Next(s0, events[0], s1);
    assert [] + [c0] == [c0] && Next(s1, events[1], s2);
    assert Next(s2, events[2], s3);
    assert Next(s3, events[3], s4);
    assert [c2][0 := c3] == [c3] && Next(s4, events[4], s5);
  }

  /** One key of one agent is held by one certificate. */
  lemma KeyHeldOnce(reg: Registry, p: CertId, q: CertId)
    requires Unique(reg) && p in reg.certs && q in reg.certs && p.agent == q.agent
    requires reg.certs[p].key.Some? && reg.certs[p].key == reg.certs[q].key
    ensures p == q
  {
    assert p != q ==> Apart(reg, p, q);
  }

  /** Two calls with one key that answered with different generations of one
      agent: the key of at least one of them has been released since. */
  lemma EqualKeysOneGeneration(states: seq<State>, events: seq<Label>, k: nat, i: nat, j: nat)
    requires IsRun(states, events) && k <= |events| && i < |states[k].calls| && j < |states[k].calls|
    requires states[k].calls[i].pc.Returned? && states[k].calls[j].pc.Returned?
    requires states[k].calls[i].key.Some? && states[k].calls[i].key == states[k].calls[j].key
    requires states[k].calls[i].pc.id.agent == states[k].calls[j].pc.id.agent
    ensures var p, q := states[k].calls[i].pc.id, states[k].calls[j].pc.id;
            p in states[k].reg.certs && q in states[k].reg.certs
            && (p == q || states[k].reg.certs[p].key.None? || states[k].reg.certs[q].key.None?)
  {
    StagingAlwaysOk(states, events, k);
    var s := states[k];
    var p, q := s.calls[i].pc.id, s.calls[j].pc.id;
    assert AnswerOk(s.reg, s.calls[i]) && AnswerOk(s.reg, s.calls[j]);
    if s.reg.certs[p].key.Some? && s.reg.certs[q].key.Some? { KeyHeldOnce(s.reg, p, q); }
  }

  /** An undisturbed call with a new key stages the next generation and returns its
      material; a later call with that key is answered with the same generation,
      without material. */
  lemma UndisturbedCall(reg: Registry, agent: AgentId, key: Key, m: Material, found: Option<CertId>, c: Call, d: Call, e: Call, after: Registry)
    requires agent in reg.identities && !reg.identities[agent].revoked && !HasStaged(reg, agent) && !Keyed(reg, agent, Some(key))
    requires !MaterialTaken(reg, m.serial, m.fingerprint) && m.notBefore < m.notAfter
    requires var next := reg.identities[agent].generation + 1;
             && CallStep(reg, Call(Some(key), LookingUp(agent, next)), 0, m, found, reg, c)
             && CallStep(reg, c, 0, m, None, after, d) && CallStep(after, d, 0, m, None, after, e)
    ensures var id := CertId(agent, reg.identities[agent].generation + 1);
            && c.pc == Issuing(agent, id.generation) && d.pc == Committed(id) && e.pc == Returned(id, true)
            && id in after.certs && after.certs[id].state == CertState.Staged && after.certs[id].key == Some(key)
            && after.certs[id].serial == m.serial && after.certs[id].fingerprint == m.fingerprint
  {}

  lemma ReplayedCall(reg: Registry, id: CertId, key: Key, next: nat, m: Material, found: Option<CertId>, c: Call)
    requires RegistryOk(reg) && KeyAt(reg, id, id.agent, key)
    requires CallStep(reg, Call(Some(key), LookingUp(id.agent, next)), 0, m, found, reg, c)
    ensures c.pc == Returned(id, false)
  {
    assert KeyAt(reg, id, id.agent, key);
    if found.Some? { KeyHeldOnce(reg, found.value, id); }
  }
}
