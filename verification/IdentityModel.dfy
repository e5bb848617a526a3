/** The agent-identity registry as a value: stable target/host/scope bindings,
    certificate generations, and the state every registry call commits. */
module IdentityModel {
  import opened Basics

  type AgentId = int
  type TargetId = int
  type HostId = int

  datatype Scope = AssetReports | TraceBatches | GuardEvents

  /** A hashed idempotency key; hashing is injective.  Scan jobs use one key per
      attempt. */
  datatype Key = AttemptKey(job: int, attempt: nat) | OtherKey(name: int)

  datatype CertState = Staged | Active | Retired | Revoked

  datatype Identity = Identity(target: TargetId, host: HostId, scopes: set<Scope>, revoked: bool, generation: nat)

  datatype CertId = CertId(agent: AgentId, generation: nat)

  datatype Cert = Cert(
    serial: int, fingerprint: int, state: CertState, key: Option<Key>, notBefore: Time, notAfter: Time,
    activatedAt: Option<Time>, retiredAt: Option<Time>, overlapUntil: Option<Time>, revokedAt: Option<Time>)

  datatype Registry = Registry(identities: map<AgentId, Identity>, certs: map<CertId, Cert>)

  /** One hour. */
  const MAX_ROTATION_OVERLAP: int := 3_600_000_000

  datatype Op =
    | GetOrCreate(target: TargetId, host: HostId, scopes: set<Scope>, requested: Option<AgentId>, generated: AgentId)
    | Stage(agent: AgentId, generation: nat, serial: int, fingerprint: int, notBefore: Time, notAfter: Time, key: Option<Key>)
    | Activate(agent: AgentId, generation: nat, overlap: int, now: Time)
    | Abort(agent: AgentId, generation: nat, now: Time)
    | RevokeAgent(agent: AgentId, now: Time)
    | RevokeOne(agent: AgentId, generation: nat, now: Time)
    | RevokeCertificates(agent: AgentId, now: Time)

  datatype Reply<+T> = Done(value: T) | NotFound | Conflict | Invalid

  // ---------------------------------------------------------------- lookups

  predicate KeyAt(reg: Registry, id: CertId, agent: AgentId, key: Key) {
    id in reg.certs && id.agent == agent && reg.certs[id].key == Some(key)
  }

  predicate Keyed(reg: Registry, agent: AgentId, key: Option<Key>) {
    key.Some? && exists id :: id in reg.certs && KeyAt(reg, id, agent, key.value)
  }

  predicate HasStaged(reg: Registry, agent: AgentId) {
    exists id :: id in reg.certs && id.agent == agent && reg.certs[id].state.Staged?
  }

  predicate BindingTaken(reg: Registry, agent: AgentId, target: TargetId, host: HostId) {
    agent in reg.identities
    || exists a :: a in reg.identities && (reg.identities[a].target == target || reg.identities[a].host == host)
  }

  predicate BoundTo(reg: Registry, a: AgentId, target: TargetId) {
    a in reg.identities && reg.identities[a].target == target
  }

  predicate TargetKnown(reg: Registry, target: TargetId) { exists a :: a in reg.identities && BoundTo(reg, a, target) }

  /** The existing row that a repeated `GetOrCreate` answers with. */
  ghost predicate SameBinding(reg: Registry, a: AgentId, target: TargetId, host: HostId, scopes: set<Scope>, requested: Option<AgentId>) {
    && scopes != {} && BoundTo(reg, a, target) && reg.identities[a].host == host && reg.identities[a].scopes == scopes
    && (requested.Some? ==> requested.value == a)
  }

  predicate MaterialTaken(reg: Registry, serial: int, fingerprint: int) {
    exists id :: id in reg.certs && (reg.certs[id].serial == serial || reg.certs[id].fingerprint == fingerprint)
  }

  function NewAgent(op: Op): AgentId
    requires op.GetOrCreate?
  {
    if op.requested.Some? then op.requested.value else op.generated
  }

  // ------------------------------------------------------------------ guards

  predicate Creates(reg: Registry, op: Op)
    requires op.GetOrCreate?
  {
    op.scopes != {} && !TargetKnown(reg, op.target) && !BindingTaken(reg, NewAgent(op), op.target, op.host)
  }

  predicate Stages(reg: Registry, op: Op)
    requires op.Stage?
  {
    && op.notBefore < op.notAfter
    && op.agent in reg.identities && !reg.identities[op.agent].revoked
    && !Keyed(reg, op.agent, op.key)
    && !HasStaged(reg, op.agent)
    && op.generation == reg.identities[op.agent].generation + 1
    && !MaterialTaken(reg, op.serial, op.fingerprint)
  }

  predicate Activates(reg: Registry, op: Op)
    requires op.Activate?
  {
    var id := CertId(op.agent, op.generation);
    && 0 <= op.overlap <= MAX_ROTATION_OVERLAP
    && op.agent in reg.identities && !reg.identities[op.agent].revoked
    && id in reg.certs && reg.certs[id].state.Staged? && op.now < reg.certs[id].notAfter
  }

  predicate Aborts(reg: Registry, op: Op)
    requires op.Abort?
  {
    var id := CertId(op.agent, op.generation);
    op.agent in reg.identities && id in reg.certs && reg.certs[id].state.Staged?
  }

  // ----------------------------------------------------------- row updates

  function RevokedCert(c: Cert, now: Time, release: bool): Cert {
    c.(state := Revoked, revokedAt := Some(now), overlapUntil := None, key := if release then None else c.key)
  }

  /** The three updates of an activation: older overlaps close now, the active
      certificate retires with a bounded overlap, the staged one takes over. */
  function ActivatedCert(id: CertId, c: Cert, op: Op): Cert
    requires op.Activate?
  {
    if id.agent != op.agent then c
    else if id.generation == op.generation
    then c.(state := Active, activatedAt := Some(op.now), retiredAt := None, overlapUntil := None)
    else if c.state.Retired? && c.overlapUntil.Some? && op.now < c.overlapUntil.value
    then c.(overlapUntil := Some(op.now))
    else if c.state.Active?
    then c.(state := Retired, retiredAt := Some(op.now), overlapUntil := Some(Min(c.notAfter, op.now + op.overlap)))
    else c
  }

  function RevokeAll(reg: Registry, agent: AgentId, now: Time, release: bool): map<CertId, Cert> {
    map id | id in reg.certs ::
      if id.agent == agent && !reg.certs[id].state.Revoked? then RevokedCert(reg.certs[id], now, release) else reg.certs[id]
  }

  function Apply(reg: Registry, op: Op): Registry {
    match op
    case GetOrCreate(target, host, scopes, _, _) =>
      if Creates(reg, op)
      then reg.(identities := reg.identities[NewAgent(op) := Identity(target, host, scopes, false, 0)])
      else reg
    case Stage(agent, generation, serial, fingerprint, notBefore, notAfter, key) =>
      if Stages(reg, op)
      then Registry(
          reg.identities[agent := reg.identities[agent].(generation := generation)],
          reg.certs[CertId(agent, generation) :=
            Cert(serial, fingerprint, Staged, key, notBefore, notAfter, None, None, None, None)])
      else reg
    case Activate(_, _, _, _) =>
      if Activates(reg, op)
      then reg.(certs := map id | id in reg.certs :: ActivatedCert(id, reg.certs[id], op))
      else reg
    case Abort(agent, generation, now) =>
      if Aborts(reg, op)
      then reg.(certs := reg.certs[CertId(agent, generation) := RevokedCert(reg.certs[CertId(agent, generation)], now, true)])
      else reg
    case RevokeAgent(agent, now) =>
      if agent in reg.identities && !reg.identities[agent].revoked
      then Registry(reg.identities[agent := reg.identities[agent].(revoked := true)], RevokeAll(reg, agent, now, false))
      else reg
    case RevokeOne(agent, generation, now) =>
      var id := CertId(agent, generation);
      if agent in reg.identities && id in reg.certs && !reg.certs[id].state.Revoked?
      then reg.(certs := reg.certs[id := RevokedCert(reg.certs[id], now, false)])
      else reg
    case RevokeCertificates(agent, now) =>
      if agent in reg.identities then reg.(certs := RevokeAll(reg, agent, now, true)) else reg
  }

  // --------------------------------------------------------------- verify

  /** The certificate a presented fingerprint and/or serial names. */
  predicate Names(reg: Registry, id: CertId, fingerprint: Option<int>, serial: Option<int>) {
    && id in reg.certs
    && (fingerprint.Some? ==> reg.certs[id].fingerprint == fingerprint.value)
    && (serial.Some? ==> reg.certs[id].serial == serial.value)
  }

  /** Whether `verify` accepts a certificate at one instant. */
  predicate Accepts(reg: Registry, id: CertId, now: Time, allowStaged: bool) {
    && id in reg.certs && id.agent in reg.identities && !reg.identities[id.agent].revoked
    && var c := reg.certs[id];
    && c.notBefore <= now < c.notAfter
    && match c.state
       case Active => true
       case Retired => c.overlapUntil.Some? && now < c.overlapUntil.value
       case Staged => allowStaged
       case Revoked => false
  }

  datatype Principal = Principal(id: CertId, target: TargetId, host: HostId, scopes: set<Scope>)
}
