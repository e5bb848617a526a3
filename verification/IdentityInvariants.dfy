/** What every registry call keeps. */
module IdentityInvariants {
  import opened IdentityModel

  /** Targets, hosts and agents correspond one to one. */
  ghost predicate BindingsOk(reg: Registry) {
    forall a, b :: a in reg.identities && b in reg.identities && a != b ==>
                     reg.identities[a].target != reg.identities[b].target && reg.identities[a].host != reg.identities[b].host
  }

  /** The generations of an identity are exactly `1..n`. */
  ghost predicate GenerationsOk(reg: Registry) {
    && (forall id :: id in reg.certs ==>
                       id.agent in reg.identities && 1 <= id.generation <= reg.identities[id.agent].generation)
    && (forall a, g :: a in reg.identities && 1 <= g <= reg.identities[a].generation ==> CertId(a, g) in reg.certs)
  }

  /** Per-certificate facts. */
  predicate CertOk(c: Cert) {
    match c.state
    case Staged => c.activatedAt.None?
    case Active => c.activatedAt.Some?
    case Retired =>
      && c.activatedAt.Some? && c.retiredAt.Some? && c.overlapUntil.Some?
      && c.overlapUntil.value <= c.retiredAt.value + MAX_ROTATION_OVERLAP && c.overlapUntil.value <= c.notAfter
    case Revoked => c.overlapUntil.None?
  }

  ghost predicate CertsOk(reg: Registry) {
    forall id :: id in reg.certs ==>
      var c := reg.certs[id];
      && CertOk(c) && id.agent in reg.identities
      && (c.state.Staged? ==> id.generation == reg.identities[id.agent].generation)
      && (reg.identities[id.agent].revoked ==> c.state.Revoked?)
  }

  predicate EverActivated(reg: Registry, id: CertId) { id in reg.certs && reg.certs[id].activatedAt.Some? }

  /** Facts about two certificates of one identity, the second one newer:
      retired < active, and nothing activated later than the active one. */
  ghost predicate OrderOk(reg: Registry) {
    forall p, q :: p in reg.certs && q in reg.certs && p.agent == q.agent && p.generation < q.generation ==>
      && (reg.certs[p].state.Active? ==> !EverActivated(reg, q))
      && (reg.certs[q].state.Retired? ==> !reg.certs[p].state.Active?)
  }

  ghost predicate Unique(reg: Registry) {
    forall p, q :: p in reg.certs && q in reg.certs && p != q ==> Apart(reg, p, q)
  }

  /** The most recently activated certificate of its identity. */
  ghost predicate Latest(reg: Registry, q: CertId) {
    EverActivated(reg, q)
    && forall r :: EverActivated(reg, r) && r.agent == q.agent ==> r.generation <= q.generation
  }

  /** `p` is retired and `q` is the latest activation of the same identity. */
  ghost predicate RetiredUnder(reg: Registry, p: CertId, q: CertId) {
    p in reg.certs && reg.certs[p].state.Retired? && Latest(reg, q) && p.agent == q.agent
  }

  predicate Between(reg: Registry, p: CertId, m: CertId, q: CertId) {
    EverActivated(reg, m) && m.agent == p.agent && p.generation < m.generation < q.generation
  }

  /** The overlap of `p` ended by the activation of `q`. */
  predicate ClosedBy(reg: Registry, p: CertId, q: CertId) {
    && p in reg.certs && EverActivated(reg, q)
    && reg.certs[p].overlapUntil.Some? && reg.certs[p].overlapUntil.value <= reg.certs[q].activatedAt.value
  }

  /** Retired certificates have been overtaken, and only the one just before
      the latest activation may overlap it. */
  ghost predicate OverlapOk(reg: Registry) {
    && (forall p, q :: RetiredUnder(reg, p, q) ==> p.generation < q.generation)
    && (forall p, m, q :: RetiredUnder(reg, p, q) && Between(reg, p, m, q) ==> ClosedBy(reg, p, q))
  }

  ghost predicate RegistryOk(reg: Registry) {
    BindingsOk(reg) && GenerationsOk(reg) && CertsOk(reg) && OrderOk(reg) && Unique(reg) && OverlapOk(reg)
  }

  const EMPTY := Registry(map[], map[])

  lemma EmptyOk()
    ensures RegistryOk(EMPTY)
  {}

  /** How one call moves one certificate row. */
  predicate CertMoves(reg: Registry, op: Op, id: CertId, c: Cert, d: Cert) {
    match op
    case GetOrCreate(_, _, _, _, _) => d == c
    case Stage(_, _, _, _, _, _, _) => d == c
    case Activate(_, _, _, _) => if Activates(reg, op) then d == ActivatedCert(id, c, op) else d == c
    case Abort(agent, generation, now) =>
      if Aborts(reg, op) && id == CertId(agent, generation) then d == RevokedCert(c, now, true) else d == c
    case RevokeAgent(agent, now) => d == c || (id.agent == agent && !c.state.Revoked? && d == RevokedCert(c, now, false))
    case RevokeOne(agent, generation, now) =>
      d == c || (id == CertId(agent, generation) && !c.state.Revoked? && d == RevokedCert(c, now, false))
    case RevokeCertificates(agent, now) =>
      d == c || (id.agent == agent && !c.state.Revoked? && d == RevokedCert(c, now, true))
  }

  lemma CertChange(reg: Registry, op: Op, id: CertId)
    requires GenerationsOk(reg)
    ensures id in reg.certs ==> id in Apply(reg, op).certs && CertMoves(reg, op, id, reg.certs[id], Apply(reg, op).certs[id])
    ensures id !in reg.certs && id in Apply(reg, op).certs ==>
              op.Stage? && Stages(reg, op) && id == CertId(op.agent, op.generation) && Apply(reg, op).certs[id].state.Staged?
              && Apply(reg, op).certs[id].key == op.key && Apply(reg, op).certs[id].activatedAt.None?
              && Apply(reg, op).certs[id].overlapUntil.None?
              && Apply(reg, op).certs[id].serial == op.serial && Apply(reg, op).certs[id].fingerprint == op.fingerprint
  {}

  /** An identity keeps its binding; its generation grows only by staging, and
      it is never un-revoked. */
  lemma IdentityChange(reg: Registry, op: Op, a: AgentId)
    ensures a in reg.identities ==>
              && a in Apply(reg, op).identities
              && var i, j := reg.identities[a], Apply(reg, op).identities[a];
              && i.target == j.target && i.host == j.host && i.scopes == j.scopes && (i.revoked ==> j.revoked)
              && (j.revoked && !i.revoked ==> op.RevokeAgent? && op.agent == a)
              && j.generation == if op.Stage? && Stages(reg, op) && op.agent == a then i.generation + 1 else i.generation
    ensures a !in reg.identities && a in Apply(reg, op).identities ==>
              op.GetOrCreate? && Creates(reg, op) && a == NewAgent(op)
              && Apply(reg, op).identities[a] == Identity(op.target, op.host, op.scopes, false, 0)
  {}

  lemma BindingsKept(reg: Registry, op: Op)
    requires BindingsOk(reg)
    ensures BindingsOk(Apply(reg, op))
  {
    var next := Apply(reg, op);
    forall a, b | a in next.identities && b in next.identities && a != b
      ensures next.identities[a].target != next.identities[b].target && next.identities[a].host != next.identities[b].host
    {
      IdentityChange(reg, op, a);
      IdentityChange(reg, op, b);
    }
  }

  lemma GenerationsKept(reg: Registry, op: Op)
    requires GenerationsOk(reg)
    ensures GenerationsOk(Apply(reg, op))
  {
    var next := Apply(reg, op);
    forall id | id in next.certs
      ensures id.agent in next.identities && 1 <= id.generation <= next.identities[id.agent].generation
    {
      CertChange(reg, op, id);
      IdentityChange(reg, op, id.agent);
    }
    forall a, g | a in next.identities && 1 <= g <= next.identities[a].generation ensures CertId(a, g) in next.certs {
      IdentityChange(reg, op, a);
      CertChange(reg, op, CertId(a, g));
    }
  }

  lemma CertsKept(reg: Registry, op: Op)
    requires GenerationsOk(reg) && CertsOk(reg)
    ensures CertsOk(Apply(reg, op))
  {
    GenerationsKept(reg, op);
    var next := Apply(reg, op);
    forall id | id in next.certs
      ensures var c := next.certs[id];
              && CertOk(c)
              && (c.state.Staged? ==> id.generation == next.identities[id.agent].generation)
              && (next.identities[id.agent].revoked ==> c.state.Revoked?)
    {
      CertChange(reg, op, id);
      IdentityChange(reg, op, id.agent);
    }
  }

  lemma OrderKept(reg: Registry, op: Op)
    requires GenerationsOk(reg) && CertsOk(reg) && OrderOk(reg)
    ensures OrderOk(Apply(reg, op))
  {
    GenerationsKept(reg, op);
    var next := Apply(reg, op);
    forall p, q | p in next.certs && q in next.certs && p.agent == q.agent && p.generation < q.generation
      ensures next.certs[p].state.Active? ==> !EverActivated(next, q)
      ensures next.certs[q].state.Retired? ==> !next.certs[p].state.Active?
    {
      CertChange(reg, op, p);
      CertChange(reg, op, q);
    }
  }

  predicate Apart(reg: Registry, p: CertId, q: CertId)
    requires p in reg.certs && q in reg.certs
  {
    && reg.certs[p].serial != reg.certs[q].serial && reg.certs[p].fingerprint != reg.certs[q].fingerprint
    && (p.agent == q.agent && reg.certs[p].key.Some? ==> reg.certs[p].key != reg.certs[q].key)
  }

  lemma StagedApart(reg: Registry, op: Op, p: CertId, q: CertId)
    requires GenerationsOk(reg) && p in Apply(reg, op).certs && q in reg.certs && q in Apply(reg, op).certs && p !in reg.certs
    ensures Apart(Apply(reg, op), p, q) && Apart(Apply(reg, op), q, p)
  {
    CertChange(reg, op, p);
    CertChange(reg, op, q);
    if op.key.Some? { assert !KeyAt(reg, q, op.agent, op.key.value); }
  }

  lemma UniqueKept(reg: Registry, op: Op)
    requires GenerationsOk(reg) && Unique(reg)
    ensures Unique(Apply(reg, op))
  {
    var next := Apply(reg, op);
    forall p, q | p in next.certs && q in next.certs && p != q ensures Apart(next, p, q) {
      if p !in reg.certs && q in reg.certs {
        CertChange(reg, op, q);
        StagedApart(reg, op, p, q);
      } else if q !in reg.certs && p in reg.certs {
        CertChange(reg, op, p);
        StagedApart(reg, op, q, p);
      } else {
        CertChange(reg, op, p);
        CertChange(reg, op, q);
      }
    }
  }

  /** Except by activation, what has been activated does not change. */
  lemma SameActivations(reg: Registry, op: Op, q: CertId)
    requires GenerationsOk(reg) && Latest(Apply(reg, op), q)
    requires op.Activate? && Activates(reg, op) ==> q.agent != op.agent
    ensures Latest(reg, q) && Apply(reg, op).certs[q].activatedAt == reg.certs[q].activatedAt
  {
    CertChange(reg, op, q);
    forall r | EverActivated(reg, r) && r.agent == q.agent ensures r.generation <= q.generation {
      CertChange(reg, op, r);
      assert EverActivated(Apply(reg, op), r);
    }
  }

  lemma OverlapKeptByActivation(reg: Registry, op: Op, p: CertId, q: CertId)
    requires GenerationsOk(reg) && CertsOk(reg) && OrderOk(reg) && op.Activate? && Activates(reg, op) && p.agent == op.agent
    requires RetiredUnder(Apply(reg, op), p, q)
    ensures p.generation < q.generation
    ensures forall m :: Between(Apply(reg, op), p, m, q) ==> ClosedBy(Apply(reg, op), p, q)
  {
    var next := Apply(reg, op);
    var top := CertId(op.agent, op.generation);
    assert EverActivated(next, top);
    CertChange(reg, op, p);
    CertChange(reg, op, q);
    assert q == top;
    forall m | Between(next, p, m, q) ensures ClosedBy(next, p, q) {
      CertChange(reg, op, m);
      assert EverActivated(reg, m);
    }
  }

  lemma OverlapKeptElsewhere(reg: Registry, op: Op, p: CertId, q: CertId)
    requires GenerationsOk(reg) && CertsOk(reg) && OrderOk(reg) && OverlapOk(reg)
    requires op.Activate? && Activates(reg, op) ==> p.agent != op.agent
    requires RetiredUnder(Apply(reg, op), p, q)
    ensures p.generation < q.generation
    ensures forall m :: Between(Apply(reg, op), p, m, q) ==> ClosedBy(Apply(reg, op), p, q)
  {
    CertChange(reg, op, p);
    SameActivations(reg, op, q);
    assert RetiredUnder(reg, p, q);
    forall m | Between(Apply(reg, op), p, m, q) ensures ClosedBy(Apply(reg, op), p, q) {
      CertChange(reg, op, m);
      assert Between(reg, p, m, q);
    }
  }

  lemma OverlapKept(reg: Registry, op: Op)
    requires GenerationsOk(reg) && CertsOk(reg) && OrderOk(reg) && OverlapOk(reg)
    ensures OverlapOk(Apply(reg, op))
  {
    forall p, q | RetiredUnder(Apply(reg, op), p, q)
      ensures p.generation < q.generation
      ensures forall m :: Between(Apply(reg, op), p, m, q) ==> ClosedBy(Apply(reg, op), p, q)
    {
      if op.Activate? && Activates(reg, op) && p.agent == op.agent {
        OverlapKeptByActivation(reg, op, p, q);
      } else {
        OverlapKeptElsewhere(reg, op, p, q);
      }
    }
  }

  lemma RegistryKept(reg: Registry, op: Op)
    requires RegistryOk(reg)
    ensures RegistryOk(Apply(reg, op))
  {
    BindingsKept(reg, op);
    GenerationsKept(reg, op);
    CertsKept(reg, op);
    OrderKept(reg, op);
    UniqueKept(reg, op);
    OverlapKept(reg, op);
  }
}
