/** What the registry's calls give their callers: which certificates `verify`
    accepts after them and until when, and what exactly each call writes. */
module IdentityAnswers {
  import opened Basics
  import opened IdentityModel
  import opened IdentityInvariants
  import opened IdentityRuns

  // -------------------------------------------------------------- rotation

  /** Nothing prevents activating this generation. */
  predicate ReadyToActivate(reg: Registry, id: CertId, overlap: int, now: Time) {
    && id.agent in reg.identities && !reg.identities[id.agent].revoked
    && id in reg.certs && reg.certs[id].state == Staged && now < reg.certs[id].notAfter
    && 0 <= overlap <= 3_600_000_000
  }

  /** Calls that can end the acceptance of an activated certificate. */
  predicate Disturbs(op: Op, agent: AgentId) {
    (op.Activate? || op.RevokeAgent? || op.RevokeOne? || op.RevokeCertificates?) && op.agent == agent
  }

  /** The certificate is the active one, or retired with this end. */
  predicate InService(reg: Registry, id: CertId, material: Cert, until: Option<Time>) {
    && id in reg.certs && SameMaterial(material, reg.certs[id])
    && id.agent in reg.identities && !reg.identities[id.agent].revoked
    && reg.certs[id].state == (if until.Some? then Retired else Active) && (until.Some? ==> reg.certs[id].overlapUntil == until)
  }

  /** Exactly when an activation is granted, and what it leaves: the staged
      generation active, the active one retired until the overlap or its own
      validity ends, and open overlaps of older ones closed now. */
  lemma ActivationAnswer(reg: Registry, op: Op, id: CertId)
    requires op.Activate?
    ensures var next := CertId(op.agent, op.generation);
            var granted := ReadyToActivate(reg, next, op.overlap, op.now);
            && (Activates(reg, op) <==> granted)
            && Apply(reg, op).identities == reg.identities && Apply(reg, op).certs.Keys == reg.certs.Keys
            && (!granted ==> Apply(reg, op) == reg)
            && (granted && id in reg.certs ==>
                  var c, d := reg.certs[id], Apply(reg, op).certs[id];
                  var end := if c.notAfter < op.now + op.overlap then c.notAfter else op.now + op.overlap;
                  if id == next then
                    d == c.(state := Active, activatedAt := Some(op.now), retiredAt := None, overlapUntil := None)
                  else if id.agent == op.agent && c.state == Active then
                    d == c.(state := Retired, retiredAt := Some(op.now), overlapUntil := Some(end))
                  else if id.agent == op.agent && c.state == Retired && c.overlapUntil.Some? && c.overlapUntil.value > op.now then
                    d == c.(overlapUntil := Some(op.now))
                  else d == c)
  {}

  lemma InServiceStep(states: seq<Registry>, ops: seq<Op>, k: nat, id: CertId, material: Cert, until: Option<Time>)
    requires IsRun(states, ops) && k < |ops| && InService(states[k], id, material, until) && !Disturbs(ops[k], id.agent)
    ensures InService(states[k + 1], id, material, until)
  {
    AlwaysOk(states, ops, k);
    CertChange(states[k], ops[k], id);
    IdentityChange(states[k], ops[k], id.agent);
    assert StepAt(states, ops, k);
  }

  lemma {:induction false} StaysInService(states: seq<Registry>, ops: seq<Op>, i: nat, k: nat, id: CertId, material: Cert, until: Option<Time>)
    requires IsRun(states, ops) && i <= k <= |ops| && InService(states[i], id, material, until)
    requires forall m :: i <= m < k ==> !Disturbs(ops[m], id.agent)
    ensures InService(states[k], id, material, until)
    decreases k
  {
    if i < k {
      StaysInService(states, ops, i, k - 1, id, material, until);
      InServiceStep(states, ops, k - 1, id, material, until);
    }
  }

  /** The rotation window from below and from above.  After an activation at `t`
      with overlap `d`, until the agent is activated or revoked again, the
      certificate that was active before is accepted exactly while `now < t + d`
      and it is valid, and the activated one exactly while it is valid. */
  lemma OverlapIsGranted(states: seq<Registry>, ops: seq<Op>, i: nat, k: nat, before: CertId, now: Time)
    requires IsRun(states, ops) && i < k <= |ops| && ops[i].Activate?
    requires ReadyToActivate(states[i], CertId(ops[i].agent, ops[i].generation), ops[i].overlap, ops[i].now)
    requires forall m :: i < m < k ==> !Disturbs(ops[m], ops[i].agent)
    requires before in states[i].certs && before.agent == ops[i].agent && states[i].certs[before].state == Active
    ensures var prior, next := states[i].certs[before], states[i].certs[CertId(ops[i].agent, ops[i].generation)];
            && (Accepts(states[k], before, now, false) <==>
                  prior.notBefore <= now < prior.notAfter && now < ops[i].now + ops[i].overlap)
            && (Accepts(states[k], CertId(ops[i].agent, ops[i].generation), now, false) <==> next.notBefore <= now < next.notAfter)
  {
    var op := ops[i];
    var next := CertId(op.agent, op.generation);
    var c := states[i].certs[before];
    var end := if c.notAfter < op.now + op.overlap then c.notAfter else op.now + op.overlap;
    assert StepAt(states, ops, i);
    ActivationAnswer(states[i], op, before);
    ActivationAnswer(states[i], op, next);
    assert InService(states[i + 1], before, c, Some(end));
    assert InService(states[i + 1], next, states[i].certs[next], None);
    StaysInService(states, ops, i + 1, k, before, c, Some(end));
    StaysInService(states, ops, i + 1, k, next, states[i].certs[next], None);
  }

  /** The first activation, with no predecessor, serves as well. */
  lemma ActivatedIsAccepted(states: seq<Registry>, ops: seq<Op>, i: nat, k: nat, now: Time)
    requires IsRun(states, ops) && i < k <= |ops| && ops[i].Activate?
    requires ReadyToActivate(states[i], CertId(ops[i].agent, ops[i].generation), ops[i].overlap, ops[i].now)
    requires forall m :: i < m < k ==> !Disturbs(ops[m], ops[i].agent)
    ensures var next := states[i].certs[CertId(ops[i].agent, ops[i].generation)];
            Accepts(states[k], CertId(ops[i].agent, ops[i].generation), now, false) <==> next.notBefore <= now < next.notAfter
  {
    var next := CertId(ops[i].agent, ops[i].generation);
    assert StepAt(states, ops, i);
    ActivationAnswer(states[i], ops[i], next);
    assert InService(states[i + 1], next, states[i].certs[next], None);
    StaysInService(states, ops, i + 1, k, next, states[i].certs[next], None);
  }

  // ------------------------------------------------------ staging and binding

  /** Staging is granted for the next generation of an identity in use when no
      generation is staged and key and material are new; the generation is then
      accepted from staged peers only, while it is valid. */
  lemma StagingAnswer(reg: Registry, op: Op, now: Time)
    requires op.Stage?
    ensures var id := CertId(op.agent, op.generation);
            var granted := && op.agent in reg.identities && !reg.identities[op.agent].revoked
                           && op.generation == reg.identities[op.agent].generation + 1 && op.notBefore < op.notAfter
                           && (forall p :: p in reg.certs && p.agent == op.agent ==>
                                 reg.certs[p].state != Staged && (op.key.Some? ==> reg.certs[p].key != op.key))
                           && (forall p :: p in reg.certs ==> reg.certs[p].serial != op.serial && reg.certs[p].fingerprint != op.fingerprint);
            && (Stages(reg, op) <==> granted)
            && (!granted ==> Apply(reg, op) == reg)
            && (granted ==>
                  && Apply(reg, op).certs ==
                     reg.certs[id := Cert(op.serial, op.fingerprint, Staged, op.key, op.notBefore, op.notAfter, None, None, None, None)]
                  && Apply(reg, op).identities ==
                     reg.identities[op.agent := reg.identities[op.agent].(generation := op.generation)]
                  && !Accepts(Apply(reg, op), id, now, false)
                  && (Accepts(Apply(reg, op), id, now, true) <==> op.notBefore <= now < op.notAfter))
  {
    if op.key.Some? {
      assert Keyed(reg, op.agent, op.key) <==> exists p :: p in reg.certs && p.agent == op.agent && reg.certs[p].key == op.key by {
        forall p | p in reg.certs ensures KeyAt(reg, p, op.agent, op.key.value) <==> (p.agent == op.agent && reg.certs[p].key == op.key) {}
      }
    }
  }

  /** A binding is created when the target, the host and the agent are all new and
      some scope is asked for; nothing else changes. */
  lemma BindingAnswer(reg: Registry, op: Op)
    requires op.GetOrCreate?
    ensures var agent := if op.requested == None then op.generated else op.requested.value;
            var granted := && op.scopes != {} && agent !in reg.identities
                           && forall a :: a in reg.identities ==> reg.identities[a].target != op.target && reg.identities[a].host != op.host;
            && (Creates(reg, op) <==> granted)
            && Apply(reg, op) == if granted then reg.(identities := reg.identities[agent := Identity(op.target, op.host, op.scopes, false, 0)]) else reg
  {
    assert TargetKnown(reg, op.target) <==> exists a :: a in reg.identities && reg.identities[a].target == op.target by {
      forall a | a in reg.identities ensures BoundTo(reg, a, op.target) <==> reg.identities[a].target == op.target {}
    }
  }

  // ------------------------------------------------------------- revocation

  /** The row is revoked now; its key is given up or kept. */
  predicate RevokedAs(c: Cert, d: Cert, now: Time, keepKey: bool) {
    d == c.(state := Revoked, revokedAt := Some(now), overlapUntil := None, key := if keepKey then c.key else None)
  }

  /** Which rows each of the four calls revokes, and whether they keep their key. */
  lemma RevocationAnswer(reg: Registry, op: Op, id: CertId)
    requires op.Abort? || op.RevokeOne? || op.RevokeAgent? || op.RevokeCertificates?
    requires id in reg.certs
    ensures var c := reg.certs[id];
            var known := op.agent in reg.identities;
            var hit := && known && id.agent == op.agent && c.state != Revoked
                       && (op.Abort? ==> id.generation == op.generation && c.state == Staged)
                       && (op.RevokeOne? ==> id.generation == op.generation)
                       && (op.RevokeAgent? ==> !reg.identities[op.agent].revoked);
            && id in Apply(reg, op).certs
            && (if hit then RevokedAs(c, Apply(reg, op).certs[id], op.now, op.RevokeOne? || op.RevokeAgent?) else Apply(reg, op).certs[id] == c)
    ensures Apply(reg, op).identities ==
            if op.RevokeAgent? && op.agent in reg.identities then reg.identities[op.agent := reg.identities[op.agent].(revoked := true)]
            else reg.identities
  {}

  /** `verify` looks up by what is presented: the fingerprint, the serial, or both. */
  lemma PresentedAnswer(reg: Registry, id: CertId, fingerprint: int, serial: int)
    requires id in reg.certs
    ensures Names(reg, id, Some(fingerprint), None) <==> reg.certs[id].fingerprint == fingerprint
    ensures Names(reg, id, None, Some(serial)) <==> reg.certs[id].serial == serial
    ensures Names(reg, id, Some(fingerprint), Some(serial)) <==>
            reg.certs[id].fingerprint == fingerprint && reg.certs[id].serial == serial
  {}
}
