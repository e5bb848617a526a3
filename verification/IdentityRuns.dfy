/** Properties of whole runs of the registry, under arbitrary clocks. */
module IdentityRuns {
  import opened Basics
  import opened IdentityModel
  import opened IdentityInvariants

  ghost predicate StepAt(states: seq<Registry>, ops: seq<Op>, i: nat)
    requires i < |ops| && |states| == |ops| + 1
  {
    states[i + 1] == Apply(states[i], ops[i])
  }

  ghost predicate IsRun(states: seq<Registry>, ops: seq<Op>) {
    && |states| == |ops| + 1
    && states[0] == EMPTY
    && forall i :: 0 <= i < |ops| ==> StepAt(states, ops, i)
  }

  lemma {:induction false} AlwaysOk(states: seq<Registry>, ops: seq<Op>, k: nat)
    requires IsRun(states, ops) && k <= |ops|
    ensures RegistryOk(states[k])
  {
    if k == 0 {
      EmptyOk();
    } else {
      AlwaysOk(states, ops, k - 1);
      assert StepAt(states, ops, k - 1);
      RegistryKept(states[k - 1], ops[k - 1]);
    }
  }

  /** Generations are exactly `1..n`; at most the newest is staged, at most one
      is active, and every retired one is older than the active one. */
  lemma GenerationOrder(states: seq<Registry>, ops: seq<Op>, k: nat, p: CertId, q: CertId)
    requires IsRun(states, ops) && k <= |ops| && p in states[k].certs && q in states[k].certs && p.agent == q.agent
    ensures p.agent in states[k].identities
    ensures forall g: nat :: CertId(p.agent, g) in states[k].certs <==> 1 <= g <= states[k].identities[p.agent].generation
    ensures states[k].certs[p].state.Staged? ==> q.generation <= p.generation
    ensures states[k].certs[p].state.Active? && states[k].certs[q].state.Active? ==> p == q
    ensures states[k].certs[p].state.Retired? && states[k].certs[q].state.Active? ==> p.generation < q.generation
  {
    AlwaysOk(states, ops, k);
  }

  /** A generation once staged keeps its number, its material and its validity
      for ever, so no number is ever used for another certificate. */
  lemma {:induction false} GenerationNeverReused(states: seq<Registry>, ops: seq<Op>, i: nat, k: nat, id: CertId)
    requires IsRun(states, ops) && i <= k <= |ops| && id in states[i].certs
    ensures id in states[k].certs && SameMaterial(states[i].certs[id], states[k].certs[id])
    decreases k
  {
    if i < k {
      GenerationNeverReused(states, ops, i, k - 1, id);
      MaterialStep(states, ops, k - 1, id);
    }
  }

  predicate SameMaterial(c: Cert, d: Cert) {
    c.serial == d.serial && c.fingerprint == d.fingerprint && c.notBefore == d.notBefore && c.notAfter == d.notAfter
  }

  lemma MaterialStep(states: seq<Registry>, ops: seq<Op>, k: nat, id: CertId)
    requires IsRun(states, ops) && k < |ops| && id in states[k].certs
    ensures id in states[k + 1].certs && SameMaterial(states[k].certs[id], states[k + 1].certs[id])
  {
    AlwaysOk(states, ops, k);
    CertChange(states[k], ops[k], id);
    assert StepAt(states, ops, k);
  }

  /** The certificates of one identity that `verify` accepts at one instant. */
  ghost function AcceptedGenerations(reg: Registry, agent: AgentId, now: Time): set<nat> {
    set id | id in reg.certs && id.agent == agent && Accepts(reg, id, now, false) :: id.generation
  }

  /** A retired certificate accepted at or after the latest activation is the
      one that activation overtook. */
  lemma AcceptedRetired(reg: Registry, latest: CertId, p: CertId, now: Time)
    requires RegistryOk(reg) && Latest(reg, latest) && reg.certs[latest].activatedAt.value <= now
    requires Accepts(reg, p, now, false) && p.agent == latest.agent && reg.certs[p].state.Retired?
    ensures p.generation < latest.generation
    ensures forall m :: !Between(reg, p, m, latest)
  {
    assert RetiredUnder(reg, p, latest);
    forall m ensures !Between(reg, p, m, latest) {
      assert Between(reg, p, m, latest) ==> ClosedBy(reg, p, latest);
    }
  }

  /** From the latest activation on, `verify` accepts at most two certificates
      of an identity: the one activated last and the one it directly overtook. */
  lemma RotationWindow(states: seq<Registry>, ops: seq<Op>, k: nat, latest: CertId, now: Time)
    requires IsRun(states, ops) && k <= |ops|
    requires Latest(states[k], latest) && states[k].certs[latest].activatedAt.value <= now
    ensures |AcceptedGenerations(states[k], latest.agent, now)| <= 2
    ensures forall g :: g in AcceptedGenerations(states[k], latest.agent, now) && g != latest.generation ==>
                          g < latest.generation && forall m :: !Between(states[k], CertId(latest.agent, g), m, latest)
  {
    AlwaysOk(states, ops, k);
    var reg := states[k];
    var accepted := AcceptedGenerations(reg, latest.agent, now);
    forall g | g in accepted && g != latest.generation
      ensures g < latest.generation && forall m :: !Between(reg, CertId(latest.agent, g), m, latest)
    {
      var id := CertId(latest.agent, g);
      assert Accepts(reg, id, now, false);
      assert reg.certs[id].state.Active? ==> EverActivated(reg, id);
      assert !reg.certs[id].state.Active?;
      AcceptedRetired(reg, latest, id, now);
    }
    var others := accepted - {latest.generation};
    forall g, h | g in others && h in others ensures g == h {
      assert EverActivated(reg, CertId(latest.agent, g)) && EverActivated(reg, CertId(latest.agent, h));
      assert g < h ==> Between(reg, CertId(latest.agent, g), CertId(latest.agent, h), latest);
      assert h < g ==> Between(reg, CertId(latest.agent, h), CertId(latest.agent, g), latest);
    }
    AtMostOne(others);
    assert accepted <= others + {latest.generation};
    SubsetCard(accepted, others + {latest.generation});
  }

  lemma AtMostOne(s: set<nat>)
    requires forall g, h :: g in s && h in s ==> g == h
    ensures |s| <= 1
  {
    if |s| > 0 {
      var g :| g in s;
      assert s == {g};
    }
  }

  /** A retired certificate is accepted for at most the maximal overlap after
      its retirement, and never past its own expiry. */
  lemma RetiredExpires(states: seq<Registry>, ops: seq<Op>, k: nat, id: CertId, now: Time)
    requires IsRun(states, ops) && k <= |ops| && id in states[k].certs && states[k].certs[id].state.Retired?
    ensures Accepts(states[k], id, now, true) ==>
              && states[k].certs[id].retiredAt.Some?
              && now < states[k].certs[id].retiredAt.value + MAX_ROTATION_OVERLAP
              && now < states[k].certs[id].notAfter
  {
    AlwaysOk(states, ops, k);
  }

  // ------------------------------------------------------------ revocation

  lemma RevokedStep(states: seq<Registry>, ops: seq<Op>, k: nat, id: CertId)
    requires IsRun(states, ops) && k < |ops| && id in states[k].certs && states[k].certs[id].state.Revoked?
    ensures id in states[k + 1].certs && states[k + 1].certs[id].state.Revoked?
    ensures states[k + 1].certs[id].serial == states[k].certs[id].serial
    ensures states[k + 1].certs[id].fingerprint == states[k].certs[id].fingerprint
  {
    AlwaysOk(states, ops, k);
    CertChange(states[k], ops[k], id);
    assert StepAt(states, ops, k);
  }

  lemma {:induction false} RevokedForEver(states: seq<Registry>, ops: seq<Op>, i: nat, k: nat, id: CertId)
    requires IsRun(states, ops) && i <= k <= |ops|
    requires id in states[i].certs && states[i].certs[id].state.Revoked?
    ensures id in states[k].certs && states[k].certs[id].state.Revoked?
    ensures states[k].certs[id].serial == states[i].certs[id].serial
    ensures states[k].certs[id].fingerprint == states[i].certs[id].fingerprint
    decreases k
  {
    if i < k {
      RevokedForEver(states, ops, i, k - 1, id);
      RevokedStep(states, ops, k - 1, id);
    }
  }

  lemma {:induction false} BindingForEver(states: seq<Registry>, ops: seq<Op>, i: nat, k: nat, a: AgentId)
    requires IsRun(states, ops) && i <= k <= |ops| && a in states[i].identities
    ensures a in states[k].identities
    ensures var x, y := states[i].identities[a], states[k].identities[a];
            x.target == y.target && x.host == y.host && x.scopes == y.scopes && (x.revoked ==> y.revoked)
    decreases k
  {
    if i < k {
      BindingForEver(states, ops, i, k - 1, a);
      assert StepAt(states, ops, k - 1);
      IdentityChange(states[k - 1], ops[k - 1], a);
    }
  }

  /** Whoever presents the fingerprint or the serial of a revoked certificate is
      never accepted again, even as a staged peer and at any clock reading. */
  lemma RevocationIsPermanent(states: seq<Registry>, ops: seq<Op>, i: nat, k: nat, revoked: CertId, presented: CertId, now: Time)
    requires IsRun(states, ops) && i <= k <= |ops|
    requires revoked in states[i].certs && states[i].certs[revoked].state.Revoked?
    requires || Names(states[k], presented, Some(states[i].certs[revoked].fingerprint), None)
             || Names(states[k], presented, None, Some(states[i].certs[revoked].serial))
    ensures presented == revoked && !Accepts(states[k], presented, now, true)
  {
    RevokedForEver(states, ops, i, k, revoked);
    AlwaysOk(states, ops, k);
  }

  lemma RevokedIdentityIsPermanent(states: seq<Registry>, ops: seq<Op>, i: nat, k: nat, a: AgentId, id: CertId, now: Time)
    requires IsRun(states, ops) && i <= k <= |ops| && a in states[i].identities && states[i].identities[a].revoked
    requires id.agent == a
    ensures !Accepts(states[k], id, now, true)
    ensures id in states[k].certs ==> states[k].certs[id].state.Revoked?
  {
    BindingForEver(states, ops, i, k, a);
    AlwaysOk(states, ops, k);
  }

  /** An accepted certificate resolves to the target, host and scopes its
      identity was created with, and to no other identity's. */
  lemma AcceptedBinding(states: seq<Registry>, ops: seq<Op>, i: nat, k: nat, id: CertId, now: Time, other: AgentId)
    requires IsRun(states, ops) && i < k <= |ops| && Accepts(states[k], id, now, true)
    requires ops[i].GetOrCreate? && Creates(states[i], ops[i]) && NewAgent(ops[i]) == id.agent
    ensures var x := states[k].identities[id.agent];
            && x.target == ops[i].target && x.host == ops[i].host && x.scopes == ops[i].scopes
            && (other in states[k].identities && other != id.agent ==>
                  states[k].identities[other].target != x.target && states[k].identities[other].host != x.host)
  {
    assert StepAt(states, ops, i);
    IdentityChange(states[i], ops[i], id.agent);
    BindingForEver(states, ops, i + 1, k, id.agent);
    AlwaysOk(states, ops, k);
  }

  // ------------------------------------------------------ idempotency keys

  predicate Releases(op: Op, id: CertId) {
    || (op.Abort? && op.agent == id.agent && op.generation == id.generation)
    || (op.RevokeCertificates? && op.agent == id.agent)
  }

  lemma KeyStep(reg: Registry, op: Op, id: CertId, key: Key)
    requires RegistryOk(reg) && KeyAt(reg, id, id.agent, key) && !Releases(op, id)
    ensures KeyAt(Apply(reg, op), id, id.agent, key)
  {
    CertChange(reg, op, id);
  }

  lemma {:induction false} KeyKept(states: seq<Registry>, ops: seq<Op>, i: nat, k: nat, id: CertId, key: Key)
    requires IsRun(states, ops) && i <= k <= |ops| && KeyAt(states[i], id, id.agent, key)
    requires forall m :: i <= m < k ==> !Releases(ops[m], id)
    ensures KeyAt(states[k], id, id.agent, key)
    decreases k
  {
    if i < k {
      KeyKept(states, ops, i, k - 1, id, key);
      AlwaysOk(states, ops, k - 1);
      assert StepAt(states, ops, k - 1);
      KeyStep(states[k - 1], ops[k - 1], id, key);
    }
  }

  /** A key names one generation, the same one until that generation is aborted
      or all certificates of the agent are revoked. */
  lemma KeyResolvesUntilReleased(states: seq<Registry>, ops: seq<Op>, i: nat, k: nat, id: CertId, key: Key, other: CertId)
    requires IsRun(states, ops) && i <= k <= |ops| && KeyAt(states[i], id, id.agent, key)
    requires forall m :: i <= m < k ==> !Releases(ops[m], id)
    ensures KeyAt(states[k], other, id.agent, key) <==> other == id
  {
    KeyKept(states, ops, i, k, id, key);
    AlwaysOk(states, ops, k);
  }
}
