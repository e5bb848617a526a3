/** The registry as the object callers use: two tables updated in place, one
    method per transaction.  Each method commits exactly `Apply` of its call, so
    `RegistryKept` carries `Valid` from one call to the next. */
module IdentityStore {
  import opened Basics
  import opened IdentityModel
  import opened IdentityInvariants

  class AgentIdentityRepository {
    var identities: map<AgentId, Identity>
    var certs: map<CertId, Cert>

    ghost function View(): Registry
      reads this
    {
      Registry(identities, certs)
    }

    ghost predicate Valid()
      reads this
    {
      RegistryOk(View())
    }

    constructor ()
      ensures Valid() && View() == EMPTY
    {
      identities, certs := map[], map[];
    }

    method FindTarget(target: TargetId) returns (r: Option<AgentId>)
      ensures r.Some? ==> BoundTo(View(), r.value, target)
      ensures r.None? ==> !TargetKnown(View(), target)
    {
      var todo := identities.Keys;
      while todo != {}
        invariant todo <= identities.Keys
        invariant forall a :: a in identities && a !in todo ==> identities[a].target != target
      {
        SomeMember(todo);
        var a :| a in todo;
        if identities[a].target == target { return Some(a); }
        todo := todo - {a};
      }
      return None;
    }

    /** Returns the stable binding of a target, creating it exactly once and
        never rebinding it. */
    method GetOrCreate(target: TargetId, host: HostId, scopes: set<Scope>, requested: Option<AgentId>, generated: AgentId)
      returns (r: Reply<AgentId>)
      requires Valid()
      modifies this
      ensures View() == Apply(old(View()), Op.GetOrCreate(target, host, scopes, requested, generated))
      ensures r.Done? ==> r.value in identities && identities[r.value].target == target && identities[r.value].host == host
                          && identities[r.value].scopes == scopes && (requested.Some? ==> r.value == requested.value)
      ensures r.Done? <==> Creates(old(View()), Op.GetOrCreate(target, host, scopes, requested, generated))
                           || exists a :: SameBinding(old(View()), a, target, host, scopes, requested)
    {
      ghost var before := View();
      ghost var op := Op.GetOrCreate(target, host, scopes, requested, generated);
      if scopes == {} {
        NoEmptyBinding(View(), op);
        return Invalid;
      }
      var found := FindTarget(target);
      if found.Some? {
        KnownTarget(View(), op, found.value);
        var row := identities[found.value];
        if row.host != host || row.scopes != scopes || (requested.Some? && requested.value != found.value) { return Conflict; }
        assert SameBinding(before, found.value, target, host, scopes, requested);
        return Done(found.value);
      }
      UnknownTarget(View(), op);
      var agent := if requested.Some? then requested.value else generated;
      if agent in identities || exists a :: a in identities && (identities[a].target == target || identities[a].host == host) {
        return Conflict;
      }
      identities := identities[agent := Identity(target, host, scopes, false, 0)];
      return Done(agent);
    }

    method FindKey(agent: AgentId, key: Option<Key>) returns (r: Option<CertId>)
      ensures r.Some? ==> key.Some? && KeyAt(View(), r.value, agent, key.value)
      ensures r.None? ==> !Keyed(View(), agent, key)
    {
      if key.None? { return None; }
      var todo := certs.Keys;
      while todo != {}
        invariant todo <= certs.Keys
        invariant forall id :: id in certs && id !in todo ==> !KeyAt(View(), id, agent, key.value)
      {
        var id :| id in todo;
        if id.agent == agent && certs[id].key == key { return Some(id); }
        todo := todo - {id};
      }
      return None;
    }

    method Stage(agent: AgentId, generation: nat, serial: int, fingerprint: int, notBefore: Time, notAfter: Time, key: Option<Key>)
      returns (r: Reply<bool>)
      modifies this
      ensures View() == Apply(old(View()), Op.Stage(agent, generation, serial, fingerprint, notBefore, notAfter, key))
      ensures r == Done(true) <==> Stages(old(View()), Op.Stage(agent, generation, serial, fingerprint, notBefore, notAfter, key))
      ensures r == Done(false) <==> notBefore < notAfter && agent in old(identities) && !old(identities)[agent].revoked
                                    && Keyed(old(View()), agent, key)
    {
      if notAfter <= notBefore { return Invalid; }
      if agent !in identities { return NotFound; }
      if identities[agent].revoked { return Conflict; }
      var replay := FindKey(agent, key);
      if replay.Some? {
        assert Keyed(View(), agent, key);
        return Done(false);
      }
      if exists id :: id in certs && id.agent == agent && certs[id].state.Staged? { return Conflict; }
      if generation != identities[agent].generation + 1 { return Conflict; }
      if exists id :: id in certs && (certs[id].serial == serial || certs[id].fingerprint == fingerprint) { return Conflict; }
      certs := certs[CertId(agent, generation) := Cert(serial, fingerprint, Staged, key, notBefore, notAfter, None, None, None, None)];
      identities := identities[agent := identities[agent].(generation := generation)];
      return Done(true);
    }

    /** Activates a staged generation: closes older overlaps, retires the active
        one with a bounded overlap, then switches over. */
    method Activate(agent: AgentId, generation: nat, overlap: int, now: Time) returns (r: Reply<()>)
      modifies this
      ensures View() == Apply(old(View()), Op.Activate(agent, generation, overlap, now))
      ensures r.Done? <==> Activates(old(View()), Op.Activate(agent, generation, overlap, now))
                           || (0 <= overlap <= MAX_ROTATION_OVERLAP && agent in old(identities) && !old(identities)[agent].revoked
                               && CertId(agent, generation) in old(certs) && old(certs)[CertId(agent, generation)].state.Active?)
    {
      ghost var before := View();
      ghost var op := Op.Activate(agent, generation, overlap, now);
      var id := CertId(agent, generation);
      if overlap < 0 || MAX_ROTATION_OVERLAP < overlap { return Invalid; }
      if agent !in identities { return NotFound; }
      if identities[agent].revoked { return Conflict; }
      if id !in certs { return NotFound; }
      if certs[id].state.Active? { return Done(()); }
      if !certs[id].state.Staged? { return Conflict; }
      if certs[id].notAfter <= now { return Conflict; }
      certs := map k | k in certs ::
        if k.agent == agent && certs[k].state.Retired? && certs[k].overlapUntil.Some? && now < certs[k].overlapUntil.value
        then certs[k].(overlapUntil := Some(now)) else certs[k];
      certs := map k | k in certs ::
        if k.agent == agent && certs[k].state.Active?
        then certs[k].(state := Retired, retiredAt := Some(now), overlapUntil := Some(Min(certs[k].notAfter, now + overlap)))
        else certs[k];
      certs := certs[id := certs[id].(state := Active, activatedAt := Some(now), retiredAt := None, overlapUntil := None)];
      assert certs == Apply(before, op).certs;
      return Done(());
    }

    method AbortStaged(agent: AgentId, generation: nat, now: Time) returns (r: Reply<()>)
      modifies this`certs
      ensures View() == Apply(old(View()), Op.Abort(agent, generation, now))
      ensures r.Done? <==> agent in identities && CertId(agent, generation) in certs
                           && certs[CertId(agent, generation)].state.Revoked?
    {
      var id := CertId(agent, generation);
      if agent !in identities || id !in certs { return NotFound; }
      if certs[id].state.Revoked? { return Done(()); }
      if !certs[id].state.Staged? { return Conflict; }
      certs := certs[id := RevokedCert(certs[id], now, true)];
      return Done(());
    }

    method Revoke(agent: AgentId, generation: Option<nat>, now: Time) returns (r: Reply<()>)
      modifies this
      ensures View() == Apply(old(View()), if generation.Some? then Op.RevokeOne(agent, generation.value, now) else Op.RevokeAgent(agent, now))
      ensures r.Done? <==> agent in identities && (generation.Some? ==> CertId(agent, generation.value) in certs)
      ensures r.Done? && generation.None? ==> identities[agent].revoked
      ensures r.Done? && generation.Some? ==> certs[CertId(agent, generation.value)].state.Revoked?
    {
      if agent !in identities { return NotFound; }
      if generation.None? {
        if identities[agent].revoked { return Done(()); }
        identities := identities[agent := identities[agent].(revoked := true)];
        certs := map k | k in certs ::
          if k.agent == agent && !certs[k].state.Revoked? then RevokedCert(certs[k], now, false) else certs[k];
        return Done(());
      }
      var id := CertId(agent, generation.value);
      if id !in certs { return NotFound; }
      if !certs[id].state.Revoked? {
        certs := certs[id := RevokedCert(certs[id], now, false)];
      }
      return Done(());
    }

    method RevokeCertificates(agent: AgentId, now: Time) returns (r: Reply<()>)
      modifies this`certs
      ensures View() == Apply(old(View()), Op.RevokeCertificates(agent, now))
      ensures r.Done? <==> agent in identities
      ensures r.Done? ==> forall id :: id in certs && id.agent == agent ==> certs[id].state.Revoked?
    {
      if agent !in identities { return NotFound; }
      certs := map k | k in certs ::
        if k.agent == agent && !certs[k].state.Revoked? then RevokedCert(certs[k], now, true) else certs[k];
      return Done(());
    }

    /** Resolves transport-attested metadata to a principal; the answer is the
        one named certificate if it is acceptable now, and nothing otherwise. */
    method Verify(fingerprint: Option<int>, serial: Option<int>, now: Time, allowStaged: bool)
      returns (r: Reply<Option<Principal>>)
      requires Valid()
      ensures r == Invalid <==> fingerprint.None? && serial.None?
      ensures r != Invalid ==> r.Done?
      ensures r.Done? && r.value.Some? ==>
                var p := r.value.value;
                && Names(View(), p.id, fingerprint, serial) && Accepts(View(), p.id, now, allowStaged)
                && var i := identities[p.id.agent];
                && p.target == i.target && p.host == i.host && p.scopes == i.scopes
      ensures r.Done? && r.value.None? ==>
                forall id :: Names(View(), id, fingerprint, serial) ==> !Accepts(View(), id, now, allowStaged)
    {
      if fingerprint.None? && serial.None? { return Invalid; }
      var todo := certs.Keys;
      while todo != {}
        invariant todo <= certs.Keys
        invariant forall id :: id in certs && id !in todo ==> !Names(View(), id, fingerprint, serial)
      {
        var id :| id in todo;
        var c := certs[id];
        if (fingerprint.Some? ==> c.fingerprint == fingerprint.value) && (serial.Some? ==> c.serial == serial.value) {
          assert forall other :: Names(View(), other, fingerprint, serial) ==> other == id;
          var i := identities[id.agent];
          if i.revoked || now < c.notBefore || c.notAfter <= now { return Done(None); }
          var accepted := c.state.Active?
                          || (c.state.Retired? && c.overlapUntil.Some? && now < c.overlapUntil.value)
                          || (c.state.Staged? && allowStaged);
          if !accepted { return Done(None); }
          return Done(Some(Principal(id, i.target, i.host, i.scopes)));
        }
        todo := todo - {id};
      }
      return Done(None);
    }
  }

  lemma NoEmptyBinding(reg: Registry, op: Op)
    requires op.GetOrCreate? && op.scopes == {}
    ensures forall a :: !SameBinding(reg, a, op.target, op.host, op.scopes, op.requested)
  {}

  lemma KnownTarget(reg: Registry, op: Op, a: AgentId)
    requires RegistryOk(reg) && op.GetOrCreate? && BoundTo(reg, a, op.target)
    ensures !Creates(reg, op) && TargetKnown(reg, op.target)
    ensures forall b :: BoundTo(reg, b, op.target) ==> b == a
  {}

  lemma UnknownTarget(reg: Registry, op: Op)
    requires op.GetOrCreate? && !TargetKnown(reg, op.target)
    ensures forall a :: !SameBinding(reg, a, op.target, op.host, op.scopes, op.requested)
  {}
}
