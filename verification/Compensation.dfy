/** Undoing a Guard deployment: revoke the one generation proven to be the
    job's, then tear the remote Guard down.  What the target store and the
    remote host answer is given. */
module Compensation {
  import opened Basics
  import opened IdentityModel
  import opened IdentityRuns
  import opened IdentityStore

  datatype Lookup = LookupRaises | TargetMissing | TargetFound

  datatype Teardown = TeardownRaises | StillAlive | Stopped

  datatype Problem =
    | ManifestNotProven
    | GenerationNotProven
    | RevocationFailed
    | LookupFailed
    | TargetGone
    | TeardownFailed

  /** The part of an execution's control record that compensation reads and sets. */
  class ExecutionControl {
    var manifest: Option<int>
    var agent: Option<AgentId>
    var generation: Option<nat>
    var cleanupPending: bool
    var compensated: bool

    constructor (manifest: Option<int>, agent: Option<AgentId>, generation: Option<nat>, cleanupPending: bool)
      ensures this.manifest == manifest && this.agent == agent && this.generation == generation
      ensures this.cleanupPending == cleanupPending && !compensated
    {
      this.manifest, this.agent, this.generation := manifest, agent, generation;
      this.cleanupPending, compensated := cleanupPending, false;
    }

    ghost function Proven(): Option<CertId>
      reads this
    {
      if agent.Some? && generation.Some? then Some(CertId(agent.value, generation.value)) else None
    }
  }

  /** The registry after compensation: at most the proven generation is revoked. */
  ghost function AfterRevocation(reg: Registry, manifest: Option<int>, proven: Option<CertId>, now: Time): Registry {
    if manifest.Some? && proven.Some? then Apply(reg, RevokeOne(proven.value.agent, proven.value.generation, now)) else reg
  }

  /** Whether the revocation step lets compensation go on. */
  ghost predicate Revocable(reg: Registry, proven: Option<CertId>) {
    proven.Some? && proven.value.agent in reg.identities && proven.value in reg.certs
  }

  /** A Guard counts as compensated exactly when its manifest and generation are
      proven, that generation is revoked, and the remote Guard is confirmed
      stopped; whatever fails, no other certificate is touched and the flags
      stay, so the attempt can be repeated. */
  method Compensate(
    guard: bool, control: ExecutionControl, registry: AgentIdentityRepository?,
    lookup: Lookup, teardown: Teardown, now: Time)
    returns (problem: Option<Problem>)
    modifies control`cleanupPending, control`compensated, registry
    ensures problem.None? && guard ==> control.compensated && !control.cleanupPending
    ensures problem.Some? || !guard ==>
              control.compensated == old(control.compensated) && control.cleanupPending == old(control.cleanupPending)
    ensures problem.None? <==>
              || !guard
              || (&& control.manifest.Some? && lookup.TargetFound? && teardown.Stopped?
                  && (registry != null ==> Revocable(old(registry.View()), control.Proven())))
    ensures registry != null ==>
              registry.View() == if guard then AfterRevocation(old(registry.View()), control.manifest, control.Proven(), now)
                                 else old(registry.View())
    ensures problem.None? && guard && registry != null ==> registry.View().certs[control.Proven().value].state.Revoked?
  {
    if !guard { return None; }
    if control.manifest.None? { return Some(ManifestNotProven); }
    if registry != null {
      if control.agent.None? || control.generation.None? { return Some(GenerationNotProven); }
      var r := registry.Revoke(control.agent.value, control.generation, now);
      if !r.Done? { return Some(RevocationFailed); }
    }
    match lookup {
      case LookupRaises => return Some(LookupFailed);
      case TargetMissing => return Some(TargetGone);
      case TargetFound =>
        if !teardown.Stopped? { return Some(TeardownFailed); }
        control.cleanupPending, control.compensated := false, true;
        return None;
    }
  }

  /** A compensated generation is never accepted again, however the registry
      goes on, and compensation disables no other deployment. */
  lemma CompensationIsPermanent(states: seq<Registry>, ops: seq<Op>, i: nat, k: nat, proven: CertId, other: CertId, at: Time, now: Time)
    requires IsRun(states, ops) && i < k <= |ops| && Revocable(states[i], Some(proven))
    requires ops[i] == RevokeOne(proven.agent, proven.generation, at) && other != proven
    ensures !Accepts(states[k], proven, now, true)
    ensures other in states[i].certs <==> other in states[i + 1].certs
    ensures Accepts(states[i + 1], other, now, true) <==> Accepts(states[i], other, now, true)
  {
    assert StepAt(states, ops, i);
    assert states[i + 1].certs[proven].state.Revoked?;
    RevokedForEver(states, ops, i + 1, k, proven);
  }
}
