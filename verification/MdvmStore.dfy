/** `MdvmSyncState`: the tables and the sync row, changed in place. */
module MdvmStore {
  import opened Basics
  import opened MdvmModel

  /** Every active record belongs to a device that has a row of its own. */
  ghost predicate Anchored(t: Tables) {
    forall k :: k in t.findings ==> t.findings[k].device in t.devices
  }

  lemma {:induction false} PutAllDevices(t: Tables, q: seq<Change>)
    ensures Anchored(t) ==> Anchored(PutAll(t, q))
    ensures PutAll(t, q).devices.Keys == t.devices.Keys + DevicesOf(q)
  {
    if q != [] {
      var rest, c := q[..|q| - 1], q[|q| - 1];
      PutAllDevices(t, rest);
      assert q == rest + [c];
      assert DevicesOf(q) == DevicesOf(rest) + {c.device};
    }
  }

  /** A device's observation is the newest of what it had and what the batch
      says of it, in whatever order that comes. */
  lemma {:induction false} ObservationIsNewest(t: Tables, q: seq<Change>, d: Device)
    requires d in PutAll(t, q).devices
    ensures var seen := PutAll(t, q).devices[d].observedAt;
            && (d in t.devices ==> t.devices[d].observedAt <= seen)
            && (forall c :: c in q && c.device == d ==> c.at <= seen)
            && ((d in t.devices && t.devices[d].observedAt == seen) || exists c :: c in q && c.device == d && c.at == seen)
  {
    if q != [] {
      var rest, c := q[..|q| - 1], q[|q| - 1];
      assert q == rest + [c];
      assert c in q && forall x :: x in rest ==> x in q;
      if d in PutAll(t, rest).devices {
        ObservationIsNewest(t, rest, d);
      } else {
        PutAllDevices(t, rest);
        assert forall x :: x in rest ==> x.device in DevicesOf(rest);
      }
    }
  }

  lemma PrefixStep(t: Tables, q: seq<Change>, i: nat)
    requires i < |q|
    ensures PutAll(t, q[..i + 1]) == Put(PutAll(t, q[..i]), q[i])
  {
    assert q[..i + 1][..i] == q[..i];
  }

  class MdvmSyncState {
    const limits: Limits
    var findings: map<Key, Row>
    var devices: map<Device, DeviceRow>
    var lease: Option<Lease>
    var watermark: Option<Time>
    var lastBaseline: Option<Time>

    ghost function View(): Store
      reads this
    {
      Store(Tables(findings, devices), lease, watermark, lastBaseline)
    }

    /** The invariant that keeps every active record in some device's snapshot. */
    ghost predicate Valid()
      reads this
    {
      Anchored(View().tables)
    }

    constructor (limits: Limits)
      ensures Valid() && this.limits == limits
      ensures View() == Store(EMPTY, None, None, None)
    {
      this.limits := limits;
      findings, devices, lease, watermark, lastBaseline := map[], map[], None, None, None;
    }

    method TakeLease(owner: Owner, now: Time, duration: Time) returns (acquired: bool)
      requires Valid()
      modifies this`lease
      ensures Valid() && View() == Acquire(old(View()), owner, now, duration)
      ensures acquired <==> Acquirable(old(View()), owner, now)
      ensures acquired ==> OwnedBy(View(), owner)
      ensures !acquired ==> View() == old(View()) && !OwnedBy(View(), owner)
    {
      acquired := lease.None? || lease.value.until <= now || lease.value.owner == owner;
      if acquired { lease := Some(Lease(owner, now + duration)); }
    }

    /** One row of a batch. */
    method Write(c: Change)
      modifies this`findings, this`devices
      ensures Tables(findings, devices) == Put(old(Tables(findings, devices)), c)
    {
      var seen := if c.device in devices then Max(devices[c.device].observedAt, c.at) else c.at;
      devices := devices[c.device := DeviceRow(c.profile, seen)];
      if c.action.Fixed? {
        findings := findings - {c.key};
      } else {
        findings := findings[c.key := Row(c.device, c.payload)];
      }
    }

    /** The rows of a batch in order; a set over capacity is rolled back. */
    method WriteAll(q: seq<Change>, before: Tables) returns (out: Outcome)
      modifies this`findings, this`devices
      ensures out == Checked(PutAll(old(Tables(findings, devices)), q), limits)
      ensures Tables(findings, devices) == if out.Committed? then out.tables else before
    {
      ghost var t := Tables(findings, devices);
      var i := 0;
      while i < |q|
        invariant 0 <= i <= |q| && Tables(findings, devices) == PutAll(t, q[..i])
      {
        Write(q[i]);
        PrefixStep(t, q, i);
        i := i + 1;
      }
      assert q[..i] == q;
      out := Checked(Tables(findings, devices), limits);
      if !out.Committed? {
        findings, devices := before.findings, before.devices;
      }
    }

    method ReplaceBaseline(owner: Owner, q: seq<Change>) returns (out: Outcome, affected: set<Device>)
      requires Valid()
      modifies this`findings, this`devices
      ensures Valid() && out == Baseline(old(View()), owner, q, limits)
      ensures View() == Settle(old(View()), out)
      ensures out.Committed? ==> affected == DevicesOf(q) == devices.Keys
    {
      affected := DevicesOf(q);
      if lease.None? || lease.value.owner != owner { return LeaseLost, affected; }
      var before := Tables(findings, devices);
      findings, devices := map[], map[];
      var rows := AsUpserts(q);
      out := WriteAll(rows, before);
      PutAllDevices(EMPTY, rows);
      forall d ensures d in DevicesOf(rows) <==> d in DevicesOf(q) {
        SameDevices(q, d);
      }
    }

    /** The ambiguity test of a delta: a dictionary from record and time to action. */
    method FindsClash(q: seq<Change>) returns (clash: bool)
      ensures clash <==> Ambiguous(q)
    {
      var actions: map<(Key, Time), Action> := map[];
      for i := 0 to |q|
        invariant forall j :: 0 <= j < i ==> (q[j].key, q[j].at) in actions && actions[(q[j].key, q[j].at)] == q[j].action
        invariant forall x :: x in actions ==> exists j :: 0 <= j < i && q[j].key == x.0 && q[j].at == x.1
      {
        var key := (q[i].key, q[i].at);
        if key in actions && actions[key] != q[i].action {
          ghost var j :| 0 <= j < i && q[j].key == key.0 && q[j].at == key.1;
          assert Clash(q[j], q[i]);
          return true;
        }
        actions := actions[key := q[i].action];
      }
      return false;
    }

    method ApplyDelta(owner: Owner, q: seq<Change>) returns (out: Outcome, affected: set<Device>)
      requires Valid()
      modifies this`findings, this`devices
      ensures Valid() && out == Delta(old(View()), owner, q, limits)
      ensures View() == Settle(old(View()), out)
      ensures out.Committed? ==> affected == DevicesOf(q) && affected <= devices.Keys
    {
      affected := DevicesOf(q);
      var clash := FindsClash(q);
      if clash { return AmbiguousBatch, affected; }
      if lease.None? || lease.value.owner != owner { return LeaseLost, affected; }
      var before := Tables(findings, devices);
      var rows := Ordered(q);
      out := WriteAll(rows, before);
      PutAllDevices(before, rows);
      OrderedMembers(q);
      assert DevicesOf(rows) == DevicesOf(q);
    }

    method Succeed(owner: Owner, started: Time, baseline: bool) returns (ok: bool)
      requires Valid()
      modifies this`lease, this`watermark, this`lastBaseline
      ensures Valid() && View() == Success(old(View()), owner, started, baseline)
      ensures ok <==> OwnedBy(old(View()), owner)
      ensures ok ==> View().lease.None? && View().watermark == Some(started)
    {
      ok := lease.Some? && lease.value.owner == owner;
      if ok {
        watermark, lease := Some(started), None;
        if baseline { lastBaseline := Some(started); }
      }
    }

    method Fail(owner: Owner)
      requires Valid()
      modifies this`lease
      ensures Valid() && View() == Failure(old(View()), owner)
      ensures View().watermark == old(View()).watermark && !OwnedBy(View(), owner)
    {
      if lease.Some? && lease.value.owner == owner { lease := None; }
    }
  }

  lemma SameDevices(q: seq<Change>, d: Device)
    ensures d in DevicesOf(AsUpserts(q)) <==> d in DevicesOf(q)
  {
    var r := AsUpserts(q);
    if d in DevicesOf(q) {
      var c :| c in q && c.device == d;
      var i :| 0 <= i < |q| && q[i] == c;
      assert r[i] in r;
    }
    if d in DevicesOf(r) {
      var c :| c in r && c.device == d;
      var i :| 0 <= i < |r| && r[i] == c;
      assert q[i] in q;
    }
  }
}
