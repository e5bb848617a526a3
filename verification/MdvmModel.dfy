/** The materialised MDVM set (form/src/kcatta_form/mdvm.py): the tables, the
    sync row with its lease and watermark, and each transaction on them. */
module MdvmModel {
  import opened Basics

  /** Record keys, device ids and lease owners, compared only for equality. */
  type Key = int
  type Device = int
  type Owner = int

  datatype Action = Upsert | Fixed

  /** One normalised record: `profile` stands for the device's name and platform
      columns, `payload` for the stored finding. */
  datatype Change = Change(key: Key, action: Action, device: Device, profile: int, at: Time, payload: int)

  datatype Row = Row(device: Device, payload: int)

  datatype DeviceRow = DeviceRow(profile: int, observedAt: Time)

  datatype Tables = Tables(findings: map<Key, Row>, devices: map<Device, DeviceRow>)

  datatype Lease = Lease(owner: Owner, until: Time)

  datatype Store = Store(
    tables: Tables, lease: Option<Lease>, watermark: Option<Time>, lastBaseline: Option<Time>)

  /** The configured capacity; `bytes` measures the stored payloads. */
  datatype Limits = Limits(maxFindings: nat, maxBytes: nat, bytes: map<Key, Row> -> nat)

  datatype Outcome = Committed(tables: Tables) | AmbiguousBatch | LeaseLost | TooLarge

  const EMPTY := Tables(map[], map[])

  // ----- Rows -----

  /** The upsert of a device row, which never moves its observation back. */
  function PutDevice(devices: map<Device, DeviceRow>, c: Change): map<Device, DeviceRow> {
    var seen := if c.device in devices then Max(devices[c.device].observedAt, c.at) else c.at;
    devices[c.device := DeviceRow(c.profile, seen)]
  }

  function Put(t: Tables, c: Change): Tables {
    Tables(
      if c.action.Fixed? then t.findings - {c.key} else t.findings[c.key := Row(c.device, c.payload)],
      PutDevice(t.devices, c))
  }

  function PutAll(t: Tables, q: seq<Change>): Tables {
    if q == [] then t else Put(PutAll(t, q[..|q| - 1]), q[|q| - 1])
  }

  /** A baseline inserts every record whatever its status. */
  function AsUpserts(q: seq<Change>): seq<Change> {
    seq(|q|, i requires 0 <= i < |q| => q[i].(action := Upsert))
  }

  function DevicesOf(q: seq<Change>): set<Device> {
    set c | c in q :: c.device
  }

  // ----- The order of a delta batch -----

  /** The sort key of a delta: event time, and at one time upserts before fixes. */
  predicate NotAfter(a: Change, b: Change) {
    a.at < b.at || (a.at == b.at && (a.action.Upsert? || b.action.Fixed?))
  }

  predicate SortedBatch(q: seq<Change>) {
    forall i, j :: 0 <= i < j < |q| ==> NotAfter(q[i], q[j])
  }

  lemma SortedSnoc(q: seq<Change>, c: Change)
    requires SortedBatch(q) && (forall x :: x in q ==> NotAfter(x, c))
    ensures SortedBatch(q + [c])
  {
    var r := q + [c];
    forall i, j | 0 <= i < j < |r| ensures NotAfter(r[i], r[j]) {
      assert j < |q| ==> NotAfter(q[i], q[j]);
      assert q[i] in q;
    }
  }

  /** A stable insertion: `c` goes behind everything it does not precede. */
  function Insert(q: seq<Change>, c: Change): (r: seq<Change>)
    ensures multiset(r) == multiset(q) + multiset{c}
  {
    if q == [] || NotAfter(q[|q| - 1], c) then q + [c]
    else
      assert q == q[..|q| - 1] + [q[|q| - 1]];
      Insert(q[..|q| - 1], c) + [q[|q| - 1]]
  }

  lemma {:induction false} InsertSorted(q: seq<Change>, c: Change)
    requires SortedBatch(q)
    ensures SortedBatch(Insert(q, c))
  {
    if q == [] || NotAfter(q[|q| - 1], c) {
      SortedSnoc(q, c);
    } else {
      var rest, z := q[..|q| - 1], q[|q| - 1];
      InsertSorted(rest, c);
      forall x | x in Insert(rest, c) ensures NotAfter(x, z) {
        assert x in multiset(Insert(rest, c));
        assert x in rest || x == c;
      }
      SortedSnoc(Insert(rest, c), z);
    }
  }

  /** Python's `sorted` with that key. */
  function Ordered(q: seq<Change>): (r: seq<Change>)
    ensures SortedBatch(r) && multiset(r) == multiset(q)
  {
    if q == [] then []
    else
      assert q == q[..|q| - 1] + [q[|q| - 1]];
      InsertSorted(Ordered(q[..|q| - 1]), q[|q| - 1]);
      Insert(Ordered(q[..|q| - 1]), q[|q| - 1])
  }

  lemma OrderedMembers(q: seq<Change>)
    ensures forall c :: c in Ordered(q) <==> c in q
  {
    forall c ensures c in Ordered(q) <==> c in q {
      assert c in multiset(Ordered(q)) <==> c in multiset(q);
    }
  }

  // ----- The transactions -----

  predicate Clash(c: Change, d: Change) {
    c.key == d.key && c.at == d.at && c.action != d.action
  }

  /** The batch both fixes and keeps one record at one time. */
  predicate Ambiguous(q: seq<Change>) {
    exists i, j :: 0 <= i < j < |q| && Clash(q[i], q[j])
  }

  predicate OwnedBy(s: Store, owner: Owner) {
    s.lease.Some? && s.lease.value.owner == owner
  }

  predicate Acquirable(s: Store, owner: Owner, now: Time) {
    s.lease.None? || s.lease.value.until <= now || s.lease.value.owner == owner
  }

  function Acquire(s: Store, owner: Owner, now: Time, duration: Time): Store {
    if Acquirable(s, owner, now) then s.(lease := Some(Lease(owner, now + duration))) else s
  }

  predicate Oversized(t: Tables, limits: Limits) {
    |t.findings| > limits.maxFindings || limits.bytes(t.findings) > limits.maxBytes
  }

  function Checked(t: Tables, limits: Limits): Outcome {
    if Oversized(t, limits) then TooLarge else Committed(t)
  }

  function Baseline(s: Store, owner: Owner, q: seq<Change>, limits: Limits): Outcome {
    if !OwnedBy(s, owner) then LeaseLost else Checked(PutAll(EMPTY, AsUpserts(q)), limits)
  }

  function Delta(s: Store, owner: Owner, q: seq<Change>, limits: Limits): Outcome {
    if Ambiguous(q) then AmbiguousBatch
    else if !OwnedBy(s, owner) then LeaseLost
    else Checked(PutAll(s.tables, Ordered(q)), limits)
  }

  /** A refused transaction is rolled back. */
  function Settle(s: Store, o: Outcome): Store {
    if o.Committed? then s.(tables := o.tables) else s
  }

  /** `success`: only the lease owner moves the watermark, and gives the lease up. */
  function Success(s: Store, owner: Owner, started: Time, baseline: bool): Store {
    if OwnedBy(s, owner) then
      s.(watermark := Some(started), lease := None,
         lastBaseline := if baseline then Some(started) else s.lastBaseline)
    else s
  }

  function Failure(s: Store, owner: Owner): Store {
    if OwnedBy(s, owner) then s.(lease := None) else s
  }

  const THIRTEEN_DAYS: Time := 13 * 86_400_000_000

  predicate BaselineDue(s: Store, started: Time, refresh: Time) {
    || s.watermark.None?
    || s.lastBaseline.None?
    || started - s.lastBaseline.value >= refresh
    || started - s.watermark.value >= THIRTEEN_DAYS
  }
}
