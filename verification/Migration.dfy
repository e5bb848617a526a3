/** The offline copy of legacy targets and jobs into Form's append-only stores
    (form/src/kcatta_form/control_state_migration.py). */
module Migration {
  import opened Basics

  /** Record ids, compared only for equality. */
  type Id = int

  // ----- Last append wins -----

  predicate Has<T>(s: seq<T>, id: T -> Id, x: Id) {
    exists i :: 0 <= i < |s| && id(s[i]) == x
  }

  predicate Distinct<T>(s: seq<T>, id: T -> Id) {
    forall i, j :: 0 <= i < j < |s| ==> id(s[i]) != id(s[j])
  }

  /** The reference: the records without a later one of the same id. */
  function LastAppends<T>(s: seq<T>, id: T -> Id): seq<T> {
    if s == [] then []
    else (if Has(s[1..], id, id(s[0])) then [] else [s[0]]) + LastAppends(s[1..], id)
  }

  /** A dictionary in insertion order without one of its keys. */
  function Without<T>(s: seq<T>, id: T -> Id, x: Id): seq<T> {
    if s == [] then []
    else (if id(s[0]) == x then [] else [s[0]]) + Without(s[1..], id, x)
  }

  /** A later append takes its id away from the earlier ones. */
  lemma {:induction false} LastAppendsSnoc<T>(s: seq<T>, id: T -> Id, r: T)
    ensures LastAppends(s + [r], id) == Without(LastAppends(s, id), id, id(r)) + [r]
  {
    if s == [] {
      assert s + [r] == [r] && [r][1..] == [];
      assert LastAppends([r], id) == [r] + LastAppends([], id);
    } else {
      var tail := s[1..];
      LastAppendsSnoc(tail, id, r);
      assert (s + [r])[1..] == tail + [r];
      HasSnoc(tail, id, r, id(s[0]));
      var kept := LastAppends(s, id);
      if Has(tail, id, id(s[0])) {
        assert kept == LastAppends(tail, id);
      } else {
        assert kept == [s[0]] + LastAppends(tail, id);
        assert kept[1..] == LastAppends(tail, id);
      }
    }
  }

  lemma HasSnoc<T>(s: seq<T>, id: T -> Id, r: T, x: Id)
    ensures Has(s + [r], id, x) <==> Has(s, id, x) || id(r) == x
  {
    var t := s + [r];
    assert t[|s|] == r;
    if Has(s, id, x) {
      var i :| 0 <= i < |s| && id(s[i]) == x;
      assert t[i] == s[i];
    }
  }

  lemma HasCons<T>(s: seq<T>, id: T -> Id, x: Id)
    requires s != []
    ensures Has(s, id, x) <==> id(s[0]) == x || Has(s[1..], id, x)
  {
    if Has(s[1..], id, x) {
      var i :| 0 <= i < |s[1..]| && id(s[1..][i]) == x;
      assert id(s[i + 1]) == x;
    }
    if Has(s, id, x) && id(s[0]) != x {
      var i :| 0 <= i < |s| && id(s[i]) == x;
      assert id(s[1..][i - 1]) == x;
    }
  }

  lemma {:induction false} LastAppendsIds<T>(s: seq<T>, id: T -> Id)
    ensures forall x :: Has(LastAppends(s, id), id, x) <==> Has(s, id, x)
  {
    if s != [] {
      LastAppendsIds(s[1..], id);
      var kept := LastAppends(s, id);
      forall x ensures Has(kept, id, x) <==> Has(s, id, x) {
        HasCons(s, id, x);
        if Has(s[1..], id, id(s[0])) {
          assert kept == LastAppends(s[1..], id);
        } else {
          assert kept[1..] == LastAppends(s[1..], id);
          HasCons(kept, id, x);
        }
      }
    }
  }

  /** One record for each id of the source. */
  lemma {:induction false} LastAppendsDistinct<T>(s: seq<T>, id: T -> Id)
    ensures Distinct(LastAppends(s, id), id)
  {
    if s != [] {
      LastAppendsDistinct(s[1..], id);
      LastAppendsIds(s[1..], id);
      var kept, tail := LastAppends(s, id), LastAppends(s[1..], id);
      if !Has(s[1..], id, id(s[0])) {
        assert kept == [s[0]] + tail;
        forall i, j | 0 <= i < j < |kept| ensures id(kept[i]) != id(kept[j]) {
          assert kept[j] == tail[j - 1];
          assert !Has(tail, id, id(s[0]));
          assert i > 0 ==> kept[i] == tail[i - 1];
        }
      }
    }
  }

  predicate LastAt<T>(s: seq<T>, id: T -> Id, i: nat)
    requires i < |s|
  {
    forall j :: i < j < |s| ==> id(s[j]) != id(s[i])
  }

  /** A kept record is the last append of its id, and every last append is kept. */
  lemma {:induction false} LastAppendsAre<T(!new)>(s: seq<T>, id: T -> Id, r: T)
    ensures r in LastAppends(s, id) <==> exists i :: 0 <= i < |s| && s[i] == r && LastAt(s, id, i)
  {
    if s != [] {
      var tail := s[1..];
      LastAppendsAre(tail, id, r);
      forall i | 0 <= i < |tail| ensures LastAt(tail, id, i) <==> LastAt(s, id, i + 1) {
        assert forall j :: i + 1 < j < |s| ==> s[j] == tail[j - 1];
        assert forall j :: i < j < |tail| ==> tail[j] == s[j + 1];
      }
      assert LastAt(s, id, 0) <==> !Has(tail, id, id(s[0])) by {
        assert forall j :: 0 < j < |s| ==> s[j] == tail[j - 1];
        assert forall j :: 0 <= j < |tail| ==> tail[j] == s[j + 1];
      }
      if r in LastAppends(tail, id) {
        var i :| 0 <= i < |tail| && tail[i] == r && LastAt(tail, id, i);
        assert s[i + 1] == r && LastAt(s, id, i + 1);
      }
      if exists i :: 0 < i < |s| && s[i] == r && LastAt(s, id, i) {
        var i :| 0 < i < |s| && s[i] == r && LastAt(s, id, i);
        assert tail[i - 1] == r && LastAt(tail, id, i - 1);
      }
    }
  }

  datatype Validated<T> = Valid(records: seq<T>) | Invalid(index: nat)

  predicate AllParse<R, T>(raw: seq<R>, parse: R -> Option<T>) {
    forall i :: 0 <= i < |raw| ==> parse(raw[i]).Some?
  }

  function Parsed<R, T>(raw: seq<R>, parse: R -> Option<T>): (s: seq<T>)
    requires AllParse(raw, parse)
  {
    seq(|raw|, i requires 0 <= i < |raw| => parse(raw[i]).value)
  }

  lemma WithoutStep<T>(s: seq<T>, id: T -> Id, x: Id, i: nat)
    requires i < |s|
    ensures Without(s[i..], id, x) == (if id(s[i]) == x then [] else [s[i]]) + Without(s[i + 1..], id, x)
  {
    assert s[i..][1..] == s[i + 1..];
  }

  /** The dictionary key out and back in: pop, then insert at the end. */
  method Reinsert<T>(latest: seq<T>, id: T -> Id, r: T) returns (next: seq<T>)
    ensures next == Without(latest, id, id(r)) + [r]
  {
    var i := 0;
    next := [];
    while i < |latest|
      invariant 0 <= i <= |latest| && next + Without(latest[i..], id, id(r)) == Without(latest, id, id(r))
    {
      WithoutStep(latest, id, id(r), i);
      if id(latest[i]) != id(r) { next := next + [latest[i]]; }
      i := i + 1;
    }
    next := next + [r];
  }

  /** `_latest_valid_records`: refused at the first record that does not parse,
      and otherwise the last append of each id, in order of those appends. */
  method LatestValid<R, T>(raw: seq<R>, parse: R -> Option<T>, id: T -> Id) returns (v: Validated<T>)
    ensures v.Valid? <==> AllParse(raw, parse)
    ensures v.Valid? ==> v.records == LastAppends(Parsed(raw, parse), id)
    ensures v.Invalid? ==> v.index < |raw| && parse(raw[v.index]).None? && AllParse(raw[..v.index], parse)
  {
    var latest: seq<T> := [];
    for i := 0 to |raw|
      invariant AllParse(raw[..i], parse)
      invariant latest == LastAppends(Parsed(raw[..i], parse), id)
    {
      var r := parse(raw[i]);
      if r.None? { return Invalid(i); }
      latest := Reinsert(latest, id, r.value);
      LastAppendsSnoc(Parsed(raw[..i], parse), id, r.value);
      assert raw[..i + 1] == raw[..i] + [raw[i]];
      assert Parsed(raw[..i + 1], parse) == Parsed(raw[..i], parse) + [r.value];
    }
    assert raw[..|raw|] == raw;
    return Valid(latest);
  }

  // ----- Appending what is missing -----

  /** The records whose id the store does not hold. */
  function Missing<T>(log: seq<T>, s: seq<T>, id: T -> Id): seq<T> {
    if s == [] then []
    else (if Has(log, id, id(s[0])) then [] else [s[0]]) + Missing(log, s[1..], id)
  }

  /** An append of another id does not change what is missing. */
  lemma {:induction false} MissingAfterAppend<T>(log: seq<T>, s: seq<T>, id: T -> Id, r: T)
    requires !Has(s, id, id(r))
    ensures Missing(log + [r], s, id) == Missing(log, s, id)
  {
    if s != [] {
      HasCons(s, id, id(r));
      HasSnoc(log, id, r, id(s[0]));
      MissingAfterAppend(log, s[1..], id, r);
    }
  }

  lemma DistinctTail<T>(s: seq<T>, id: T -> Id)
    requires Distinct(s, id) && s != []
    ensures Distinct(s[1..], id) && !Has(s[1..], id, id(s[0]))
  {
    assert forall i :: 0 <= i < |s[1..]| ==> s[1..][i] == s[i + 1] && id(s[i + 1]) != id(s[0]);
  }

  lemma {:induction false} MissingIds<T>(log: seq<T>, s: seq<T>, id: T -> Id, x: Id)
    ensures Has(Missing(log, s, id), id, x) <==> Has(s, id, x) && !Has(log, id, x)
  {
    if s != [] {
      MissingIds(log, s[1..], id, x);
      HasCons(s, id, x);
      var rest := Missing(log, s, id);
      if Has(log, id, id(s[0])) {
        assert rest == Missing(log, s[1..], id);
      } else {
        assert rest[1..] == Missing(log, s[1..], id);
        HasCons(rest, id, x);
      }
    }
  }

  /** What is left of a copy that stops before its (`budget` + 1)-th append. */
  datatype Progress<T> = Progress(log: seq<T>, budget: nat)

  function CopySome<T>(log: seq<T>, s: seq<T>, id: T -> Id, budget: nat): Progress<T>
    decreases |s|
  {
    if s == [] then Progress(log, budget)
    else if Has(log, id, id(s[0])) then CopySome(log, s[1..], id, budget)
    else if budget == 0 then Progress(log, 0)
    else CopySome(log + [s[0]], s[1..], id, budget - 1)
  }

  /** An interrupted copy has appended the first so many missing records. */
  lemma {:induction false} CopySomeIs<T>(log: seq<T>, s: seq<T>, id: T -> Id, budget: nat)
    requires Distinct(s, id)
    ensures var m := Missing(log, s, id);
            var n: nat := Min(budget, |m|);
            CopySome(log, s, id, budget) == Progress(log + m[..n], budget - n)
    decreases |s|
  {
    if s != [] {
      DistinctTail(s, id);
      var m := Missing(log, s, id);
      if Has(log, id, id(s[0])) {
        CopySomeIs(log, s[1..], id, budget);
      } else if budget > 0 {
        MissingAfterAppend(log, s[1..], id, s[0]);
        CopySomeIs(log + [s[0]], s[1..], id, budget - 1);
        var n: nat := Min(budget, |m|);
        assert m[..n] == [s[0]] + Missing(log, s[1..], id)[..n - 1];
        assert log + [s[0]] + Missing(log, s[1..], id)[..n - 1] == log + m[..n];
      }
    }
  }

  lemma {:induction false} MissingDistinct<T>(log: seq<T>, s: seq<T>, id: T -> Id)
    requires Distinct(s, id)
    ensures Distinct(Missing(log, s, id), id)
  {
    if s != [] {
      DistinctTail(s, id);
      MissingDistinct(log, s[1..], id);
      var m, rest := Missing(log, s, id), Missing(log, s[1..], id);
      MissingIds(log, s[1..], id, id(s[0]));
      if !Has(log, id, id(s[0])) {
        assert m == [s[0]] + rest;
        forall i, j | 0 <= i < j < |m| ensures id(m[i]) != id(m[j]) {
          assert m[j] == rest[j - 1];
          assert i > 0 ==> m[i] == rest[i - 1];
        }
      }
    }
  }

  /** After the first `n` missing records are in, exactly the others are missing. */
  lemma {:induction false} MissingRest<T>(log: seq<T>, s: seq<T>, id: T -> Id, n: nat)
    requires Distinct(s, id) && n <= |Missing(log, s, id)|
    ensures Missing(log + Missing(log, s, id)[..n], s, id) == Missing(log, s, id)[n..]
    decreases |s|, n
  {
    var m := Missing(log, s, id);
    if n == 0 {
      assert log + m[..0] == log;
    } else {
      DistinctTail(s, id);
      var tail := Missing(log, s[1..], id);
      var now := log + m[..n];
      if Has(log, id, id(s[0])) {
        assert m == tail;
        MissingRest(log, s[1..], id, n);
        HasPrefix(log, m[..n], id, id(s[0]));
      } else {
        var next := log + [s[0]];
        MissingAfterAppend(log, s[1..], id, s[0]);
        MissingRest(next, s[1..], id, n - 1);
        assert m == [s[0]] + tail;
        assert now == next + tail[..n - 1];
        HasSnoc(log, id, s[0], id(s[0]));
        HasPrefix(next, tail[..n - 1], id, id(s[0]));
      }
    }
  }

  lemma HasPrefix<T>(a: seq<T>, b: seq<T>, id: T -> Id, x: Id)
    requires Has(a, id, x)
    ensures Has(a + b, id, x)
  {
    var i :| 0 <= i < |a| && id(a[i]) == x;
    assert (a + b)[i] == a[i];
  }

  /** A full copy. */
  function CopyAll<T>(log: seq<T>, s: seq<T>, id: T -> Id): seq<T> {
    log + Missing(log, s, id)
  }

  lemma Rejoin<T>(log: seq<T>, m: seq<T>, n: nat)
    requires n <= |m|
    ensures log + m[..n] + m[n..] == log + m
  {
    assert m[..n] + m[n..] == m;
  }

  /** A full copy onto the first `n` missing records. */
  lemma CopyOntoHalf<T>(log: seq<T>, s: seq<T>, id: T -> Id, n: nat)
    requires Distinct(s, id) && n <= |Missing(log, s, id)|
    ensures CopyAll(log + Missing(log, s, id)[..n], s, id) == CopyAll(log, s, id)
  {
    MissingRest(log, s, id, n);
    Rejoin(log, Missing(log, s, id), n);
  }

  /** Resuming an interrupted copy ends where an uninterrupted one does. */
  lemma ResumedCopy<T>(log: seq<T>, s: seq<T>, id: T -> Id, budget: nat)
    requires Distinct(s, id)
    ensures var half := CopySome(log, s, id, budget).log;
            && CopyAll(half, s, id) == CopyAll(log, s, id)
            && |Missing(half, s, id)| + (|half| - |log|) == |Missing(log, s, id)|
  {
    var n: nat := Min(budget, |Missing(log, s, id)|);
    CopySomeIs(log, s, id, budget);
    CopyOntoHalf(log, s, id, n);
    MissingRest(log, s, id, n);
  }

  /** A store that can only grow. */
  class RecordStore<T> {
    var log: seq<T>

    constructor (log: seq<T>)
      ensures this.log == log
    {
      this.log := log;
    }

    method Append(r: T)
      modifies this
      ensures log == old(log) + [r]
    {
      log := log + [r];
    }

    /** `find_one`: the newest record of an id. */
    method FindOne(id: T -> Id, x: Id) returns (found: Option<T>)
      ensures found.Some? <==> Has(log, id, x)
      ensures found.Some? ==> exists i :: 0 <= i < |log| && log[i] == found.value && id(log[i]) == x && LastAt(log, id, i)
    {
      var i := |log|;
      while i > 0
        invariant 0 <= i <= |log| && forall j :: i <= j < |log| ==> id(log[j]) != x
      {
        i := i - 1;
        if id(log[i]) == x {
          assert LastAt(log, id, i);
          return Some(log[i]);
        }
      }
      return None;
    }
  }

  ghost function Ids<T>(s: seq<T>, id: T -> Id): set<Id> {
    set r | r in s :: id(r)
  }

  /** `_append_missing`: existing ids win, everything else is appended in order,
      and every record is counted once. */
  method AppendMissing<T>(store: RecordStore<T>, s: seq<T>, id: T -> Id)
    returns (migrated: nat, skipped: nat, ids: set<Id>)
    modifies store
    ensures store.log == CopySome(old(store.log), s, id, |s|).log
    ensures |old(store.log)| + migrated == |store.log| && old(store.log) <= store.log
    ensures migrated + skipped == |s| && ids == Ids(store.log[|old(store.log)|..], id)
  {
    ghost var log := store.log;
    ghost var done: seq<T> := [];
    migrated, skipped, ids := 0, 0, {};
    var i := 0;
    while i < |s|
      invariant 0 <= i <= |s| && store.log == log + done
      invariant migrated == |done| && migrated + skipped == i && ids == Ids(done, id)
      invariant CopySome(store.log, s[i..], id, |s| - migrated).log == CopySome(log, s, id, |s|).log
    {
      ghost var rest := s[i..];
      assert rest[0] == s[i] && rest[1..] == s[i + 1..];
      var found := store.FindOne(id, id(s[i]));
      if found.Some? {
        skipped := skipped + 1;
      } else {
        store.Append(s[i]);
        IdsSnoc(done, id, s[i]);
        migrated, ids, done := migrated + 1, ids + {id(s[i])}, done + [s[i]];
      }
      i := i + 1;
    }
    assert store.log[|log|..] == done;
  }

  lemma {:induction false} MissingAtMost<T>(log: seq<T>, s: seq<T>, id: T -> Id)
    ensures |Missing(log, s, id)| <= |s|
  {
    if s != [] { MissingAtMost(log, s[1..], id); }
  }

  /** An uninterrupted copy of distinct records appends all that is missing. */
  lemma CopyWhole<T>(log: seq<T>, s: seq<T>, id: T -> Id)
    requires Distinct(s, id)
    ensures CopySome(log, s, id, |s|).log == CopyAll(log, s, id)
    ensures CopyAll(log, s, id)[|log|..] == Missing(log, s, id)
  {
    var m := Missing(log, s, id);
    MissingAtMost(log, s, id);
    CopySomeIs(log, s, id, |s|);
    assert m[..|m|] == m;
  }

  lemma IdsSnoc<T>(s: seq<T>, id: T -> Id, r: T)
    ensures Ids(s + [r], id) == Ids(s, id) + {id(r)}
  {
    assert r in s + [r];
    assert forall x :: x in s ==> x in s + [r];
  }

  // ----- Targets and jobs -----

  datatype Target = Target(id: Id, payload: int)

  /** The legacy states: only `Pending` and `Running` are in flight. */
  datatype State = Pending | Running | Retrying | Cancelling | Succeeded | Failed | Cancelled

  datatype Job = Job(id: Id, state: State, finishedAt: Option<Time>, error: Option<int>, payload: int)

  const MIGRATED_IN_FLIGHT: int := 1

  function TargetId(): Target -> Id { (t: Target) => t.id }

  function JobId(): Job -> Id { (j: Job) => j.id }

  predicate InFlight(j: Job) {
    j.state.Pending? || j.state.Running?
  }

  function Recover(j: Job, now: Time): Job {
    if InFlight(j) then j.(state := Failed, finishedAt := Some(now), error := Some(MIGRATED_IN_FLIGHT)) else j
  }

  function RecoverAll(jobs: seq<Job>, now: Time): seq<Job> {
    seq(|jobs|, i requires 0 <= i < |jobs| => Recover(jobs[i], now))
  }

  lemma RecoverDistinct(jobs: seq<Job>, now: Time)
    requires Distinct(jobs, JobId())
    ensures Distinct(RecoverAll(jobs, now), JobId())
  {
    var r := RecoverAll(jobs, now);
    forall i, j | 0 <= i < j < |r| ensures JobId()(r[i]) != JobId()(r[j]) {
      assert JobId()(jobs[i]) != JobId()(jobs[j]);
    }
  }

  /** Both destination logs. */
  datatype Logs = Logs(targets: seq<Target>, jobs: seq<Job>)

  /** What a validated source brings: one target and one job per id. */
  function Source(targets: seq<Target>, jobs: seq<Job>, now: Time): (r: Logs)
    ensures Distinct(r.targets, TargetId()) && Distinct(r.jobs, JobId())
  {
    LastAppendsDistinct(targets, TargetId());
    LastAppendsDistinct(jobs, JobId());
    RecoverDistinct(LastAppends(jobs, JobId()), now);
    Logs(LastAppends(targets, TargetId()), RecoverAll(LastAppends(jobs, JobId()), now))
  }

  function Migrated(d: Logs, src: Logs): Logs {
    Logs(CopyAll(d.targets, src.targets, TargetId()), CopyAll(d.jobs, src.jobs, JobId()))
  }

  /** A run that dies after `n` appends: targets first, then jobs. */
  function Interrupted(d: Logs, src: Logs, n: nat): Logs {
    var t := CopySome(d.targets, src.targets, TargetId(), n);
    Logs(t.log, CopySome(d.jobs, src.jobs, JobId(), t.budget).log)
  }

  /** A run over a destination that any number of runs left half-way, each after
      any number of appends. */
  function Attempts(d: Logs, src: Logs, deaths: seq<nat>): Logs {
    if deaths == [] then d
    else Interrupted(Attempts(d, src, deaths[..|deaths| - 1]), src, deaths[|deaths| - 1])
  }

  /** Restart safety: interruptions, wherever they strike, leave no trace. */
  lemma {:induction false} RestartSafe(d: Logs, targets: seq<Target>, jobs: seq<Job>, now: Time, deaths: seq<nat>)
    ensures var src := Source(targets, jobs, now);
            Migrated(Attempts(d, src, deaths), src) == Migrated(d, src)
  {
    if deaths != [] {
      var src := Source(targets, jobs, now);
      var before := Attempts(d, src, deaths[..|deaths| - 1]);
      var n := deaths[|deaths| - 1];
      RestartSafe(d, targets, jobs, now, deaths[..|deaths| - 1]);
      ResumedCopy(before.targets, src.targets, TargetId(), n);
      ResumedCopy(before.jobs, src.jobs, JobId(), CopySome(before.targets, src.targets, TargetId(), n).budget);
    }
  }

  /** A job is in the destination before its target only if it was there already:
      no run dies with a copied job and a target still to copy. */
  lemma TargetsFirst(d: Logs, targets: seq<Target>, jobs: seq<Job>, now: Time, n: nat)
    ensures var src := Source(targets, jobs, now);
            var half := Interrupted(d, src, n);
            half.jobs == d.jobs || half.targets == CopyAll(d.targets, src.targets, TargetId())
  {
    var src := Source(targets, jobs, now);
    var m := Missing(d.targets, src.targets, TargetId());
    CopySomeIs(d.targets, src.targets, TargetId(), n);
    CopySomeIs(d.jobs, src.jobs, JobId(), n - Min(n, |m|));
    if n > |m| { assert m[..|m|] == m; }
  }

  /** A full second run appends nothing. */
  lemma RerunIsIdle(d: Logs, targets: seq<Target>, jobs: seq<Job>, now: Time)
    ensures var src := Source(targets, jobs, now);
            Migrated(Migrated(d, src), src) == Migrated(d, src)
  {
    var src := Source(targets, jobs, now);
    var t, j := Missing(d.targets, src.targets, TargetId()), Missing(d.jobs, src.jobs, JobId());
    assert t[..|t|] == t && j[..|j|] == j;
    MissingRest(d.targets, src.targets, TargetId(), |t|);
    MissingRest(d.jobs, src.jobs, JobId(), |j|);
  }

  /** Existing ids are never altered: the old log is a prefix, and what follows
      repeats none of its ids. */
  lemma ExistingWins<T>(log: seq<T>, s: seq<T>, id: T -> Id, i: nat)
    requires |log| <= i < |CopyAll(log, s, id)|
    ensures log <= CopyAll(log, s, id) && !Has(log, id, id(CopyAll(log, s, id)[i]))
  {
    var m := Missing(log, s, id);
    var r := CopyAll(log, s, id)[i];
    assert r == m[i - |log|];
    MissingIds(log, s, id, id(r));
    assert Has(m, id, id(r));
  }

  lemma {:induction false} MissingMember<T(!new)>(log: seq<T>, s: seq<T>, id: T -> Id, r: T)
    ensures r in Missing(log, s, id) <==> r in s && !Has(log, id, id(r))
  {
    if s != [] {
      MissingMember(log, s[1..], id, r);
      assert r in s <==> r == s[0] || r in s[1..];
    }
  }

  lemma RecoveredMember(kept: seq<Job>, now: Time, r: Job)
    ensures r in RecoverAll(kept, now) <==> exists j :: j in kept && r == Recover(j, now)
  {
    var all := RecoverAll(kept, now);
    if r in all {
      var i :| 0 <= i < |all| && all[i] == r;
      assert kept[i] in kept && r == Recover(kept[i], now);
    }
    if exists j :: j in kept && r == Recover(j, now) {
      var j :| j in kept && r == Recover(j, now);
      var i :| 0 <= i < |kept| && kept[i] == j;
      assert all[i] == r;
    }
  }

  /** How a legacy job arrives: one that was pending or running is failed at the
      migration time with the migration error; any other is as it was. */
  predicate ArrivesAs(j: Job, r: Job, now: Time) {
    && r.id == j.id && r.payload == j.payload
    && if j.state == Pending || j.state == Running
       then r.state == Failed && r.finishedAt == Some(now) && r.error == Some(MIGRATED_IN_FLIGHT)
       else r == j
  }

  lemma RecoveredArrives(j: Job, r: Job, now: Time)
    ensures r == Recover(j, now) <==> ArrivesAs(j, r, now)
  {}

  /** Exactly the last appended target of each id new to the destination arrives,
      and each id arrives once. */
  lemma TargetsArrive(d: Logs, targets: seq<Target>, jobs: seq<Job>, now: Time, r: Target)
    ensures r in Missing(d.targets, Source(targets, jobs, now).targets, TargetId()) <==>
            && !Has(d.targets, TargetId(), r.id)
            && exists i :: 0 <= i < |targets| && targets[i] == r && LastAt(targets, TargetId(), i)
    ensures Distinct(Missing(d.targets, Source(targets, jobs, now).targets, TargetId()), TargetId())
  {
    MissingMember(d.targets, LastAppends(targets, TargetId()), TargetId(), r);
    LastAppendsAre(targets, TargetId(), r);
    MissingDistinct(d.targets, Source(targets, jobs, now).targets, TargetId());
  }

  /** Exactly the last appended job of each id new to the destination arrives,
      failed at the migration time if it was in flight, and each id arrives
      once. */
  lemma JobsArrive(d: Logs, targets: seq<Target>, jobs: seq<Job>, now: Time, r: Job)
    ensures r in Missing(d.jobs, Source(targets, jobs, now).jobs, JobId()) <==>
            && !Has(d.jobs, JobId(), r.id)
            && exists i :: 0 <= i < |jobs| && LastAt(jobs, JobId(), i) && r == Recover(jobs[i], now)
    ensures r in Missing(d.jobs, Source(targets, jobs, now).jobs, JobId()) ==> !InFlight(r)
    ensures Distinct(Missing(d.jobs, Source(targets, jobs, now).jobs, JobId()), JobId())
    ensures r in Missing(d.jobs, Source(targets, jobs, now).jobs, JobId()) <==>
            && (forall i :: 0 <= i < |d.jobs| ==> d.jobs[i].id != r.id)
            && exists i :: 0 <= i < |jobs| && LastAt(jobs, JobId(), i) && ArrivesAs(jobs[i], r, now)
  {
    MissingDistinct(d.jobs, Source(targets, jobs, now).jobs, JobId());
    var kept := LastAppends(jobs, JobId());
    MissingMember(d.jobs, RecoverAll(kept, now), JobId(), r);
    RecoveredMember(kept, now, r);
    if exists j :: j in kept && r == Recover(j, now) {
      var j :| j in kept && r == Recover(j, now);
      LastAppendsAre(jobs, JobId(), j);
      var i :| 0 <= i < |jobs| && jobs[i] == j && LastAt(jobs, JobId(), i);
      assert r == Recover(jobs[i], now);
    }
    if exists i :: 0 <= i < |jobs| && LastAt(jobs, JobId(), i) && r == Recover(jobs[i], now) {
      var i :| 0 <= i < |jobs| && LastAt(jobs, JobId(), i) && r == Recover(jobs[i], now);
      LastAppendsAre(jobs, JobId(), jobs[i]);
    }
    forall i | 0 <= i < |jobs| ensures r == Recover(jobs[i], now) <==> ArrivesAs(jobs[i], r, now) {
      RecoveredArrives(jobs[i], r, now);
    }
  }

  datatype Report =
    | Refused
    | Done(targetsMigrated: nat, targetsSkipped: nat, jobsMigrated: nat, jobsSkipped: nat, inFlightFailed: nat)

  /** Ids of the in-flight jobs. */
  function InFlightIds(jobs: seq<Job>): set<Id> {
    set j | j in jobs && InFlight(j) :: j.id
  }

  /** Fails the in-flight jobs and remembers their ids. */
  method RecoverJobs(jobs: seq<Job>, now: Time) returns (rewritten: seq<Job>, recovered: set<Id>)
    ensures rewritten == RecoverAll(jobs, now) && recovered == InFlightIds(jobs)
    ensures |rewritten| == |jobs| && forall i :: 0 <= i < |jobs| ==> ArrivesAs(jobs[i], rewritten[i], now)
    ensures forall x :: x in recovered <==> exists i :: 0 <= i < |jobs| && jobs[i].id == x && (jobs[i].state == Pending || jobs[i].state == Running)
  {
    recovered, rewritten := {}, [];
    for i := 0 to |jobs|
      invariant rewritten == RecoverAll(jobs[..i], now) && recovered == InFlightIds(jobs[..i])
    {
      var job := jobs[i];
      assert jobs[..i + 1] == jobs[..i] + [job];
      InFlightSnoc(jobs[..i], job);
      if job.state.Pending? || job.state.Running? {
        job := job.(state := Failed, finishedAt := Some(now), error := Some(MIGRATED_IN_FLIGHT));
        recovered := recovered + {job.id};
      }
      rewritten := rewritten + [job];
    }
    assert jobs[..|jobs|] == jobs;
  }

  /** `migrate_control_state` after the source is read: nothing is written unless
      every record of both stores parses. */
  method Migrate<R>(
    rawTargets: seq<R>, rawJobs: seq<R>, parseTarget: R -> Option<Target>, parseJob: R -> Option<Job>,
    now: Time, targetStore: RecordStore<Target>, jobStore: RecordStore<Job>)
    returns (report: Report)
    modifies targetStore, jobStore
    ensures report.Refused? <==> !AllParse(rawTargets, parseTarget) || !AllParse(rawJobs, parseJob)
    ensures report.Refused? ==> targetStore.log == old(targetStore.log) && jobStore.log == old(jobStore.log)
    ensures report.Done? ==>
      var src := Source(Parsed(rawTargets, parseTarget), Parsed(rawJobs, parseJob), now);
      && Logs(targetStore.log, jobStore.log) == Migrated(old(Logs(targetStore.log, jobStore.log)), src)
      && report.targetsMigrated == |Missing(old(targetStore.log), src.targets, TargetId())|
      && report.targetsMigrated + report.targetsSkipped == |src.targets|
      && report.jobsMigrated == |Missing(old(jobStore.log), src.jobs, JobId())|
      && report.jobsMigrated + report.jobsSkipped == |src.jobs|
      && report.inFlightFailed ==
         |InFlightIds(LastAppends(Parsed(rawJobs, parseJob), JobId())) * Ids(Missing(old(jobStore.log), src.jobs, JobId()), JobId())|
  {
    var targets := LatestValid(rawTargets, parseTarget, TargetId());
    if targets.Invalid? { return Refused; }
    var jobs := LatestValid(rawJobs, parseJob, JobId());
    if jobs.Invalid? { return Refused; }
    ghost var src := Source(Parsed(rawTargets, parseTarget), Parsed(rawJobs, parseJob), now);
    var rewritten, recovered := RecoverJobs(jobs.records, now);
    CopyWhole(targetStore.log, src.targets, TargetId());
    CopyWhole(jobStore.log, src.jobs, JobId());
    var tm, ts, _ := AppendMissing(targetStore, targets.records, TargetId());
    var jm, js, ids := AppendMissing(jobStore, rewritten, JobId());
    return Done(tm, ts, jm, js, |recovered * ids|);
  }

  lemma InFlightSnoc(s: seq<Job>, j: Job)
    ensures InFlightIds(s + [j]) == InFlightIds(s) + if InFlight(j) then {j.id} else {}
  {
    assert j in s + [j] && forall x :: x in s ==> x in s + [j];
  }
}
