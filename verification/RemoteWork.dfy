/** How often remote work starts within a stretch of a trace, counted by the
    steps that start it, and what a stalled worker adds to that. */
module RemoteWork {
  import opened Basics
  import opened JobModel
  import opened JobTheorems
  import opened WorkerModel
  import opened WorkerInvariants
  import opened WorkerSystem

  /** A worker that has not reached its remote start and still could. */
  predicate MayStart(w: Worker) {
    && w.pc.Heartbeating? && BeforeStart(w.exec)
    && !w.issued.job.state.Cancelling? && w.issued.job.attempt <= w.issued.job.maxAttempts
  }

  predicate RunsFor(fleet: Fleet, k: nat, j: JobId) {
    k in fleet && fleet[k].issued.job.id == j
  }

  /** Workers of a job that already hold a claim but have not started yet. */
  ghost function Stalled(t: Trace, a: nat, j: JobId): set<nat>
    requires a < |t.fleets|
  {
    set k | k in t.fleets[a] && RunsFor(t.fleets[a], k, j) && MayStart(t.fleets[a][k])
  }

  predicate Started(fleet: Fleet, k: nat, j: JobId) {
    RunsFor(fleet, k, j) && fleet[k].collections > 0
  }

  /** The workers of a job that have started by some state. */
  ghost function Starters(t: Trace, n: nat, j: JobId): set<nat>
    requires n < |t.fleets|
  {
    set k | k in t.fleets[n] && Started(t.fleets[n], k, j)
  }

  /** The step starts remote collection or deployment for the job. */
  ghost predicate StartsAt(t: Trace, i: nat, j: JobId)
    requires i + 1 < |t.fleets|
  {
    exists k :: Started(t.fleets[i + 1], k, j) && !Started(t.fleets[i], k, j)
  }

  ghost function Starting(t: Trace, j: JobId): nat -> bool {
    (i: nat) => i + 1 < |t.fleets| && StartsAt(t, i, j)
  }

  /** The steps of `[a, b)` that start remote work for the job. */
  ghost function StartSteps(t: Trace, a: nat, b: nat, j: JobId): set<nat> {
    Indices(a, b, Starting(t, j))
  }

  // ------------------------------------------------------------- one worker

  lemma AnswerStart(db: Db, w: Worker, a: Answer)
    requires ExecutionOk(w) && Fits(w, a)
    ensures w.collections <= Execute(db, w, a).collections
    ensures Execute(db, w, a).collections != w.collections ==> BeforeStart(w.exec)
    ensures BeforeStart(Execute(db, w, a).exec) ==> BeforeStart(w.exec)
  {}

  /** Only a worker that may start does, and one that may not never may again. */
  lemma WorkerStart(db: Db, w: Worker, s: WorkerStep)
    requires WorkerOk(w) && ClaimOk(db, w.issued) && Can(w, s)
    ensures w.collections <= Next(db, w, s).collections
    ensures Next(db, w, s).collections != w.collections ==> MayStart(w)
    ensures MayStart(Next(db, w, s)) ==> MayStart(w)
  {
    WorkerKept(db, w, s);
    if s.Answers? {
      AnswerStart(db, w, s.answer);
    } else {
      OtherStart(db, w, s);
    }
  }

  lemma OtherStart(db: Db, w: Worker, s: WorkerStep)
    requires Can(w, s) && !s.Answers?
    ensures Next(db, w, s).collections == w.collections && Next(db, w, s).exec == w.exec
    ensures Next(db, w, s).pc.Heartbeating? ==> w.pc.Heartbeating?
    ensures Next(db, w, s).issued == w.issued
  {}

  // --------------------------------------------------------------- one step

  /** One and the same worker before and after something happened. */
  predicate Later(v: Worker, w: Worker) {
    w.issued == v.issued && v.collections <= w.collections && (MayStart(w) ==> MayStart(v))
  }

  lemma OwnStep(t: Trace, m: nat)
    requires IsTrace(t) && m < |t.ops| && t.labels[m].Work?
    ensures var k := t.labels[m].worker;
            && k in t.fleets[m] && k in t.fleets[m + 1] && Later(t.fleets[m][k], t.fleets[m + 1][k])
            && (t.fleets[m + 1][k].collections != t.fleets[m][k].collections ==> MayStart(t.fleets[m][k]))
  {
    var k := t.labels[m].worker;
    assert TraceStep(t, m);
    FleetAlwaysOk(t, m);
    assert MemberOk(t, m, k, t.fleets[m][k]);
    WorkerKept(t.dbs[m], t.fleets[m][k], t.labels[m].step);
    WorkerStart(t.dbs[m], t.fleets[m][k], t.labels[m].step);
  }

  lemma OtherStep(t: Trace, m: nat, k: nat)
    requires IsTrace(t) && m < |t.ops| && k in t.fleets[m] && !(t.labels[m].Work? && t.labels[m].worker == k)
    ensures k in t.fleets[m + 1] && t.fleets[m + 1][k] == t.fleets[m][k]
  {
    FleetAlwaysOk(t, m);
    assert MemberOk(t, m, k, t.fleets[m][k]);
    assert TraceStep(t, m);
  }

  /** What a step does to a worker that was there before. */
  lemma KeptWorker(t: Trace, m: nat, k: nat)
    requires IsTrace(t) && m < |t.ops| && k in t.fleets[m]
    ensures k in t.fleets[m + 1] && Later(t.fleets[m][k], t.fleets[m + 1][k])
    ensures t.fleets[m + 1][k].collections != t.fleets[m][k].collections ==>
              MayStart(t.fleets[m][k]) && t.labels[m].Work? && t.labels[m].worker == k
  {
    if t.labels[m].Work? && t.labels[m].worker == k { OwnStep(t, m); } else { OtherStep(t, m, k); }
  }

  /** Each starting step adds exactly one worker to those that have started. */
  lemma StartersStep(t: Trace, m: nat, j: JobId)
    requires IsTrace(t) && m < |t.ops|
    ensures Starters(t, m, j) <= Starters(t, m + 1, j)
    ensures |Starters(t, m + 1, j)| == |Starters(t, m, j)| + (if StartsAt(t, m, j) then 1 else 0)
  {
    var before, after := Starters(t, m, j), Starters(t, m + 1, j);
    forall k | k in before ensures k in after { KeptWorker(t, m, k); }
    forall k | k in after && k !in before ensures t.labels[m].Work? && t.labels[m].worker == k {
      if k in t.fleets[m] { KeptWorker(t, m, k); } else { KnownOrNew(t, m, k); }
    }
    if StartsAt(t, m, j) {
      var k :| Started(t.fleets[m + 1], k, j) && !Started(t.fleets[m], k, j);
      assert after == before + {k};
    } else {
      forall k | k in after ensures k in before {
        assert Started(t.fleets[m + 1], k, j);
        assert Started(t.fleets[m], k, j);
      }
      assert after == before;
    }
  }

  lemma StartStepsTo(t: Trace, a: nat, b: nat, j: JobId)
    requires IsTrace(t) && a < b <= |t.ops|
    ensures |StartSteps(t, a, b, j)| == |StartSteps(t, a, b - 1, j)| + (if StartsAt(t, b - 1, j) then 1 else 0)
  {
    IndicesTo(a, b, Starting(t, j));
    assert Starting(t, j)(b - 1) == StartsAt(t, b - 1, j);
  }

  /** Starting steps and workers that started in between are equally many. */
  lemma {:induction false} StartersCount(t: Trace, a: nat, b: nat, j: JobId)
    requires IsTrace(t) && a <= b <= |t.ops|
    ensures Starters(t, a, j) <= Starters(t, b, j)
    ensures |StartSteps(t, a, b, j)| == |Starters(t, b, j)| - |Starters(t, a, j)|
    decreases b
  {
    if a == b {
      NoIndices(a, Starting(t, j));
    } else {
      StartersCount(t, a, b - 1, j);
      StartersStep(t, b - 1, j);
      StartStepsTo(t, a, b, j);
    }
  }

  lemma NoIndices(a: nat, p: nat -> bool)
    ensures Indices(a, a, p) == {}
  {}

  lemma SplitCard(a: set<nat>, b: set<nat>)
    requires a <= b
    ensures |b - a| == |b| - |a|
  {}

  /** A worker present at `a` that starts by `b` was stalled at `a`. */
  lemma {:induction false} OldStarterWasStalled(t: Trace, a: nat, b: nat, k: nat)
    requires IsTrace(t) && a <= b <= |t.ops| && k in t.fleets[a]
    ensures k in t.fleets[b] && t.fleets[b][k].issued == t.fleets[a][k].issued
    ensures t.fleets[a][k].collections <= t.fleets[b][k].collections
    ensures t.fleets[b][k].collections != t.fleets[a][k].collections ==> MayStart(t.fleets[a][k])
    ensures MayStart(t.fleets[b][k]) ==> MayStart(t.fleets[a][k])
    decreases b
  {
    if a < b {
      OldStarterWasStalled(t, a, b - 1, k);
      KeptWorker(t, b - 1, k);
    }
  }

  /** A worker not present at `a` runs a claim issued at or after `a`. */
  lemma {:induction false} NewcomerNumber(t: Trace, a: nat, b: nat, k: nat)
    requires IsTrace(t) && a <= b <= |t.ops| && k in t.fleets[b] && k !in t.fleets[a]
    ensures a <= k < b
    decreases b
  {
    if k in t.fleets[b - 1] {
      NewcomerNumber(t, a, b - 1, k);
    } else {
      KnownOrNew(t, b - 1, k);
    }
  }

  lemma StarterOrigin(t: Trace, a: nat, b: nat, j: JobId, k: nat)
    requires IsTrace(t) && a <= b <= |t.ops| && k in Starters(t, b, j) && k !in Starters(t, a, j)
    ensures k in Stalled(t, a, j) || k in Executions(t.dbs, t.ops, a, b, j)
  {
    if k in t.fleets[a] {
      OldStarterWasStalled(t, a, b, k);
    } else {
      NewcomerNumber(t, a, b, k);
      StarterExecutes(t, b, k);
      assert Executing(t.dbs, t.ops, j)(k);
    }
  }

  // ---------------------------------------------------------------- theorem

  /** Between manual retries remote work of a job starts at most `maxAttempts`
      times, plus once for every worker of an earlier claim that had not reached
      its start when the stretch began; so at most `maxAttempts` times when
      there is none. */
  lemma StartsBetweenRetries(t: Trace, a: nat, b: nat, j: JobId)
    requires IsTrace(t) && a <= b <= |t.ops| && NoRetry(t.dbs, t.ops, a, b, j)
    requires j in t.dbs[a].heads && j in t.dbs[b].heads
    ensures |StartSteps(t, a, b, j)| <= t.dbs[a].heads[j].job.maxAttempts + |Stalled(t, a, j)|
    ensures Stalled(t, a, j) == {} ==> |StartSteps(t, a, b, j)| <= t.dbs[a].heads[j].job.maxAttempts
  {
    var issued, stalled := Executions(t.dbs, t.ops, a, b, j), Stalled(t, a, j);
    var started := Starters(t, b, j) - Starters(t, a, j);
    forall k | k in started ensures k in issued + stalled { StarterOrigin(t, a, b, j, k); }
    SubsetCard(started, issued + stalled);
    StartersCount(t, a, b, j);
    SplitCard(Starters(t, a, j), Starters(t, b, j));
    TraceDisciplined(t);
    BoundedExecutions(t.dbs, t.ops, a, b, j);
    UnionCard(issued, stalled);
  }

  lemma UnionCard(a: set<nat>, b: set<nat>)
    ensures |a + b| <= |a| + |b|
  {
    assert a + b == a + (b - a);
    assert b == (b - a) + (b * a);
  }
}
