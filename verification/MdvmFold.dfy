/** What folding changes into the materialised set means: the newest change of
    each record decides, in whatever order and however often it is delivered. */
module MdvmFold {
  import opened Basics
  import opened MdvmModel

  function Rows(q: seq<Change>): set<Change> {
    set c | c in q
  }

  /** `c` carries the newest event time among the changes of its record. */
  ghost predicate Newest(c: Change, seen: set<Change>) {
    c in seen && forall d :: d in seen && d.key == c.key ==> d.at <= c.at
  }

  ghost predicate BackedBy(c: Change, k: Key, row: Row, seen: set<Change>) {
    Newest(c, seen) && c.key == k && c.action.Upsert? && row == Row(c.device, c.payload)
  }

  /** The active set is what the changes in `seen` leave active. */
  ghost predicate Mirrors(findings: map<Key, Row>, seen: set<Change>) {
    && (forall k :: k in findings ==> exists c :: BackedBy(c, k, findings[k], seen))
    && (forall c :: Newest(c, seen) && c.action.Upsert? ==> c.key in findings)
  }

  /** No record is both fixed and active at one time. */
  ghost predicate Consistent(seen: set<Change>) {
    forall c, d :: c in seen && d in seen ==> !Clash(c, d)
  }

  /** At most one change per record and time. */
  ghost predicate Functional(seen: set<Change>) {
    forall c, d :: c in seen && d in seen && c.key == d.key && c.at == d.at ==> c == d
  }

  predicate TimeOrdered(q: seq<Change>) {
    forall i, j :: 0 <= i < j < |q| ==> q[i].at <= q[j].at
  }

  /** The last position of a record in a batch. */
  function LastOf(q: seq<Change>, k: Key): (r: Option<nat>)
    ensures r.None? ==> forall i :: 0 <= i < |q| ==> q[i].key != k
    ensures r.Some? ==> r.value < |q| && q[r.value].key == k
    ensures r.Some? ==> forall i :: r.value < i < |q| ==> q[i].key != k
  {
    if q == [] then None
    else if q[|q| - 1].key == k then Some(|q| - 1)
    else LastOf(q[..|q| - 1], k)
  }

  /** A fold settles each record by its last change and leaves the others alone. */
  lemma {:induction false} PutAllAt(t: Tables, q: seq<Change>, k: Key)
    ensures var f := PutAll(t, q).findings;
            match LastOf(q, k)
            case None => (k in f <==> k in t.findings) && (k in f ==> f[k] == t.findings[k])
            case Some(i) => (k in f <==> q[i].action.Upsert?) && (k in f ==> f[k] == Row(q[i].device, q[i].payload))
  {
    if q != [] { PutAllAt(t, q[..|q| - 1], k); }
  }

  /** In a time-ordered batch the last change of a record is its newest. */
  lemma LastIsNewest(q: seq<Change>, k: Key)
    requires TimeOrdered(q) && LastOf(q, k).Some?
    ensures Newest(q[LastOf(q, k).value], Rows(q))
  {
    var i := LastOf(q, k).value;
    forall d | d in Rows(q) && d.key == k ensures d.at <= q[i].at {
      var j :| 0 <= j < |q| && q[j] == d;
      assert j <= i;
    }
  }

  /** The batch holds everything in `seen` from some instant on. */
  ghost predicate Window(q: seq<Change>, seen: set<Change>, since: Time) {
    Rows(q) == set c | c in seen && c.at >= since
  }

  /** The newest change of a record within a window is its newest of all. */
  lemma NewestInWindow(c: Change, q: seq<Change>, seen: set<Change>, since: Time)
    requires Window(q, seen, since) && Newest(c, Rows(q))
    ensures Newest(c, seen)
  {
    assert c in Rows(q);
    forall d | d in seen && d.key == c.key ensures d.at <= c.at {
      assert d.at >= since ==> d in Rows(q);
    }
  }

  lemma NewestAgree(c: Change, d: Change, seen: set<Change>)
    requires Newest(c, seen) && Newest(d, seen) && c.key == d.key
    ensures c.at == d.at
  {}

  /** One record after a window: settled by the window if it occurs there, and
      otherwise as before, nothing having happened to it. */
  lemma RecordAfterWindow(t: Tables, q: seq<Change>, before: set<Change>, seen: set<Change>, since: Time, k: Key)
    requires Mirrors(t.findings, before) && before <= seen && Consistent(seen)
    requires TimeOrdered(q) && Window(q, seen, since)
    requires forall c :: c in seen && c.at < since ==> c in before
    ensures var f := PutAll(t, q).findings;
            && (k in f ==> exists c :: BackedBy(c, k, f[k], seen))
            && (forall c :: Newest(c, seen) && c.action.Upsert? && c.key == k ==> k in f)
  {
    var f := PutAll(t, q).findings;
    PutAllAt(t, q, k);
    match LastOf(q, k)
    case None =>
      forall c: Change | c.key == k ensures c in seen <==> c in before {
        assert c in seen && c.at >= since ==> c in Rows(q);
      }
      forall c: Change | c.key == k ensures Newest(c, seen) <==> Newest(c, before) {}
      if k in f {
        var c :| BackedBy(c, k, f[k], before);
        assert BackedBy(c, k, f[k], seen);
      }
    case Some(i) =>
      LastIsNewest(q, k);
      NewestInWindow(q[i], q, seen, since);
      assert k in f ==> BackedBy(q[i], k, f[k], seen);
      forall c | Newest(c, seen) && c.action.Upsert? && c.key == k ensures k in f {
        NewestAgree(c, q[i], seen);
        assert !Clash(c, q[i]);
      }
  }

  /** A window reaching back far enough carries the set from one instant to a
      later one, whatever it repeats. */
  lemma WindowMirrors(t: Tables, q: seq<Change>, before: set<Change>, seen: set<Change>, since: Time)
    requires Mirrors(t.findings, before) && before <= seen && Consistent(seen)
    requires TimeOrdered(q) && Window(q, seen, since)
    requires forall c :: c in seen && c.at < since ==> c in before
    ensures Mirrors(PutAll(t, q).findings, seen)
  {
    var f := PutAll(t, q).findings;
    forall k | k in f ensures exists c :: BackedBy(c, k, f[k], seen) {
      RecordAfterWindow(t, q, before, seen, since, k);
    }
    forall c | Newest(c, seen) && c.action.Upsert? ensures c.key in f {
      RecordAfterWindow(t, q, before, seen, since, c.key);
    }
  }

  /** The earliest instant at which a batch starts. */
  function Start(q: seq<Change>): (r: Time)
    ensures forall c :: c in q ==> r <= c.at
  {
    if q == [] then 0 else Min(q[|q| - 1].at, Start(q[..|q| - 1]))
  }

  /** The reference: folding the whole log once, in time order, into nothing. */
  lemma FoldOnceMirrors(q: seq<Change>, seen: set<Change>)
    requires TimeOrdered(q) && Rows(q) == seen && Consistent(seen)
    ensures Mirrors(PutAll(EMPTY, q).findings, seen)
  {
    WindowMirrors(EMPTY, q, {}, seen, Start(q));
  }

  lemma MirrorsKeys(f: map<Key, Row>, g: map<Key, Row>, seen: set<Change>)
    requires Mirrors(f, seen) && Mirrors(g, seen)
    ensures f.Keys == g.Keys
  {
    forall k | k in f ensures k in g {
      var c :| BackedBy(c, k, f[k], seen);
    }
    forall k | k in g ensures k in f {
      var c :| BackedBy(c, k, g[k], seen);
    }
  }

  lemma MirrorsRows(f: map<Key, Row>, g: map<Key, Row>, seen: set<Change>)
    requires Mirrors(f, seen) && Mirrors(g, seen) && Functional(seen)
    ensures f == g
  {
    MirrorsKeys(f, g, seen);
    forall k | k in f ensures f[k] == g[k] {
      var c :| BackedBy(c, k, f[k], seen);
      var d :| BackedBy(d, k, g[k], seen);
      NewestAgree(c, d, seen);
    }
  }

  lemma UnambiguousConsistent(q: seq<Change>)
    ensures !Ambiguous(q) <==> Consistent(Rows(q))
  {
    if !Ambiguous(q) {
      forall c, d | c in Rows(q) && d in Rows(q) ensures !Clash(c, d) {
        var i :| 0 <= i < |q| && q[i] == c;
        var j :| 0 <= j < |q| && q[j] == d;
        assert i < j ==> !Clash(q[i], q[j]);
        assert j < i ==> !Clash(q[j], q[i]);
      }
    } else {
      var i, j :| 0 <= i < j < |q| && Clash(q[i], q[j]);
      assert q[i] in Rows(q) && q[j] in Rows(q);
    }
  }

  lemma OrderedAgree(t: Tables, p: seq<Change>, q: seq<Change>, k: Key)
    requires Rows(p) == Rows(q) && !Ambiguous(p)
    ensures k in PutAll(t, Ordered(p)).findings <==> k in PutAll(t, Ordered(q)).findings
  {
    OrderedMembers(p);
    OrderedMembers(q);
    UnambiguousConsistent(p);
    var a, b := Ordered(p), Ordered(q);
    assert Rows(a) == Rows(p) && Rows(b) == Rows(p) by {
      assert forall c :: c in Rows(q) <==> c in q;
      assert forall c :: c in Rows(p) <==> c in p;
    }
    PutAllAt(t, a, k);
    PutAllAt(t, b, k);
    assert LastOf(a, k).Some? ==> a[LastOf(a, k).value] in Rows(b);
    assert LastOf(b, k).Some? ==> b[LastOf(b, k).value] in Rows(a);
    if LastOf(a, k).Some? {
      var c, d := a[LastOf(a, k).value], b[LastOf(b, k).value];
      LastIsNewest(a, k);
      LastIsNewest(b, k);
      NewestAgree(c, d, Rows(p));
      assert !Clash(c, d);
    }
  }

  /** A delta leaves the same active records in whatever order, and however
      often, its batch lists the changes. */
  lemma DeltaOrderIrrelevant(t: Tables, p: seq<Change>, q: seq<Change>)
    requires Rows(p) == Rows(q) && !Ambiguous(p)
    ensures PutAll(t, Ordered(p)).findings.Keys == PutAll(t, Ordered(q)).findings.Keys
  {
    forall k ensures k in PutAll(t, Ordered(p)).findings <==> k in PutAll(t, Ordered(q)).findings {
      OrderedAgree(t, p, q, k);
    }
  }
}
