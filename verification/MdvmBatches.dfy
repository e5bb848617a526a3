/** From the materialised set to Analyzer batches: `device_snapshots` slices each
    device's rows into parts, `_batches` groups snapshots under two limits. */
module MdvmBatches {
  import opened Packing

  /** How many parts `n` rows make: one even when there is nothing to report. */
  function PartCount(n: nat, per: nat): nat
    requires per > 0
  {
    if n == 0 then 1 else (n + per - 1) / per
  }

  /** The parts of one device: all its rows once, in order, every part but the
      last full, and an empty part for a device without findings. */
  method Parts<T>(rows: seq<T>, per: nat) returns (parts: seq<seq<T>>)
    requires per > 0
    ensures Concat(parts) == rows && |parts| == PartCount(|rows|, per)
    ensures forall i :: 0 <= i < |parts| - 1 ==> |parts[i]| == per
    ensures |parts[|parts| - 1]| <= per && (rows != [] ==> parts[|parts| - 1] != [])
  {
    var total := PartCount(|rows|, per);
    parts := [];
    for i := 0 to total
      invariant |parts| == i && (0 < i < total ==> i * per < |rows|)
      invariant Concat(parts) == rows[..if i * per < |rows| then i * per else |rows|]
      invariant forall j :: 0 <= j < i && j < total - 1 ==> |parts[j]| == per
      invariant i == total ==> |parts[i - 1]| <= per && (rows != [] ==> parts[i - 1] != [])
      invariant i == total ==> |rows| <= i * per
    {
      PartBounds(|rows|, per, i);
      var high := if (i + 1) * per < |rows| then (i + 1) * per else |rows|;
      ConcatOne(parts, rows[i * per..high]);
      assert rows[..i * per] + rows[i * per..high] == rows[..high];
      parts := parts + [rows[i * per..high]];
    }
  }

  lemma TimesLess(a: nat, b: nat, per: nat)
    requires a <= b
    ensures a * per <= b * per
  {}

  lemma RoundsUp(n: nat, per: nat, q: nat)
    requires per > 0 && n > 0 && q == (n + per - 1) / per
    ensures q >= 1 && q * per - per < n <= q * per
  {
    var m := n + per - 1;
    assert m == per * (m / per) + m % per;
    assert per * q == q * per;
    assert q == 0 ==> q * per == 0;
  }

  lemma PartBounds(n: nat, per: nat, i: nat)
    requires per > 0 && i < PartCount(n, per)
    ensures i * per <= n && (n > 0 ==> i * per < n)
    ensures i + 1 < PartCount(n, per) ==> (i + 1) * per < n
    ensures i + 1 == PartCount(n, per) ==> n <= (i + 1) * per
    ensures (i + 1) * per == i * per + per
  {
    if n > 0 {
      var q := PartCount(n, per);
      RoundsUp(n, per, q);
      TimesLess(i + 1, q, per);
      if i + 1 < q {
        TimesLess(i + 2, q, per);
        assert (i + 2) * per == (i + 1) * per + per;
      }
    }
  }

  // ----- Grouping -----

  /** Limits of one batch: snapshots and bytes. */
  datatype BatchLimits = BatchLimits(snapshots: nat, bytes: nat)

  function Bytes(sizes: seq<nat>): nat {
    if sizes == [] then 0 else Bytes(sizes[..|sizes| - 1]) + sizes[|sizes| - 1]
  }

  function Within(l: BatchLimits): seq<nat> -> bool {
    (s: seq<nat>) => |s| <= l.snapshots && Bytes(s) <= l.bytes
  }

  lemma {:induction false} BytesSplit(a: seq<nat>, b: seq<nat>)
    ensures Bytes(a + b) == Bytes(a) + Bytes(b)
  {
    if b == [] {
      assert a + b == a;
    } else {
      var front := b[..|b| - 1];
      BytesSplit(a, front);
      assert (a + b)[..|a + b| - 1] == a + front;
    }
  }

  lemma WithinHereditary(l: BatchLimits)
    ensures Hereditary(Within(l))
  {
    forall s: seq<nat>, i: nat, j: nat | i <= j <= |s| && Within(l)(s) ensures Within(l)(s[i..j]) {
      assert s == s[..i] + s[i..j] + s[j..];
      BytesSplit(s[..i] + s[i..j], s[j..]);
      BytesSplit(s[..i], s[i..j]);
    }
  }

  datatype Grouped = Groups(groups: seq<seq<nat>>) | SnapshotTooLarge(index: nat)

  /** Groups snapshots, given by their encoded sizes, in order: refused exactly
      when one of them is over the byte limit, and otherwise lossless, within
      both limits and closed only when the next snapshot would not fit. */
  method Batches(sizes: seq<nat>, l: BatchLimits) returns (r: Grouped)
    requires l.snapshots > 0
    ensures r.Groups? ==> Concat(r.groups) == sizes && Greedy(r.groups, Within(l))
    ensures r.SnapshotTooLarge? <==> exists i :: 0 <= i < |sizes| && sizes[i] > l.bytes
    ensures r.SnapshotTooLarge? ==> r.index < |sizes| && sizes[r.index] > l.bytes
    ensures r.SnapshotTooLarge? ==> forall i :: 0 <= i < r.index ==> sizes[i] <= l.bytes
  {
    var groups: seq<seq<nat>>, current: seq<nat>, bytes := [], [], 0;
    for i := 0 to |sizes|
      invariant forall j :: 0 <= j < i ==> sizes[j] <= l.bytes
      invariant bytes == Bytes(current) && Grouping(groups, current, sizes[..i], l)
    {
      var size := sizes[i];
      if size > l.bytes { return SnapshotTooLarge(i); }
      assert sizes[..i + 1] == sizes[..i] + [size];
      BytesOneMore(current, size);
      if current != [] && (|current| >= l.snapshots || bytes + size > l.bytes) {
        CloseStep(groups, current, sizes[..i], size, l);
        groups, current, bytes := groups + [current], [], 0;
        assert [] + [size] == [size];
      } else {
        GrowStep(groups, current, sizes[..i], size, l);
      }
      current, bytes := current + [size], bytes + size;
    }
    assert sizes[..|sizes|] == sizes;
    if current != [] {
      ConcatOne(groups, current);
      groups := groups + [current];
    }
    return Groups(groups);
  }

  /** The closed groups and the open one after the snapshots `done`. */
  ghost predicate Grouping(groups: seq<seq<nat>>, current: seq<nat>, done: seq<nat>, l: BatchLimits) {
    && Concat(groups) + current == done
    && (if current == [] then groups == [] else Greedy(groups + [current], Within(l)))
  }

  lemma BytesOneMore(current: seq<nat>, size: nat)
    ensures Bytes(current + [size]) == Bytes(current) + size && Bytes([size]) == size
  {
    assert (current + [size])[..|current|] == current && [size][..0] == [];
  }

  lemma CloseStep(groups: seq<seq<nat>>, current: seq<nat>, done: seq<nat>, size: nat, l: BatchLimits)
    requires Grouping(groups, current, done, l) && current != []
    requires !Within(l)(current + [size]) && Within(l)([size])
    ensures Grouping(groups + [current], [size], done + [size], l)
  {
    GreedyExtend<nat>(groups, current, size, Within(l));
    ConcatOne(groups, current);
  }

  lemma GrowStep(groups: seq<seq<nat>>, current: seq<nat>, done: seq<nat>, size: nat, l: BatchLimits)
    requires Grouping(groups, current, done, l) && Within(l)(current + [size])
    ensures Grouping(groups, current + [size], done + [size], l)
  {
    assert Concat(groups) + (current + [size]) == done + [size];
    if current == [] {
      assert groups + [current + [size]] == [current + [size]];
    } else {
      GreedyGrow<nat>(groups, current, size, Within(l));
    }
  }

  /** No other grouping of the snapshots in order needs fewer batches. */
  lemma FewestBatches(groups: seq<seq<nat>>, other: seq<seq<nat>>, l: BatchLimits)
    requires Greedy(groups, Within(l)) && AllFit(other, Within(l)) && Concat(groups) == Concat(other)
    ensures |groups| <= |other|
  {
    WithinHereditary(l);
    GreedyIsMinimal<nat>(groups, other, Within(l));
  }
}
