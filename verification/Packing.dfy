/** Greedy packing of a sequence into contiguous chunks, for any notion of
    fitting that a segment passes on to its own segments. */
module Packing {

  function Concat<T>(chunks: seq<seq<T>>): seq<T> {
    if chunks == [] then [] else chunks[0] + Concat(chunks[1..])
  }

  lemma {:induction false} ConcatAppend<T>(a: seq<seq<T>>, b: seq<seq<T>>)
    ensures Concat(a + b) == Concat(a) + Concat(b)
  {
    if a == [] {
      assert a + b == b;
    } else {
      ConcatAppend(a[1..], b);
      assert (a + b)[1..] == a[1..] + b;
      assert Concat(a + b) == a[0] + (Concat(a[1..]) + Concat(b));
    }
  }

  lemma ConcatOne<T>(a: seq<seq<T>>, last: seq<T>)
    ensures Concat(a + [last]) == Concat(a) + last
  {
    ConcatAppend(a, [last]);
    assert Concat([last]) == last + Concat([last][1..]);
    assert Concat([last]) == last;
  }

  /** Every segment of something that fits also fits. */
  ghost predicate Hereditary<T(!new)>(fits: seq<T> -> bool) {
    forall s: seq<T>, i: nat, j: nat :: i <= j <= |s| && fits(s) ==> fits(s[i..j])
  }

  ghost predicate AllFit<T>(chunks: seq<seq<T>>, fits: seq<T> -> bool) {
    forall i :: 0 <= i < |chunks| ==> fits(chunks[i])
  }

  /** Chunk `i` could not have taken the first item of the next one. */
  predicate Full<T>(chunks: seq<seq<T>>, i: nat, fits: seq<T> -> bool)
    requires i + 1 < |chunks|
  {
    chunks[i + 1] != [] && !fits(chunks[i] + [chunks[i + 1][0]])
  }

  /** Nonempty fitting chunks, each closed only when the next item would not fit. */
  ghost predicate Greedy<T>(chunks: seq<seq<T>>, fits: seq<T> -> bool) {
    && AllFit(chunks, fits)
    && (forall i :: 0 <= i < |chunks| ==> chunks[i] != [])
    && (forall i :: 0 <= i && i + 1 < |chunks| ==> Full(chunks, i, fits))
  }

  lemma GreedyTail<T>(chunks: seq<seq<T>>, fits: seq<T> -> bool)
    requires Greedy(chunks, fits) && chunks != []
    ensures Greedy(chunks[1..], fits)
  {
    var tail := chunks[1..];
    forall i | 0 <= i && i + 1 < |tail| ensures Full(tail, i, fits) {
      assert Full(chunks, i + 1, fits);
      assert tail[i] == chunks[i + 1] && tail[i + 1] == chunks[i + 2];
    }
  }

  /** Closing a full chunk and opening the next with the item that did not fit. */
  lemma GreedyExtend<T>(chunks: seq<seq<T>>, last: seq<T>, x: T, fits: seq<T> -> bool)
    requires Greedy(chunks + [last], fits) && !fits(last + [x]) && fits([x])
    ensures Greedy(chunks + [last] + [[x]], fits)
  {
    var all := chunks + [last] + [[x]];
    forall i | 0 <= i && i + 1 < |all| ensures Full(all, i, fits) {
      if i + 1 < |chunks| + 1 {
        assert Full(chunks + [last], i, fits);
        assert all[i] == (chunks + [last])[i] && all[i + 1] == (chunks + [last])[i + 1];
      } else {
        assert all[i] == last && all[i + 1] == [x];
      }
    }
  }

  /** Growing the open chunk by an item that fits. */
  lemma GreedyGrow<T>(chunks: seq<seq<T>>, last: seq<T>, x: T, fits: seq<T> -> bool)
    requires Greedy(chunks + [last], fits) && fits(last + [x])
    ensures Greedy(chunks + [last + [x]], fits)
  {
    var old' := chunks + [last];
    var all := chunks + [last + [x]];
    forall i | 0 <= i < |all| ensures fits(all[i]) && all[i] != [] {
      assert i < |chunks| ==> all[i] == old'[i];
    }
    forall i | 0 <= i && i + 1 < |all| ensures Full(all, i, fits) {
      assert Full(old', i, fits);
      assert all[i] == old'[i] && all[i + 1][0] == old'[i + 1][0];
    }
  }

  /** A segment that reaches beyond a full greedy chunk does not fit. */
  lemma NoOvershoot<T(!new)>(gs: seq<seq<T>>, o: seq<T>, d: nat, fits: seq<T> -> bool)
    requires Hereditary(fits) && |gs| >= 2 && Full(gs, 0, fits) && d <= |o|
    requires o[d..] <= Concat(gs)
    ensures |gs[0]| < |o| - d ==> !fits(o)
  {
    var g, x := gs[0], gs[1][0];
    assert Concat(gs) == g + (gs[1] + Concat(gs[1..][1..]));
    if |g| < |o| - d {
      var n := d + |g| + 1;
      var segment := o[d..n];
      assert segment == o[d..][..|g| + 1] == Concat(gs)[..|g| + 1] == g + [x];
      assert fits(o) ==> fits(segment);
    }
  }

  /** Greedy stays ahead: a greedy packing of what is left after `d` items of
      another split needs no more chunks than that split. */
  lemma {:induction false} StaysAhead<T(!new)>(gs: seq<seq<T>>, os: seq<seq<T>>, d: nat, fits: seq<T> -> bool)
    requires Hereditary(fits) && Greedy(gs, fits) && AllFit(os, fits)
    requires d <= |Concat(os)| && Concat(gs) == Concat(os)[d..]
    ensures |gs| <= |os|
    decreases |gs| + |os|
  {
    if gs != [] {
      assert gs[0] != [] && Concat(gs) == gs[0] + Concat(gs[1..]);
      assert |Concat(os)| > 0;
      assert os != [];
      var o, rest := os[0], os[1..];
      assert Concat(os) == o + Concat(rest);
      assert AllFit(rest, fits);
      if |o| <= d {
        assert Concat(os)[d..] == Concat(rest)[d - |o|..];
        StaysAhead(gs, rest, d - |o|, fits);
      } else if |gs| >= 2 {
        var g := gs[0];
        assert Concat(gs) == o[d..] + Concat(rest);
        assert Full(gs, 0, fits);
        NoOvershoot(gs, o, d, fits);
        GreedyTail(gs, fits);
        assert Concat(gs) == g + Concat(gs[1..]);
        assert Concat(gs[1..]) == Concat(gs)[|g|..] == Concat(rest)[|g| - (|o| - d)..];
        StaysAhead(gs[1..], rest, |g| - (|o| - d), fits);
      }
    }
  }

  /** Greedy packing uses the fewest chunks of any contiguous split that fits. */
  lemma GreedyIsMinimal<T(!new)>(gs: seq<seq<T>>, os: seq<seq<T>>, fits: seq<T> -> bool)
    requires Hereditary(fits) && Greedy(gs, fits) && AllFit(os, fits) && Concat(gs) == Concat(os)
    ensures |gs| <= |os|
  {
    StaysAhead(gs, os, 0, fits);
  }

  /** The first chunk of one greedy packing is no shorter than that of another. */
  lemma FirstChunkLeads<T(!new)>(gs: seq<seq<T>>, hs: seq<seq<T>>, fits: seq<T> -> bool)
    requires Hereditary(fits) && Greedy(gs, fits) && Greedy(hs, fits) && Concat(gs) == Concat(hs) && gs != [] && hs != []
    ensures |hs[0]| <= |gs[0]|
  {
    var h := hs[0];
    assert Concat(gs) == gs[0] + Concat(gs[1..]) && Concat(hs) == h + Concat(hs[1..]);
    assert h[0..] == h && fits(h);
    if |gs| >= 2 {
      assert Full(gs, 0, fits);
      NoOvershoot(gs, h, 0, fits);
    }
  }

  lemma GreedyHasRows<T>(gs: seq<seq<T>>, fits: seq<T> -> bool)
    requires Greedy(gs, fits) && gs != []
    ensures Concat(gs) != []
  {
    assert Concat(gs) == gs[0] + Concat(gs[1..]);
  }

  /** There is only one greedy packing. */
  lemma {:induction false} GreedyIsUnique<T(!new)>(gs: seq<seq<T>>, hs: seq<seq<T>>, fits: seq<T> -> bool)
    requires Hereditary(fits) && Greedy(gs, fits) && Greedy(hs, fits) && Concat(gs) == Concat(hs)
    ensures gs == hs
  {
    if gs != [] { GreedyHasRows(gs, fits); }
    if hs != [] { GreedyHasRows(hs, fits); }
    if gs != [] {
      FirstChunkLeads(gs, hs, fits);
      FirstChunkLeads(hs, gs, fits);
      assert Concat(gs) == gs[0] + Concat(gs[1..]) && Concat(hs) == hs[0] + Concat(hs[1..]);
      assert gs[0] == Concat(gs)[..|gs[0]|] == hs[0];
      assert Concat(gs[1..]) == Concat(gs)[|gs[0]|..] == Concat(hs[1..]);
      GreedyTail(gs, fits);
      GreedyTail(hs, fits);
      GreedyIsUnique(gs[1..], hs[1..], fits);
      assert gs == [gs[0]] + gs[1..] && hs == [hs[0]] + hs[1..];
    }
  }
}
