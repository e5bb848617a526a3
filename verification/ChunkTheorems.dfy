/** How good the packing is: optimal among splits that keep the sending order,
    and how far it can be from splits that cut each stream on its own. */
module ChunkTheorems {
  import opened Packing
  import opened Chunks

  /** No split of the rows into contiguous runs, in sending order and within
      the limits, has fewer chunks. */
  lemma FewestChunks(b: Budget, streams: Chunk, chunks: seq<Chunk>, others: seq<seq<Tagged>>)
    requires PackedWell(b, streams, chunks)
    requires others != [] && AllFit(others, Fitting(b)) && Concat(others) == Flat(streams)
    ensures |chunks| <= |others|
  {
    if Greedy(Flats(chunks), Fitting(b)) {
      FittingIsHereditary(b);
      GreedyIsMinimal(Flats(chunks), others, Fitting(b));
    }
  }

  // ------------------------------------------------------ independent cuts

  /** A split that cuts every stream where it likes: chunk `i` carries the
      `i`-th piece of each stream. */
  ghost predicate IndependentSplit(b: Budget, streams: Chunk, cuts: seq<Chunk>) {
    cuts != [] && Shaped(cuts, |streams|) && Lossless(streams, cuts) && AllFit(Flats(cuts), Fitting(b))
  }

  function NonEmptyFrom(streams: Chunk, s: nat): nat
    requires s <= |streams|
    decreases |streams| - s
  {
    if s == |streams| then 0 else (if streams[s] == [] then 0 else 1) + NonEmptyFrom(streams, s + 1)
  }

  function Pieces(cuts: seq<Chunk>, s: nat): (r: seq<seq<Tagged>>)
    requires forall i :: 0 <= i < |cuts| ==> s < |cuts[i]|
    ensures |r| == |cuts| && forall i :: 0 <= i < |cuts| ==> r[i] == Tag(s, cuts[i][s])
  {
    seq(|cuts|, i requires 0 <= i < |cuts| => Tag(s, cuts[i][s]))
  }

  /** The pieces of the nonempty streams `s` and later, stream by stream. */
  function PiecesFrom(streams: Chunk, cuts: seq<Chunk>, s: nat): seq<seq<Tagged>>
    requires s <= |streams| && Shaped(cuts, |streams|)
    decreases |streams| - s
  {
    if s == |streams| then []
    else (if streams[s] == [] then [] else Pieces(cuts, s)) + PiecesFrom(streams, cuts, s + 1)
  }

  lemma {:induction false} FlatSuffix(streams: Chunk, s: nat) returns (i: nat)
    requires s <= |streams|
    ensures i <= |Flat(streams)| && Flat(streams)[i..] == FlatFrom(streams, s)
  {
    if s == 0 {
      i := 0;
    } else {
      i := FlatSuffix(streams, s - 1);
      assert FlatFrom(streams, s - 1) == Tag(s - 1, streams[s - 1]) + FlatFrom(streams, s);
      assert Flat(streams)[i + |streams[s - 1]|..] == Flat(streams)[i..][|streams[s - 1]|..];
      i := i + |streams[s - 1]|;
    }
  }

  lemma PieceFits(b: Budget, cut: Chunk, s: nat)
    requires s < |cut| && Fits(b, Flat(cut))
    ensures Fits(b, Tag(s, cut[s]))
  {
    var i := FlatSuffix(cut, s);
    assert Flat(cut)[i..i + |cut[s]|] == Flat(cut)[i..][..|cut[s]|] == Tag(s, cut[s]);
    FitsSegment(b, Flat(cut), i, i + |cut[s]|);
  }

  lemma {:induction false} PiecesConcat(cuts: seq<Chunk>, s: nat)
    requires forall i :: 0 <= i < |cuts| ==> s < |cuts[i]|
    ensures Concat(Pieces(cuts, s)) == Tag(s, Concat(Column(cuts, s)))
  {
    if cuts != [] {
      PiecesConcat(cuts[1..], s);
      assert Pieces(cuts, s)[1..] == Pieces(cuts[1..], s);
      assert Column(cuts, s)[1..] == Column(cuts[1..], s);
      assert Tag(s, cuts[0][s] + Concat(Column(cuts[1..], s))) == Tag(s, cuts[0][s]) + Tag(s, Concat(Column(cuts[1..], s)));
    }
  }

  lemma PiecesFit(b: Budget, cuts: seq<Chunk>, s: nat)
    requires forall i :: 0 <= i < |cuts| ==> s < |cuts[i]|
    requires AllFit(Flats(cuts), Fitting(b))
    ensures AllFit(Pieces(cuts, s), Fitting(b))
  {
    forall i | 0 <= i < |cuts| ensures Fitting(b)(Pieces(cuts, s)[i]) {
      assert Fitting(b)(Flats(cuts)[i]);
      PieceFits(b, cuts[i], s);
    }
  }

  lemma {:induction false} PiecesFromFit(b: Budget, streams: Chunk, cuts: seq<Chunk>, s: nat)
    requires s <= |streams| && Shaped(cuts, |streams|) && AllFit(Flats(cuts), Fitting(b))
    ensures AllFit(PiecesFrom(streams, cuts, s), Fitting(b))
    decreases |streams| - s
  {
    if s < |streams| {
      PiecesFromFit(b, streams, cuts, s + 1);
      PiecesFit(b, cuts, s);
    }
  }

  lemma {:induction false} PiecesFromConcat(streams: Chunk, cuts: seq<Chunk>, s: nat)
    requires s <= |streams| && Shaped(cuts, |streams|) && Lossless(streams, cuts)
    ensures Concat(PiecesFrom(streams, cuts, s)) == FlatFrom(streams, s)
    decreases |streams| - s
  {
    if s < |streams| {
      PiecesFromConcat(streams, cuts, s + 1);
      PiecesConcat(cuts, s);
      ConcatAppend(if streams[s] == [] then [] else Pieces(cuts, s), PiecesFrom(streams, cuts, s + 1));
    }
  }

  lemma {:induction false} PiecesFromCount(streams: Chunk, cuts: seq<Chunk>, s: nat)
    requires s <= |streams| && Shaped(cuts, |streams|)
    ensures |PiecesFrom(streams, cuts, s)| == NonEmptyFrom(streams, s) * |cuts|
    decreases |streams| - s
  {
    if s < |streams| {
      PiecesFromCount(streams, cuts, s + 1);
      Distribute(NonEmptyFrom(streams, s + 1), |cuts|);
    }
  }

  lemma Distribute(n: nat, m: nat)
    ensures (1 + n) * m == m + n * m && 1 * m == m
  {}

  /** Against splits that cut each stream independently, the packing is within a
      factor of the number of nonempty streams; with a single nonempty stream it
      is optimal there too. */
  lemma WithinStreamsOfIndependentCuts(b: Budget, streams: Chunk, chunks: seq<Chunk>, cuts: seq<Chunk>)
    requires PackedWell(b, streams, chunks) && IndependentSplit(b, streams, cuts) && Flat(streams) != []
    ensures |chunks| <= NonEmptyFrom(streams, 0) * |cuts|
    ensures NonEmptyFrom(streams, 0) == 1 ==> |chunks| <= |cuts|
  {
    var others := PiecesFrom(streams, cuts, 0);
    PiecesFromFit(b, streams, cuts, 0);
    PiecesFromConcat(streams, cuts, 0);
    PiecesFromCount(streams, cuts, 0);
    assert Concat<Tagged>([]) == [];
    FewestChunks(b, streams, chunks, others);
    Distribute(0, |cuts|);
  }

  // ------------------------------------------------------------ plain sizes

  function Sizes(rows: seq<Item>): nat {
    if rows == [] then 0 else rows[0].size + Sizes(rows[1..])
  }

  /** The encoded array of a stream: its rows and a comma between neighbours. */
  function ArrayBytes(rows: seq<Item>): nat {
    if rows == [] then 0 else Sizes(rows) + |rows| - 1
  }

  function ArraysBytes(streams: Chunk, s: nat): nat
    requires s <= |streams|
    decreases |streams| - s
  {
    if s == |streams| then 0 else ArrayBytes(streams[s]) + ArraysBytes(streams, s + 1)
  }

  lemma {:induction false} SizesSnoc(rows: seq<Item>, x: Item)
    ensures Sizes(rows + [x]) == Sizes(rows) + x.size
  {
    if rows == [] {
      assert [] + [x] == [x];
      assert Sizes([x]) == x.size + Sizes([x][1..]);
    } else {
      SizesSnoc(rows[1..], x);
      assert (rows + [x])[1..] == rows[1..] + [x];
    }
  }

  /** Rows of one stream after rows of other streams. */
  lemma {:induction false} CostOfStream(before: seq<Tagged>, s: nat, rows: seq<Item>)
    requires CountOf(before, s) == 0
    ensures Cost(before + Tag(s, rows)) == Cost(before) + ArrayBytes(rows)
  {
    if rows == [] {
      assert before + Tag(s, rows) == before;
    } else {
      var init, x := rows[..|rows| - 1], rows[|rows| - 1];
      CostOfStream(before, s, init);
      assert rows == init + [x];
      assert before + Tag(s, rows) == (before + Tag(s, init)) + [Tagged(s, x)];
      CostAppend(before + Tag(s, init), Tagged(s, x));
      CountConcat(before, Tag(s, init), s);
      CountTag(s, init, s);
      SizesSnoc(init, x);
    }
  }

  lemma Regroup<T>(a: seq<T>, b: seq<T>, c: seq<T>)
    ensures a + (b + c) == (a + b) + c
  {}

  lemma OtherStreamsUntouched(before: seq<Tagged>, s: nat, rows: seq<Item>, t: nat)
    requires t != s && CountOf(before, t) == 0
    ensures CountOf(before + Tag(s, rows), t) == 0
  {
    CountConcat(before, Tag(s, rows), t);
    CountTag(s, rows, t);
  }

  lemma {:induction false} CostFrom(before: seq<Tagged>, streams: Chunk, s: nat)
    requires s <= |streams| && forall t: nat :: s <= t < |streams| ==> CountOf(before, t) == 0
    ensures Cost(before + FlatFrom(streams, s)) == Cost(before) + ArraysBytes(streams, s)
    decreases |streams| - s
  {
    if s == |streams| {
      assert before + [] == before;
    } else {
      var more := before + Tag(s, streams[s]);
      CostOfStream(before, s, streams[s]);
      forall t: nat | s + 1 <= t < |streams| ensures CountOf(more, t) == 0 {
        OtherStreamsUntouched(before, s, streams[s], t);
      }
      CostFrom(more, streams, s + 1);
      Regroup(before, Tag(s, streams[s]), FlatFrom(streams, s + 1));
    }
  }

  /** What an accepted packing means in plain sizes: at most 4096 rows of each
      stream to a chunk, and the empty envelope with the chunk's encoded arrays
      within the limit. */
  lemma ChunksAreBounded(b: Budget, streams: Chunk, chunks: seq<Chunk>, i: nat)
    requires PackedWell(b, streams, chunks) && i < |chunks|
    ensures b.empty + ArraysBytes(chunks[i], 0) <= b.maxBytes
    ensures forall t :: 0 <= t < |chunks[i]| ==> |chunks[i][t]| <= 4096
  {
    assert Fitting(b)(Flats(chunks)[i]);
    CostFrom([], chunks[i], 0);
    assert [] + Flat(chunks[i]) == Flat(chunks[i]);
    forall t | 0 <= t < |chunks[i]| ensures |chunks[i][t]| <= 4096 {
      CountFlatFrom(chunks[i], 0, t);
    }
  }

  // ------------------------------------------------------ only one packing

  lemma TagInjective(s: nat, a: seq<Item>, b: seq<Item>)
    requires Tag(s, a) == Tag(s, b)
    ensures a == b
  {
    assert |a| == |b|;
    forall i | 0 <= i < |a| ensures a[i] == b[i] {
      assert Tag(s, a)[i] == Tag(s, b)[i];
    }
  }

  /** The rows in sending order tell which stream holds what. */
  lemma {:induction false} FlatInjective(c: Chunk, d: Chunk, s: nat)
    requires |c| == |d| && s <= |c| && FlatFrom(c, s) == FlatFrom(d, s)
    ensures c[s..] == d[s..]
    decreases |c| - s
  {
    if s < |c| {
      CountFlatFrom(c, s, s);
      CountFlatFrom(d, s, s);
      assert FlatFrom(c, s) == Tag(s, c[s]) + FlatFrom(c, s + 1);
      assert FlatFrom(d, s) == Tag(s, d[s]) + FlatFrom(d, s + 1);
      assert Tag(s, c[s]) == FlatFrom(c, s)[..|c[s]|] == Tag(s, d[s]);
      assert FlatFrom(c, s + 1) == FlatFrom(c, s)[|c[s]|..] == FlatFrom(d, s + 1);
      TagInjective(s, c[s], d[s]);
      FlatInjective(c, d, s + 1);
      assert c[s..] == [c[s]] + c[s + 1..] && d[s..] == [d[s]] + d[s + 1..];
    }
  }

  lemma EmptyPacking(b: Budget, streams: Chunk, chunks: seq<Chunk>)
    requires PackedWell(b, streams, chunks) && Flat(streams) == []
    ensures chunks == [Blank(|streams|)]
  {
    var rows := Flats(chunks);
    assert Concat(rows) == rows[0] + Concat(rows[1..]);
    assert rows[0] == [];
  }

  /** What is packed is determined by the streams and the budget alone. */
  lemma PackingIsUnique(b: Budget, streams: Chunk, chunks: seq<Chunk>, others: seq<Chunk>)
    requires PackedWell(b, streams, chunks) && PackedWell(b, streams, others)
    ensures chunks == others
  {
    if Flat(streams) == [] {
      EmptyPacking(b, streams, chunks);
      EmptyPacking(b, streams, others);
    } else {
      BlankHasNoRows(|streams|);
      FittingIsHereditary(b);
      GreedyIsUnique(Flats(chunks), Flats(others), Fitting(b));
      forall i | 0 <= i < |chunks| ensures chunks[i] == others[i] {
        assert Flats(chunks)[i] == Flats(others)[i];
        FlatInjective(chunks[i], others[i], 0);
        assert chunks[i][0..] == chunks[i] && others[i][0..] == others[i];
      }
    }
  }

  lemma BlankHasNoRows(k: nat)
    ensures Concat(Flats([Blank(k)])) == []
  {
    FlatBlank(k);
    assert Flats([Blank(k)]) == [] + [Flat(Blank(k))];
    ConcatOne([], Flat(Blank(k)));
  }

  /** Rows that fit together fit one by one. */
  lemma WholeItemsFit(b: Budget, streams: Chunk)
    requires Fits(b, Flat(streams))
    ensures AllItemsFit(b, streams)
  {
    forall t, m | 0 <= t < |streams| && 0 <= m < |streams[t]| ensures ItemFits(b, streams[t][m]) {
      PieceFits(b, streams, t);
      FitsSegment(b, Tag(t, streams[t]), m, m + 1);
      assert Tag(t, streams[t])[m..m + 1] == [Tagged(t, streams[t][m])];
      SingleFits(b, t + 1, t, streams[t][m]);
    }
  }

  /** Rows that fit one envelope are sent in one. */
  lemma OneChunk(b: Budget, streams: Chunk, chunks: seq<Chunk>)
    requires PackedWell(b, streams, chunks) && Fits(b, Flat(streams))
    ensures chunks == [streams]
  {
    FewestChunks(b, streams, chunks, [Flat(streams)]) by {
      assert [Flat(streams)] == [] + [Flat(streams)];
      ConcatOne([], Flat(streams));
    }
    assert |chunks| == 1;
    forall t | 0 <= t < |streams| ensures chunks[0][t] == streams[t] {
      assert Column(chunks, t) == [] + [chunks[0][t]];
      ConcatOne([], chunks[0][t]);
    }
    assert chunks[0] == streams;
  }
}
