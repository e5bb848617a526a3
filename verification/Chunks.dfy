/** Splitting aggregated telemetry into envelopes the Analyzer accepts: greedy
    packing under per-stream counts and a byte budget, sibling identifiers, and
    per-chunk finding counts.  Sizes of encoded items are given numbers. */
module Chunks {
  import opened Packing

  const MAX_ENVELOPE_ITEMS: nat := 4096

  datatype Source = Defender | DefenderEvent | Malware | ClamAv | PostureCheck | SecretScan | OtherSource

  /** One validated row with the length of its encoding. */
  datatype Item = Item(size: nat, source: Source, content: int)

  /** A row with the stream it belongs to; rows are sent stream by stream. */
  datatype Tagged = Tagged(stream: nat, item: Item)

  datatype Budget = Budget(empty: nat, maxBytes: int)

  function Tag(s: nat, items: seq<Item>): (r: seq<Tagged>)
    ensures |r| == |items| && forall i :: 0 <= i < |items| ==> r[i] == Tagged(s, items[i])
  {
    seq(|items|, i requires 0 <= i < |items| => Tagged(s, items[i]))
  }

  /** The rows of streams `s` and later, in sending order. */
  function FlatFrom(streams: seq<seq<Item>>, s: nat): seq<Tagged>
    requires s <= |streams|
    decreases |streams| - s
  {
    if s == |streams| then [] else Tag(s, streams[s]) + FlatFrom(streams, s + 1)
  }

  function Flat(streams: seq<seq<Item>>): seq<Tagged> { FlatFrom(streams, 0) }

  function CountOf(rows: seq<Tagged>, s: nat): nat {
    if rows == [] then 0
    else CountOf(rows[..|rows| - 1], s) + (if rows[|rows| - 1].stream == s then 1 else 0)
  }

  /** Bytes the rows add to an empty envelope: their encodings and one comma
      before every row but the first of its stream. */
  function Cost(rows: seq<Tagged>): nat {
    if rows == [] then 0
    else
      var init, last := rows[..|rows| - 1], rows[|rows| - 1];
      Cost(init) + last.item.size + (if CountOf(init, last.stream) > 0 then 1 else 0)
  }

  /** One envelope may carry these rows. */
  ghost predicate Fits(b: Budget, rows: seq<Tagged>) {
    b.empty + Cost(rows) <= b.maxBytes && forall s: nat :: CountOf(rows, s) <= MAX_ENVELOPE_ITEMS
  }

  ghost function Fitting(b: Budget): seq<Tagged> -> bool { rows => Fits(b, rows) }

  // ------------------------------------------------------------- heredity

  lemma CountAppend(rows: seq<Tagged>, x: Tagged, s: nat)
    ensures CountOf(rows + [x], s) == CountOf(rows, s) + (if x.stream == s then 1 else 0)
  {
    assert (rows + [x])[..|rows + [x]| - 1] == rows;
  }

  lemma CostAppend(rows: seq<Tagged>, x: Tagged)
    ensures Cost(rows + [x]) == Cost(rows) + x.item.size + (if CountOf(rows, x.stream) > 0 then 1 else 0)
  {
    assert (rows + [x])[..|rows + [x]| - 1] == rows;
  }

  lemma {:induction false} CountDropFirst(rows: seq<Tagged>, s: nat)
    requires rows != []
    ensures CountOf(rows[1..], s) <= CountOf(rows, s)
  {
    if |rows| > 1 {
      var init := rows[..|rows| - 1];
      CountDropFirst(init, s);
      assert rows[1..][..|rows[1..]| - 1] == init[1..];
    }
  }

  lemma {:induction false} CostDropFirst(rows: seq<Tagged>)
    requires rows != []
    ensures Cost(rows[1..]) <= Cost(rows)
  {
    if |rows| > 1 {
      var init, last := rows[..|rows| - 1], rows[|rows| - 1];
      CostDropFirst(init);
      CountDropFirst(init, last.stream);
      assert rows[1..][..|rows[1..]| - 1] == init[1..];
    }
  }

  lemma FitsDropFirst(b: Budget, rows: seq<Tagged>)
    requires rows != [] && Fits(b, rows)
    ensures Fits(b, rows[1..])
  {
    CostDropFirst(rows);
    forall s: nat ensures CountOf(rows[1..], s) <= MAX_ENVELOPE_ITEMS { CountDropFirst(rows, s); }
  }

  lemma FitsDropLast(b: Budget, rows: seq<Tagged>)
    requires rows != [] && Fits(b, rows)
    ensures Fits(b, rows[..|rows| - 1])
  {
    var init := rows[..|rows| - 1];
    forall s: nat ensures CountOf(init, s) <= MAX_ENVELOPE_ITEMS {
      assert CountOf(rows, s) <= MAX_ENVELOPE_ITEMS;
    }
  }

  lemma {:induction false} FitsSegment(b: Budget, rows: seq<Tagged>, i: nat, j: nat)
    requires i <= j <= |rows| && Fits(b, rows)
    ensures Fits(b, rows[i..j])
    decreases i + (|rows| - j)
  {
    if j < |rows| {
      FitsDropLast(b, rows);
      FitsSegment(b, rows[..|rows| - 1], i, j);
      assert rows[..|rows| - 1][i..j] == rows[i..j];
    } else if i > 0 {
      FitsDropFirst(b, rows);
      FitsSegment(b, rows[1..], i - 1, j - 1);
      assert rows[1..][i - 1..j - 1] == rows[i..j];
    } else {
      assert rows[i..j] == rows;
    }
  }

  lemma FittingIsHereditary(b: Budget)
    ensures Hereditary(Fitting(b))
  {
    forall rows: seq<Tagged>, i: nat, j: nat | i <= j <= |rows| && Fitting(b)(rows) ensures Fitting(b)(rows[i..j]) {
      FitsSegment(b, rows, i, j);
    }
  }

  // ------------------------------------------------------ flattened streams

  lemma {:induction false} FlatFromEmpty(streams: seq<seq<Item>>, s: nat)
    requires s <= |streams| && forall k :: s <= k < |streams| ==> streams[k] == []
    ensures FlatFrom(streams, s) == []
    decreases |streams| - s
  {
    if s < |streams| { FlatFromEmpty(streams, s + 1); }
  }

  /** Appending to a stream after which all are empty appends to the flat rows. */
  lemma {:induction false} FlatFromAppend(streams: seq<seq<Item>>, s: nat, t: nat, x: Item)
    requires t <= s < |streams| && forall k :: s < k < |streams| ==> streams[k] == []
    ensures FlatFrom(streams[s := streams[s] + [x]], t) == FlatFrom(streams, t) + [Tagged(s, x)]
    decreases |streams| - t
  {
    var next := streams[s := streams[s] + [x]];
    if t == s {
      FlatFromEmpty(streams, s + 1);
      FlatFromEmpty(next, s + 1);
      assert Tag(s, streams[s] + [x]) == Tag(s, streams[s]) + [Tagged(s, x)];
    } else {
      FlatFromAppend(streams, s, t + 1, x);
      assert FlatFrom(next, t) == Tag(t, streams[t]) + (FlatFrom(streams, t + 1) + [Tagged(s, x)]);
    }
  }

  lemma {:induction false} CountTag(s: nat, items: seq<Item>, t: nat)
    ensures CountOf(Tag(s, items), t) == if s == t then |items| else 0
  {
    if items != [] {
      CountTag(s, items[..|items| - 1], t);
      assert Tag(s, items)[..|items| - 1] == Tag(s, items[..|items| - 1]);
    }
  }

  lemma {:induction false} CountConcat(a: seq<Tagged>, b: seq<Tagged>, t: nat)
    ensures CountOf(a + b, t) == CountOf(a, t) + CountOf(b, t)
  {
    if b == [] {
      assert a + b == a;
    } else {
      CountConcat(a, b[..|b| - 1], t);
      assert (a + b)[..|a + b| - 1] == a + b[..|b| - 1];
    }
  }

  lemma {:induction false} CountFlatFrom(streams: seq<seq<Item>>, s: nat, t: nat)
    requires s <= |streams|
    ensures CountOf(FlatFrom(streams, s), t) == if s <= t < |streams| then |streams[t]| else 0
    decreases |streams| - s
  {
    if s < |streams| {
      CountFlatFrom(streams, s + 1, t);
      CountTag(s, streams[s], t);
      CountConcat(Tag(s, streams[s]), FlatFrom(streams, s + 1), t);
    }
  }

  // ---------------------------------------------------------------- packing

  /** One envelope's rows, stream by stream. */
  type Chunk = seq<seq<Item>>

  function Flats(chunks: seq<Chunk>): (r: seq<seq<Tagged>>)
    ensures |r| == |chunks| && forall i :: 0 <= i < |chunks| ==> r[i] == Flat(chunks[i])
  {
    seq(|chunks|, i requires 0 <= i < |chunks| => Flat(chunks[i]))
  }

  predicate Shaped(chunks: seq<Chunk>, k: nat) { forall i :: 0 <= i < |chunks| ==> |chunks[i]| == k }

  /** What the chunks carry of one stream. */
  function Column(chunks: seq<Chunk>, t: nat): (r: seq<seq<Item>>)
    requires forall i :: 0 <= i < |chunks| ==> t < |chunks[i]|
    ensures |r| == |chunks| && forall i :: 0 <= i < |chunks| ==> r[i] == chunks[i][t]
  {
    seq(|chunks|, i requires 0 <= i < |chunks| => chunks[i][t])
  }

  function Blank(k: nat): (r: Chunk)
    ensures |r| == k && forall t :: 0 <= t < k ==> r[t] == []
  {
    seq(k, _ => [])
  }

  predicate ItemFits(b: Budget, x: Item) { b.empty + x.size <= b.maxBytes }

  /** Every row of every stream is in some chunk, once and in order. */
  ghost predicate Lossless(streams: Chunk, chunks: seq<Chunk>)
    requires Shaped(chunks, |streams|)
  {
    forall t :: 0 <= t < |streams| ==> Concat(Column(chunks, t)) == streams[t]
  }

  ghost predicate PackedWell(b: Budget, streams: Chunk, chunks: seq<Chunk>) {
    && chunks != [] && Shaped(chunks, |streams|)
    && AllFit(Flats(chunks), Fitting(b))
    && Lossless(streams, chunks)
    && Concat(Flats(chunks)) == Flat(streams)
    && (Greedy(Flats(chunks), Fitting(b)) || (Flat(streams) == [] && chunks == [Blank(|streams|)]))
  }

  function Open(current: Chunk): seq<seq<Tagged>> { if Flat(current) == [] then [] else [Flat(current)] }

  predicate InOrder(packed: seq<Chunk>, current: Chunk, done: Chunk) {
    Concat(Flats(packed)) + Flat(current) == Flat(done)
  }

  predicate NothingLost(packed: seq<Chunk>, current: Chunk, done: Chunk) {
    && |current| == |done| && Shaped(packed, |done|)
    && forall t :: 0 <= t < |done| ==> Concat(Column(packed, t)) + current[t] == done[t]
  }

  ghost predicate GreedySoFar(b: Budget, packed: seq<Chunk>, current: Chunk) {
    && (packed != [] ==> Flat(current) != [])
    && Greedy(Flats(packed) + Open(current), Fitting(b))
  }

  ghost predicate Within(b: Budget, current: Chunk, bytes: int) {
    bytes == b.empty + Cost(Flat(current)) && Fits(b, Flat(current))
  }

  /** The packer's state after it has taken the rows `done`. */
  ghost predicate PackOk(b: Budget, packed: seq<Chunk>, current: Chunk, bytes: int, done: Chunk) {
    && Within(b, current, bytes) && InOrder(packed, current, done) && NothingLost(packed, current, done)
    && GreedySoFar(b, packed, current)
  }

  lemma ExtendFits(b: Budget, current: Chunk, s: nat, x: Item)
    requires s < |current| && Fits(b, Flat(current))
    ensures Cost(Flat(current) + [Tagged(s, x)]) == Cost(Flat(current)) + x.size + (if current[s] != [] then 1 else 0)
    ensures Fits(b, Flat(current) + [Tagged(s, x)]) <==>
              |current[s]| < MAX_ENVELOPE_ITEMS
              && b.empty + Cost(Flat(current)) + x.size + (if current[s] != [] then 1 else 0) <= b.maxBytes
  {
    var rows := Flat(current);
    CostAppend(rows, Tagged(s, x));
    CountFlatFrom(current, 0, s);
    forall t: nat ensures CountOf(rows + [Tagged(s, x)], t) == CountOf(rows, t) + (if t == s then 1 else 0) {
      CountAppend(rows, Tagged(s, x), t);
    }
    assert CountOf(rows + [Tagged(s, x)], s) == |current[s]| + 1;
  }

  lemma FlatBlank(k: nat)
    ensures Flat(Blank(k)) == []
  {
    FlatFromEmpty(Blank(k), 0);
  }

  lemma SingleFits(b: Budget, k: nat, s: nat, x: Item)
    requires s < k && b.empty <= b.maxBytes
    ensures Fits(b, [Tagged(s, x)]) <==> ItemFits(b, x)
    ensures Cost([Tagged(s, x)]) == x.size
  {
    FlatBlank(k);
    assert Fits(b, []);
    ExtendFits(b, Blank(k), s, x);
    assert [] + [Tagged(s, x)] == [Tagged(s, x)];
  }

  ghost predicate Ready(s: nat, current: Chunk, done: Chunk) {
    && s < |current| == |done|
    && (forall k :: s < k < |current| ==> current[k] == [])
    && (forall k :: s < k < |done| ==> done[k] == [])
  }

  lemma GrowGreedy(b: Budget, packed: seq<Chunk>, current: Chunk, next: Chunk, x: Tagged)
    requires GreedySoFar(b, packed, current) && Fits(b, Flat(current) + [x]) && Flat(next) == Flat(current) + [x]
    ensures GreedySoFar(b, packed, next)
  {
    if Flat(current) == [] {
      assert packed == [];
      assert Flats(packed) + Open(next) == [Flat(next)];
    } else {
      GreedyGrow(Flats(packed), Flat(current), x, Fitting(b));
    }
  }

  lemma GrowLoss(packed: seq<Chunk>, current: Chunk, done: Chunk, s: nat, x: Item)
    requires NothingLost(packed, current, done) && s < |done|
    ensures NothingLost(packed, current[s := current[s] + [x]], done[s := done[s] + [x]])
  {
    var next, after := current[s := current[s] + [x]], done[s := done[s] + [x]];
    forall t | 0 <= t < |done| ensures Concat(Column(packed, t)) + next[t] == after[t] {
      if t == s { assert Concat(Column(packed, s)) + (current[s] + [x]) == done[s] + [x]; }
    }
  }

  /** Adding a row that fits the open chunk. */
  lemma GrowKeeps(b: Budget, packed: seq<Chunk>, current: Chunk, bytes: int, done: Chunk, s: nat, x: Item)
    requires PackOk(b, packed, current, bytes, done) && Ready(s, current, done)
    requires Fits(b, Flat(current) + [Tagged(s, x)])
    ensures PackOk(b, packed, current[s := current[s] + [x]], bytes + x.size + (if current[s] != [] then 1 else 0),
                   done[s := done[s] + [x]])
  {
    var next := current[s := current[s] + [x]];
    FlatFromAppend(current, s, 0, x);
    FlatFromAppend(done, s, 0, x);
    ExtendFits(b, current, s, x);
    GrowGreedy(b, packed, current, next, Tagged(s, x));
    assert InOrder(packed, next, done[s := done[s] + [x]]) by {
      assert Concat(Flats(packed)) + (Flat(current) + [Tagged(s, x)]) == Flat(done) + [Tagged(s, x)];
    }
    GrowLoss(packed, current, done, s, x);
  }

  lemma FlushLoss(packed: seq<Chunk>, current: Chunk, done: Chunk, next: Chunk, after: Chunk)
    requires NothingLost(packed, current, done) && |next| == |after| == |done|
    requires forall t :: 0 <= t < |done| ==> done[t] + next[t] == after[t]
    ensures NothingLost(packed + [current], next, after)
  {
    forall t | 0 <= t < |done| ensures Concat(Column(packed + [current], t)) + next[t] == after[t] {
      assert Column(packed + [current], t) == Column(packed, t) + [current[t]];
      ConcatOne(Column(packed, t), current[t]);
    }
  }

  lemma FlushOrder(packed: seq<Chunk>, current: Chunk, done: Chunk)
    requires InOrder(packed, current, done)
    ensures Flats(packed + [current]) == Flats(packed) + [Flat(current)]
    ensures Concat(Flats(packed + [current])) == Flat(done)
  {
    assert Flats(packed + [current]) == Flats(packed) + [Flat(current)];
    ConcatOne(Flats(packed), Flat(current));
  }

  lemma OneRow(k: nat, s: nat, x: Item)
    requires s < k
    ensures Flat(Blank(k)[s := [x]]) == [Tagged(s, x)]
  {
    FlatBlank(k);
    FlatFromAppend(Blank(k), s, 0, x);
    assert Blank(k)[s] + [x] == [x];
  }

  /** Closing the open chunk for a row it cannot take. */
  lemma FlushKeeps(b: Budget, packed: seq<Chunk>, current: Chunk, bytes: int, done: Chunk, s: nat, x: Item)
    requires PackOk(b, packed, current, bytes, done) && Ready(s, current, done) && Flat(current) != []
    requires !Fits(b, Flat(current) + [Tagged(s, x)]) && ItemFits(b, x) && b.empty <= b.maxBytes
    ensures PackOk(b, packed + [current], Blank(|done|)[s := [x]], b.empty + x.size, done[s := done[s] + [x]])
  {
    var next := Blank(|done|)[s := [x]];
    SingleFits(b, |done|, s, x);
    OneRow(|done|, s, x);
    FlatFromAppend(done, s, 0, x);
    FlushOrder(packed, current, done);
    FlushLoss(packed, current, done, next, done[s := done[s] + [x]]);
    GreedyExtend(Flats(packed), Flat(current), Tagged(s, x), Fitting(b));
    assert Open(current) == [Flat(current)] && Open(next) == [[Tagged(s, x)]];
  }

  /** The final flush. */
  lemma FinishKeeps(b: Budget, packed: seq<Chunk>, current: Chunk, bytes: int, streams: Chunk)
    requires PackOk(b, packed, current, bytes, streams) && Flat(current) != []
    ensures PackedWell(b, streams, packed + [current])
  {
    var all := packed + [current];
    FlushOrder(packed, current, streams);
    FlushLoss(packed, current, streams, Blank(|streams|), streams);
    assert Flats(all) == Flats(packed) + Open(current);
    forall t | 0 <= t < |streams| ensures Concat(Column(all, t)) == streams[t] {
      assert Concat(Column(all, t)) + Blank(|streams|)[t] == streams[t];
    }
  }

  /** The one empty envelope when there is nothing to send. */
  lemma EmptyKeeps(b: Budget, packed: seq<Chunk>, current: Chunk, bytes: int, streams: Chunk)
    requires PackOk(b, packed, current, bytes, streams) && Flat(current) == []
    ensures packed == [] && PackedWell(b, streams, [Blank(|streams|)])
  {
    var only := [Blank(|streams|)];
    FlatBlank(|streams|);
    assert Concat(Flats([])) == [] && Flat(streams) == [];
    forall t | 0 <= t < |streams| ensures Concat(Column(only, t)) == streams[t] {
      CountFlatFrom(streams, 0, t);
      assert streams[t] == [];
      ConcatOne([], Column(only, t)[0]);
      assert Column(only, t) == [] + [Column(only, t)[0]];
    }
    ConcatOne([], Flats(only)[0]);
    assert Flats(only) == [] + [Flats(only)[0]];
  }

  datatype PackResult = Packed(chunks: seq<Chunk>) | BadLimit | EmptyTooLarge | ItemTooLarge

  predicate AllItemsFit(b: Budget, rows: Chunk) {
    forall t, m :: 0 <= t < |rows| && 0 <= m < |rows[t]| ==> ItemFits(b, rows[t][m])
  }

  /** Rows of the first `s` streams and the first `i` rows of stream `s`. */
  predicate Taken(streams: Chunk, done: Chunk, s: nat, i: nat)
    requires s < |streams| && i <= |streams[s]|
  {
    && |done| == |streams| && done[s] == streams[s][..i]
    && (forall k :: 0 <= k < s ==> done[k] == streams[k])
    && (forall k :: s < k < |streams| ==> done[k] == [])
  }

  /** The packed chunks, the open chunk and its bytes. */
  datatype Packer = Packer(packed: seq<Chunk>, current: Chunk, bytes: int)

  ghost predicate PackerOk(b: Budget, p: Packer, streams: Chunk, done: Chunk, s: nat, i: nat)
    requires s < |streams| && i <= |streams[s]|
  {
    PackOk(b, p.packed, p.current, p.bytes, done) && AllItemsFit(b, done) && Taken(streams, done, s, i) && Ready(s, p.current, done)
  }

  function Separator(current: Chunk, s: nat): nat
    requires s < |current|
  {
    if current[s] != [] then 1 else 0
  }

  predicate Exceeds(b: Budget, p: Packer, s: nat, x: Item)
    requires s < |p.current|
  {
    MAX_ENVELOPE_ITEMS <= |p.current[s]| || b.maxBytes < p.bytes + Separator(p.current, s) + x.size
  }

  lemma ExceedsIff(b: Budget, p: Packer, streams: Chunk, done: Chunk, s: nat, i: nat)
    requires b.empty <= b.maxBytes && s < |streams| && i < |streams[s]| && PackerOk(b, p, streams, done, s, i)
    ensures Exceeds(b, p, s, streams[s][i]) <==> !Fits(b, Flat(p.current) + [Tagged(s, streams[s][i])])
    ensures Exceeds(b, p, s, streams[s][i]) && Flat(p.current) == [] ==> !ItemFits(b, streams[s][i])
    ensures !Exceeds(b, p, s, streams[s][i]) ==> ItemFits(b, streams[s][i])
    ensures Flat(p.current) == [] ==> p.bytes == b.empty
  {
    ExtendFits(b, p.current, s, streams[s][i]);
    Occupied(p.current);
  }

  lemma DoneStep(b: Budget, streams: Chunk, done: Chunk, s: nat, i: nat)
    requires s < |streams| && i < |streams[s]| && Taken(streams, done, s, i) && AllItemsFit(b, done) && ItemFits(b, streams[s][i])
    ensures Taken(streams, done[s := done[s] + [streams[s][i]]], s, i + 1)
    ensures AllItemsFit(b, done[s := done[s] + [streams[s][i]]])
  {
    assert streams[s][..i + 1] == streams[s][..i] + [streams[s][i]];
  }

  /** One row taken, with or without closing the open chunk first. */
  lemma RowStep(b: Budget, p: Packer, streams: Chunk, done: Chunk, s: nat, i: nat)
    requires b.empty <= b.maxBytes && s < |streams| && i < |streams[s]| && PackerOk(b, p, streams, done, s, i)
    requires ItemFits(b, streams[s][i])
    ensures var x := streams[s][i];
            var q := if Exceeds(b, p, s, x)
                     then Packer(p.packed + [p.current], Blank(|streams|)[s := [x]], b.empty + x.size)
                     else Packer(p.packed, p.current[s := p.current[s] + [x]], p.bytes + Separator(p.current, s) + x.size);
            PackerOk(b, q, streams, done[s := done[s] + [x]], s, i + 1)
  {
    ExceedsIff(b, p, streams, done, s, i);
    DoneStep(b, streams, done, s, i);
    if Exceeds(b, p, s, streams[s][i]) {
      FlushKeeps(b, p.packed, p.current, p.bytes, done, s, streams[s][i]);
    } else {
      GrowKeeps(b, p.packed, p.current, p.bytes, done, s, streams[s][i]);
    }
  }

  /** Takes one row, closing the open chunk first when the row would exceed the
      count or the byte budget; refused when it does not even fit a new one. */
  method TakeRow(b: Budget, k: nat, s: nat, start: Packer, x: Item) returns (ok: bool, p: Packer)
    requires s < k == |start.current|
    requires Exceeds(b, start, s, x) && Flat(start.current) == [] ==> !ItemFits(b, x) && start.bytes == b.empty
    ensures ok <==> !Exceeds(b, start, s, x) || ItemFits(b, x)
    ensures ok ==> p == if Exceeds(b, start, s, x)
                        then Packer(start.packed + [start.current], Blank(k)[s := [x]], b.empty + x.size)
                        else Packer(start.packed, start.current[s := start.current[s] + [x]], start.bytes + Separator(start.current, s) + x.size)
  {
    var packed, current, bytes := start.packed, start.current, start.bytes;
    p := start;
    var separator := if current[s] != [] then 1 else 0;
    if MAX_ENVELOPE_ITEMS <= |current[s]| || b.maxBytes < bytes + separator + x.size {
      Occupied(current);
      if exists t :: 0 <= t < |current| && current[t] != [] {
        packed := packed + [current];
        current := Blank(k);
        bytes := b.empty;
      }
      separator := 0;
    }
    if b.maxBytes < bytes + separator + x.size { return false, p; }
    current := current[s := current[s] + [x]];
    bytes := bytes + separator + x.size;
    assert Blank(k)[s] + [x] == [x];
    return true, Packer(packed, current, bytes);
  }

  /** Adds the rows of one stream to the open chunk, closing it whenever the
      next row would exceed the count or the byte budget. */
  method AddStream(b: Budget, streams: Chunk, s: nat, start: Packer, ghost doneIn: Chunk)
    returns (ok: bool, p: Packer, ghost done: Chunk)
    requires b.empty <= b.maxBytes && s < |streams| && PackerOk(b, start, streams, doneIn, s, 0)
    ensures !ok ==> !AllItemsFit(b, streams)
    ensures ok ==> PackerOk(b, p, streams, done, s, |streams[s]|)
  {
    ok, p, done := true, start, doneIn;
    var i := 0;
    while i < |streams[s]|
      invariant i <= |streams[s]| && PackerOk(b, p, streams, done, s, i)
    {
      ghost var before := p;
      ExceedsIff(b, p, streams, done, s, i);
      ok, p := TakeRow(b, |streams|, s, p, streams[s][i]);
      if !ok {
        assert !ItemFits(b, streams[s][i]);
        return;
      }
      RowStep(b, before, streams, done, s, i);
      done := done[s := done[s] + [streams[s][i]]];
      i := i + 1;
    }
  }

  /** Packs the streams one after the other.  Nothing is dropped or reordered,
      every chunk fits, and packing is refused only when the limit is not
      positive, the empty envelope exceeds it, or some single row cannot fit. */
  method Pack(streams: Chunk, b: Budget) returns (r: PackResult)
    ensures r.BadLimit? <==> b.maxBytes <= 0
    ensures r.EmptyTooLarge? <==> 0 < b.maxBytes < b.empty
    ensures r.ItemTooLarge? <==> 0 < b.maxBytes && b.empty <= b.maxBytes && !AllItemsFit(b, streams)
    ensures r.Packed? ==> PackedWell(b, streams, r.chunks)
  {
    if b.maxBytes <= 0 { return BadLimit; }
    if b.maxBytes < b.empty { return EmptyTooLarge; }
    var p := Packer([], Blank(|streams|), b.empty);
    ghost var done := Blank(|streams|);
    StartOk(b, |streams|);
    var s := 0;
    while s < |streams|
      invariant s <= |streams| && StreamsDone(b, p, streams, done, s)
    {
      StreamOpens(b, p, streams, done, s);
      var ok;
      ok, p, done := AddStream(b, streams, s, p, done);
      if !ok { return ItemTooLarge; }
      StreamCloses(b, p, streams, done, s);
      s := s + 1;
    }
    AllStreamsDone(b, p, streams, done);
    var packed := p.packed;
    if exists k :: 0 <= k < |p.current| && p.current[k] != [] {
      packed := packed + [p.current];
    }
    if packed == [] {
      packed := [Blank(|streams|)];
    }
    return Packed(packed);
  }

  /** The packer between two streams. */
  ghost predicate StreamsDone(b: Budget, p: Packer, streams: Chunk, done: Chunk, s: nat) {
    && |streams| == |done| == |p.current|
    && PackOk(b, p.packed, p.current, p.bytes, done) && AllItemsFit(b, done)
    && (forall k :: 0 <= k < s <= |streams| ==> done[k] == streams[k])
    && (forall k :: s <= k < |streams| ==> done[k] == [] && p.current[k] == [])
  }

  lemma StreamOpens(b: Budget, p: Packer, streams: Chunk, done: Chunk, s: nat)
    requires s < |streams| && StreamsDone(b, p, streams, done, s)
    ensures PackerOk(b, p, streams, done, s, 0)
  {}

  lemma StreamCloses(b: Budget, p: Packer, streams: Chunk, done: Chunk, s: nat)
    requires s < |streams| && PackerOk(b, p, streams, done, s, |streams[s]|)
    ensures StreamsDone(b, p, streams, done, s + 1)
  {
    assert streams[s][..|streams[s]|] == streams[s];
  }

  lemma AllStreamsDone(b: Budget, p: Packer, streams: Chunk, done: Chunk)
    requires StreamsDone(b, p, streams, done, |streams|)
    ensures AllItemsFit(b, streams)
    ensures if exists k :: 0 <= k < |p.current| && p.current[k] != []
            then PackedWell(b, streams, p.packed + [p.current])
            else p.packed == [] && PackedWell(b, streams, [Blank(|streams|)])
  {
    assert done == streams;
    Occupied(p.current);
    if Flat(p.current) != [] {
      FinishKeeps(b, p.packed, p.current, p.bytes, streams);
    } else {
      EmptyKeeps(b, p.packed, p.current, p.bytes, streams);
    }
  }

  lemma StartOk(b: Budget, k: nat)
    requires b.empty <= b.maxBytes
    ensures PackOk(b, [], Blank(k), b.empty, Blank(k))
  {
    FlatBlank(k);
    assert Flats([]) + Open(Blank(k)) == [];
    forall t | 0 <= t < k ensures Concat(Column([], t)) + Blank(k)[t] == Blank(k)[t] {
      assert Column([], t) == [];
    }
  }

  lemma Occupied(current: Chunk)
    ensures (exists k :: 0 <= k < |current| && current[k] != []) <==> Flat(current) != []
  {
    if forall k :: 0 <= k < |current| ==> current[k] == [] {
      FlatFromEmpty(current, 0);
    } else {
      var k :| 0 <= k < |current| && current[k] != [];
      CountFlatFrom(current, 0, k);
    }
  }
}
