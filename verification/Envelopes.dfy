/** From packed rows to the envelopes that are sent: sibling identifiers,
    rewritten finding counts, and the final size check.  SHA-256 and the JSON
    length of an identifier are given functions. */
module Envelopes {
  import opened Basics
  import opened Packing
  import opened Chunks
  import opened Identifiers

  // ---------------------------------------------------------- finding counts

  datatype Detector = DefenderRun | MalwareRun | PostureRun | SecretRun | OsvRun | DebianTrackerRun

  datatype Run = Run(detector: Detector, findingCount: nat)

  predicate FromDetector(d: Detector, s: Source) {
    match d
    case DefenderRun => s.Defender? || s.DefenderEvent?
    case MalwareRun => s.Malware? || s.ClamAv?
    case PostureRun => s.PostureCheck?
    case SecretRun => s.SecretScan?
    case OsvRun => false
    case DebianTrackerRun => false
  }

  function Findings(rows: seq<Item>, d: Detector): nat {
    if rows == [] then 0 else (if FromDetector(d, rows[0].source) then 1 else 0) + Findings(rows[1..], d)
  }

  lemma {:induction false} FindingsConcat(a: seq<Item>, b: seq<Item>, d: Detector)
    ensures Findings(a + b, d) == Findings(a, d) + Findings(b, d)
  {
    if a == [] {
      assert a + b == b;
    } else {
      FindingsConcat(a[1..], b, d);
      assert (a + b)[1..] == a[1..] + b;
    }
  }

  function Recount(runs: seq<Run>, rows: seq<Item>): (r: seq<Run>)
    ensures |r| == |runs|
    ensures forall i :: 0 <= i < |runs| ==> r[i] == Run(runs[i].detector, Findings(rows, runs[i].detector))
  {
    seq(|runs|, i requires 0 <= i < |runs| => Run(runs[i].detector, Findings(rows, runs[i].detector)))
  }

  function FindingsIn(pieces: seq<seq<Item>>, d: Detector): nat {
    if pieces == [] then 0 else Findings(pieces[0], d) + FindingsIn(pieces[1..], d)
  }

  lemma {:induction false} FindingsOfPieces(pieces: seq<seq<Item>>, d: Detector)
    ensures FindingsIn(pieces, d) == Findings(Concat(pieces), d)
    ensures forall i :: 0 <= i < |pieces| ==> Findings(pieces[i], d) <= Findings(Concat(pieces), d)
  {
    if pieces != [] {
      FindingsOfPieces(pieces[1..], d);
      FindingsConcat(pieces[0], Concat(pieces[1..]), d);
      forall i | 0 <= i < |pieces| ensures Findings(pieces[i], d) <= Findings(Concat(pieces), d) {
        if i > 0 { assert pieces[i] == pieces[1..][i - 1]; }
      }
    }
  }

  // --------------------------------------------------------------- envelopes

  /** A report or batch; `fixed` is the encoded length of everything but the
      identifier, the finding counts and the rows. */
  datatype Envelope = Envelope(id: string, fixed: nat, runs: Option<seq<Run>>, streams: Chunk)

  function Widths(runs: seq<Run>): nat {
    if runs == [] then 0 else |Decimal(runs[0].findingCount)| + Widths(runs[1..])
  }

  function RunsWidth(runs: Option<seq<Run>>): nat { if runs.Some? then Widths(runs.value) else 0 }

  function EncodedSize(e: Envelope, idBytes: string -> nat): nat {
    e.fixed + idBytes(e.id) + RunsWidth(e.runs) + Cost(Flat(e.streams))
  }

  /** The sizing envelope: a 256-byte identifier and no rows. */
  function EmptyBytes(e: Envelope): nat { e.fixed + MAX_CORRELATION_ID_CHARS + RunsWidth(e.runs) }

  /** The envelope of one chunk.  Only asset reports (two streams) carry runs,
      recounted over the chunk's findings. */
  function ChunkEnvelope(e: Envelope, hash: string -> string, chunk: Chunk, index: nat, total: nat): Envelope
    requires DigestOk(hash, e.id) && (e.runs.Some? ==> |chunk| == 2)
  {
    Envelope(SiblingId(e.id, hash, index, total), e.fixed,
             if e.runs.Some? then Some(Recount(e.runs.value, chunk[1])) else None, chunk)
  }

  datatype SplitResult =
    | Chunks(envelopes: seq<Envelope>)
    | Invalid(reason: PackResult)
    | IdentifierBudgetExceeded
    | ChunkTooLarge

  /** `_encoded_size(chunk) > max_bytes` after the chunk was built. */
  predicate TooLarge(e: Envelope, idBytes: string -> nat, maxBytes: int) { maxBytes < EncodedSize(e, idBytes) }

  ghost predicate IsSplit(e: Envelope, hash: string -> string, maxBytes: int, chunks: seq<Chunk>, envelopes: seq<Envelope>)
    requires DigestOk(hash, e.id)
  {
    && PackedWell(Budget(EmptyBytes(e), maxBytes), e.streams, chunks)
    && |envelopes| == |chunks|
    && (e.runs.Some? ==> |e.streams| == 2)
    && forall i :: 0 <= i < |chunks| ==> envelopes[i] == ChunkEnvelope(e, hash, chunks[i], i + 1, |chunks|)
  }

  /** Streams that packing accepts: the limit is positive and holds the empty
      envelope and every single row. */
  predicate Packable(e: Envelope, maxBytes: int) {
    0 < maxBytes && EmptyBytes(e) <= maxBytes && AllItemsFit(Budget(EmptyBytes(e), maxBytes), e.streams)
  }

  /** Reports carry assets and findings, and only they may carry runs. */
  predicate WellFormed(e: Envelope, hash: string -> string) {
    DigestOk(hash, e.id) && (e.runs.Some? ==> |e.streams| == 2)
  }

  datatype Trouble = Fine | LongId | Large

  /** What the loop that builds the envelopes finds wrong with chunk `i`. */
  function TroubleAt(e: Envelope, hash: string -> string, idBytes: string -> nat, maxBytes: int, chunks: seq<Chunk>, i: nat): Trouble
    requires WellFormed(e, hash) && i < |chunks| && Shaped(chunks, |e.streams|)
  {
    if i > 0 && MAX_CORRELATION_ID_CHARS < |SiblingId(e.id, hash, i + 1, |chunks|)| then LongId
    else if TooLarge(ChunkEnvelope(e, hash, chunks[i], i + 1, |chunks|), idBytes, maxBytes) then Large
    else Fine
  }

  /** The first `n` chunks make envelopes without trouble. */
  ghost predicate FineUpTo(e: Envelope, hash: string -> string, idBytes: string -> nat, maxBytes: int, chunks: seq<Chunk>, n: nat)
    requires WellFormed(e, hash) && n <= |chunks| && Shaped(chunks, |e.streams|)
  {
    forall i :: 0 <= i < n ==> TroubleAt(e, hash, idBytes, maxBytes, chunks, i).Fine?
  }

  ghost predicate StopsAt(
    e: Envelope, hash: string -> string, idBytes: string -> nat, maxBytes: int, chunks: seq<Chunk>, i: nat, t: Trouble)
    requires WellFormed(e, hash) && Shaped(chunks, |e.streams|)
  {
    i < |chunks| && FineUpTo(e, hash, idBytes, maxBytes, chunks, i) && TroubleAt(e, hash, idBytes, maxBytes, chunks, i) == t
  }

  /** The answer to a report, each kind under exactly one condition: refused when
      it cannot be packed, stopped by the first chunk in trouble, and otherwise
      the packed chunks as envelopes. */
  ghost predicate IsAnswer(
    e: Envelope, hash: string -> string, idBytes: string -> nat, maxBytes: int, chunks: seq<Chunk>, r: SplitResult)
    requires WellFormed(e, hash)
  {
    && (r.Invalid? <==> !Packable(e, maxBytes))
    && (Packable(e, maxBytes) ==>
          && PackedWell(Budget(EmptyBytes(e), maxBytes), e.streams, chunks)
          && (r.IdentifierBudgetExceeded? <==> exists i: nat :: StopsAt(e, hash, idBytes, maxBytes, chunks, i, LongId))
          && (r.ChunkTooLarge? <==> exists i: nat :: StopsAt(e, hash, idBytes, maxBytes, chunks, i, Large))
          && (r.Chunks? <==> FineUpTo(e, hash, idBytes, maxBytes, chunks, |chunks|))
          && (r.Chunks? ==> IsSplit(e, hash, maxBytes, chunks, r.envelopes)))
  }

  /** A loop stops at one place only. */
  lemma StopsOnce(
    e: Envelope, hash: string -> string, idBytes: string -> nat, maxBytes: int, chunks: seq<Chunk>, i: nat, t: Trouble)
    requires WellFormed(e, hash) && Shaped(chunks, |e.streams|) && t != Fine
    requires StopsAt(e, hash, idBytes, maxBytes, chunks, i, t)
    ensures forall j: nat, u :: StopsAt(e, hash, idBytes, maxBytes, chunks, j, u) && u != Fine ==> j == i && u == t
    ensures !FineUpTo(e, hash, idBytes, maxBytes, chunks, |chunks|)
  {
    assert forall j: nat, u :: StopsAt(e, hash, idBytes, maxBytes, chunks, j, u) && u != Fine ==> j <= i;
  }

  /** Builds the envelope of one chunk and checks its identifier and its size. */
  method BuildOne(e: Envelope, hash: string -> string, idBytes: string -> nat, maxBytes: int, chunks: seq<Chunk>, at: nat)
    returns (t: Trouble, child: Envelope)
    requires WellFormed(e, hash) && Shaped(chunks, |e.streams|) && at < |chunks|
    ensures t == TroubleAt(e, hash, idBytes, maxBytes, chunks, at)
    ensures t.Fine? ==> child == ChunkEnvelope(e, hash, chunks[at], at + 1, |chunks|)
  {
    var id := SiblingId(e.id, hash, at + 1, |chunks|);
    var runs := if e.runs.Some? then Some(Recount(e.runs.value, chunks[at][1])) else None;
    child := Envelope(id, e.fixed, runs, chunks[at]);
    if at > 0 && MAX_CORRELATION_ID_CHARS < |id| { return LongId, child; }
    return if TooLarge(child, idBytes, maxBytes) then Large else Fine, child;
  }

  /** Builds the envelopes of the packed chunks one after the other, and stops at
      the first that is in trouble. */
  method Build(e: Envelope, hash: string -> string, idBytes: string -> nat, maxBytes: int, chunks: seq<Chunk>)
    returns (r: SplitResult)
    requires WellFormed(e, hash) && Shaped(chunks, |e.streams|)
    ensures r.IdentifierBudgetExceeded? ==> exists i: nat :: StopsAt(e, hash, idBytes, maxBytes, chunks, i, LongId)
    ensures r.ChunkTooLarge? ==> exists i: nat :: StopsAt(e, hash, idBytes, maxBytes, chunks, i, Large)
    ensures r.Chunks? ==> FineUpTo(e, hash, idBytes, maxBytes, chunks, |chunks|) && |r.envelopes| == |chunks|
    ensures r.Chunks? ==>
              forall i :: 0 <= i < |chunks| ==> r.envelopes[i] == ChunkEnvelope(e, hash, chunks[i], i + 1, |chunks|)
    ensures !r.Invalid?
  {
    var envelopes: seq<Envelope> := [];
    for at := 0 to |chunks|
      invariant FineUpTo(e, hash, idBytes, maxBytes, chunks, at) && BuiltUpTo(e, hash, chunks, envelopes, at)
    {
      var trouble, child := BuildOne(e, hash, idBytes, maxBytes, chunks, at);
      if trouble.LongId? {
        assert StopsAt(e, hash, idBytes, maxBytes, chunks, at, LongId);
        return IdentifierBudgetExceeded;
      }
      if trouble.Large? {
        assert StopsAt(e, hash, idBytes, maxBytes, chunks, at, Large);
        return ChunkTooLarge;
      }
      BuiltOneMore(e, hash, chunks, envelopes, at, child);
      envelopes := envelopes + [child];
    }
    return Chunks(envelopes);
  }

  ghost predicate BuiltUpTo(e: Envelope, hash: string -> string, chunks: seq<Chunk>, envelopes: seq<Envelope>, n: nat)
    requires WellFormed(e, hash) && n <= |chunks| && Shaped(chunks, |e.streams|)
  {
    && |envelopes| == n
    && forall i :: 0 <= i < n ==> envelopes[i] == ChunkEnvelope(e, hash, chunks[i], i + 1, |chunks|)
  }

  lemma BuiltOneMore(e: Envelope, hash: string -> string, chunks: seq<Chunk>, envelopes: seq<Envelope>, n: nat, child: Envelope)
    requires WellFormed(e, hash) && n < |chunks| && Shaped(chunks, |e.streams|) && BuiltUpTo(e, hash, chunks, envelopes, n)
    requires child == ChunkEnvelope(e, hash, chunks[n], n + 1, |chunks|)
    ensures BuiltUpTo(e, hash, chunks, envelopes + [child], n + 1)
  {}

  /** The loop ends in exactly one way. */
  lemma OneEnding(e: Envelope, hash: string -> string, idBytes: string -> nat, maxBytes: int, chunks: seq<Chunk>)
    requires WellFormed(e, hash) && Shaped(chunks, |e.streams|)
    ensures !((exists i: nat :: StopsAt(e, hash, idBytes, maxBytes, chunks, i, LongId))
              && (exists i: nat :: StopsAt(e, hash, idBytes, maxBytes, chunks, i, Large)))
    ensures FineUpTo(e, hash, idBytes, maxBytes, chunks, |chunks|) ==>
              && !(exists i: nat :: StopsAt(e, hash, idBytes, maxBytes, chunks, i, LongId))
              && !(exists i: nat :: StopsAt(e, hash, idBytes, maxBytes, chunks, i, Large))
  {
    if i: nat :| StopsAt(e, hash, idBytes, maxBytes, chunks, i, LongId) {
      StopsOnce(e, hash, idBytes, maxBytes, chunks, i, LongId);
    } else if i: nat :| StopsAt(e, hash, idBytes, maxBytes, chunks, i, Large) {
      StopsOnce(e, hash, idBytes, maxBytes, chunks, i, Large);
    }
  }

  /** `split_asset_report` (two streams, with detector runs) and
      `split_trace_batch` (three streams, without). */
  method Split(e: Envelope, hash: string -> string, idBytes: string -> nat, maxBytes: int) returns (r: SplitResult)
    requires WellFormed(e, hash)
    ensures exists chunks :: IsAnswer(e, hash, idBytes, maxBytes, chunks, r)
  {
    var packed := Pack(e.streams, Budget(EmptyBytes(e), maxBytes));
    if !packed.Packed? {
      r := Invalid(packed);
      assert IsAnswer(e, hash, idBytes, maxBytes, [], r);
      return;
    }
    OneEnding(e, hash, idBytes, maxBytes, packed.chunks);
    r := Build(e, hash, idBytes, maxBytes, packed.chunks);
    assert IsAnswer(e, hash, idBytes, maxBytes, packed.chunks, r);
  }
}
