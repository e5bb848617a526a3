/** What the splitter answers: when it succeeds, when its last size check can
    fail, that no finding count is lost, and how it compares with splits that
    cut each stream on its own. */
module EnvelopeTheorems {
  import opened Basics
  import opened Packing
  import opened Chunks
  import opened ChunkTheorems
  import opened Identifiers
  import opened Envelopes

  lemma {:induction false} WidthsBounded(runs: seq<Run>, rows: seq<Item>)
    requires forall i :: 0 <= i < |runs| ==> |Decimal(Findings(rows, runs[i].detector))| <= |Decimal(runs[i].findingCount)|
    ensures Widths(Recount(runs, rows)) <= Widths(runs)
  {
    if runs != [] {
      WidthsBounded(runs[1..], rows);
      assert Recount(runs, rows)[1..] == Recount(runs[1..], rows);
    }
  }

  predicate CountsNoWider(e: Envelope, rows: seq<Item>) {
    e.runs.Some? ==>
      forall i :: 0 <= i < |e.runs.value| ==>
                    |Decimal(Findings(rows, e.runs.value[i].detector))| <= |Decimal(e.runs.value[i].findingCount)|
  }

  /** The final size check cannot fail for a packed chunk whose identifier
      encodes within the 256 reserved bytes and whose recounted findings print
      no wider than the originals. */
  lemma SizeCheckNeverFires(e: Envelope, hash: string -> string, idBytes: string -> nat, maxBytes: int, chunks: seq<Chunk>, i: nat)
    requires WellFormed(e, hash) && i < |chunks|
    requires PackedWell(Budget(EmptyBytes(e), maxBytes), e.streams, chunks)
    requires idBytes(SiblingId(e.id, hash, i + 1, |chunks|)) <= MAX_CORRELATION_ID_CHARS
    requires e.runs.Some? ==> CountsNoWider(e, chunks[i][1])
    ensures !TooLarge(ChunkEnvelope(e, hash, chunks[i], i + 1, |chunks|), idBytes, maxBytes)
  {
    var b := Budget(EmptyBytes(e), maxBytes);
    assert Fitting(b)(Flats(chunks)[i]);
    if e.runs.Some? { WidthsBounded(e.runs.value, chunks[i][1]); }
  }

  /** The runs count at least the findings of their detectors. */
  predicate HonestRuns(e: Envelope)
    requires e.runs.Some? && |e.streams| == 2
  {
    forall k :: 0 <= k < |e.runs.value| ==>
                  Findings(e.streams[1], e.runs.value[k].detector) <= e.runs.value[k].findingCount
  }

  /** Reports whose runs already count all their findings meet the condition. */
  lemma HonestCountsAreNoWider(e: Envelope, chunks: seq<Chunk>, i: nat)
    requires e.runs.Some? && |e.streams| == 2 && i < |chunks| && Shaped(chunks, 2) && Lossless(e.streams, chunks)
    requires HonestRuns(e)
    ensures CountsNoWider(e, chunks[i][1])
  {
    forall k | 0 <= k < |e.runs.value|
      ensures |Decimal(Findings(chunks[i][1], e.runs.value[k].detector))| <= |Decimal(e.runs.value[k].findingCount)|
    {
      var d := e.runs.value[k].detector;
      FindingsOfPieces(Column(chunks, 1), d);
      assert Column(chunks, 1)[i] == chunks[i][1];
      DecimalMonotone(Findings(chunks[i][1], d), e.runs.value[k].findingCount);
    }
  }

  lemma {:induction false} AllPosture(rows: seq<Item>)
    requires forall i :: 0 <= i < |rows| ==> rows[i].source.PostureCheck?
    ensures Findings(rows, PostureRun) == |rows|
  {
    if rows != [] { AllPosture(rows[1..]); }
  }

  /** Across the chunks of one report, each detector's counts add up to the
      number of the report's findings from that detector's sources. */
  lemma CountsConserved(e: Envelope, hash: string -> string, maxBytes: int, chunks: seq<Chunk>, envelopes: seq<Envelope>, k: nat)
    requires DigestOk(hash, e.id) && IsSplit(e, hash, maxBytes, chunks, envelopes)
    requires e.runs.Some? && k < |e.runs.value|
    ensures forall i :: 0 <= i < |envelopes| ==>
              envelopes[i].runs.Some? && k < |envelopes[i].runs.value|
              && envelopes[i].runs.value[k].detector == e.runs.value[k].detector
    ensures TotalCount(envelopes, k) == Findings(e.streams[1], e.runs.value[k].detector)
  {
    var d := e.runs.value[k].detector;
    FindingsOfPieces(Column(chunks, 1), d);
    CountsAreFindings(envelopes, Column(chunks, 1), k, d);
  }

  /** The places of findings from given sources. */
  function Places(rows: seq<Item>, sources: set<Source>): set<nat> {
    set i: nat | i < |rows| && rows[i].source in sources
  }

  lemma {:induction false} PlacesFrom(rows: seq<Item>, sources: set<Source>)
    requires rows != []
    ensures |Places(rows, sources)| == |Places(rows[1..], sources)| + (if rows[0].source in sources then 1 else 0)
  {
    var n := |rows| - 1;
    var last := rows[..n];
    if n == 0 {
      assert Places(rows, sources) == if rows[0].source in sources then {0} else {};
      assert Places(rows[1..], sources) == {};
    } else {
      PlacesFrom(last, sources);
      assert rows[1..][..n - 1] == last[1..];
      PlacesTo(rows, sources);
      PlacesTo(rows[1..], sources);
    }
  }

  lemma PlacesTo(rows: seq<Item>, sources: set<Source>)
    requires rows != []
    ensures |Places(rows, sources)| ==
            |Places(rows[..|rows| - 1], sources)| + (if rows[|rows| - 1].source in sources then 1 else 0)
  {
    var n, before := |rows| - 1, Places(rows[..|rows| - 1], sources);
    assert Places(rows, sources) == if rows[n].source in sources then before + {n} else before;
  }

  lemma {:induction false} FindingsArePlaces(rows: seq<Item>, d: Detector, sources: set<Source>)
    requires forall s :: FromDetector(d, s) <==> s in sources
    ensures Findings(rows, d) == |Places(rows, sources)|
  {
    if rows == [] {
      assert Places(rows, sources) == {};
    } else {
      FindingsArePlaces(rows[1..], d, sources);
      PlacesFrom(rows, sources);
    }
  }

  /** Which findings each detector's count covers: Defender findings and events,
      Kcatta malware and ClamAV hits, posture checks, secrets, and none for the
      two vulnerability feeds. */
  lemma CountIs(rows: seq<Item>, d: Detector)
    ensures match d
            case DefenderRun => Findings(rows, d) == |Places(rows, {Defender, DefenderEvent})|
            case MalwareRun => Findings(rows, d) == |Places(rows, {Malware, ClamAv})|
            case PostureRun => Findings(rows, d) == |Places(rows, {PostureCheck})|
            case SecretRun => Findings(rows, d) == |Places(rows, {SecretScan})|
            case OsvRun => Findings(rows, d) == 0
            case DebianTrackerRun => Findings(rows, d) == 0
  {
    match d
    case DefenderRun => FindingsArePlaces(rows, d, {Defender, DefenderEvent});
    case MalwareRun => FindingsArePlaces(rows, d, {Malware, ClamAv});
    case PostureRun => FindingsArePlaces(rows, d, {PostureCheck});
    case SecretRun => FindingsArePlaces(rows, d, {SecretScan});
    case OsvRun => NoPlaces(rows, d);
    case DebianTrackerRun => NoPlaces(rows, d);
  }

  lemma NoPlaces(rows: seq<Item>, d: Detector)
    requires forall s :: !FromDetector(d, s)
    ensures Findings(rows, d) == 0
  {
    FindingsArePlaces(rows, d, {});
    assert Places(rows, {}) == {};
  }

  /** Every envelope counts, for each run, the findings it carries from that
      detector's sources, and over all envelopes the counts add up to those of
      the whole report. */
  lemma CountsAreTrue(e: Envelope, hash: string -> string, maxBytes: int, chunks: seq<Chunk>, envelopes: seq<Envelope>, k: nat, i: nat)
    requires DigestOk(hash, e.id) && IsSplit(e, hash, maxBytes, chunks, envelopes)
    requires e.runs.Some? && k < |e.runs.value| && i < |envelopes|
    ensures envelopes[i].runs.Some? && k < |envelopes[i].runs.value| && |envelopes[i].streams| == 2
    ensures var run, rows, all := envelopes[i].runs.value[k], envelopes[i].streams[1], e.streams[1];
            && run.detector == e.runs.value[k].detector
            && match run.detector
               case DefenderRun =>
                 && run.findingCount == |Places(rows, {Defender, DefenderEvent})|
                 && TotalCount(envelopes, k) == |Places(all, {Defender, DefenderEvent})|
               case MalwareRun =>
                 run.findingCount == |Places(rows, {Malware, ClamAv})| && TotalCount(envelopes, k) == |Places(all, {Malware, ClamAv})|
               case PostureRun =>
                 run.findingCount == |Places(rows, {PostureCheck})| && TotalCount(envelopes, k) == |Places(all, {PostureCheck})|
               case SecretRun =>
                 run.findingCount == |Places(rows, {SecretScan})| && TotalCount(envelopes, k) == |Places(all, {SecretScan})|
               case OsvRun => run.findingCount == 0 && TotalCount(envelopes, k) == 0
               case DebianTrackerRun => run.findingCount == 0 && TotalCount(envelopes, k) == 0
  {
    CountsConserved(e, hash, maxBytes, chunks, envelopes, k);
    CountIs(chunks[i][1], e.runs.value[k].detector);
    CountIs(e.streams[1], e.runs.value[k].detector);
  }

  /** The sum of run `k`'s counts over envelopes that have one. */
  function TotalCount(envelopes: seq<Envelope>, k: nat): nat {
    if envelopes == [] then 0
    else (if envelopes[0].runs.Some? && k < |envelopes[0].runs.value| then envelopes[0].runs.value[k].findingCount else 0)
         + TotalCount(envelopes[1..], k)
  }

  lemma {:induction false} CountsAreFindings(envelopes: seq<Envelope>, pieces: seq<seq<Item>>, k: nat, d: Detector)
    requires |envelopes| == |pieces|
    requires forall i :: 0 <= i < |envelopes| ==>
               envelopes[i].runs.Some? && k < |envelopes[i].runs.value|
               && envelopes[i].runs.value[k] == Run(d, Findings(pieces[i], d))
    ensures TotalCount(envelopes, k) == FindingsIn(pieces, d)
  {
    if envelopes != [] {
      CountsAreFindings(envelopes[1..], pieces[1..], k, d);
    }
  }

  /** The answer is determined by the report and the limit alone. */
  lemma AnswerIsDetermined(
    e: Envelope, hash: string -> string, idBytes: string -> nat, maxBytes: int,
    chunks: seq<Chunk>, r: SplitResult, others: seq<Chunk>, q: SplitResult)
    requires WellFormed(e, hash)
    requires IsAnswer(e, hash, idBytes, maxBytes, chunks, r) && IsAnswer(e, hash, idBytes, maxBytes, others, q)
    ensures !r.Invalid? ==> r == q && chunks == others
    ensures r.Invalid? <==> q.Invalid?
  {
    if Packable(e, maxBytes) {
      PackingIsUnique(Budget(EmptyBytes(e), maxBytes), e.streams, chunks, others);
      if r.Chunks? {
        assert r.envelopes == q.envelopes;
      } else if r.IdentifierBudgetExceeded? {
        var i: nat :| StopsAt(e, hash, idBytes, maxBytes, chunks, i, LongId);
        StopsOnce(e, hash, idBytes, maxBytes, chunks, i, LongId);
      } else {
        var i: nat :| StopsAt(e, hash, idBytes, maxBytes, chunks, i, Large);
        StopsOnce(e, hash, idBytes, maxBytes, chunks, i, Large);
      }
    }
  }

  // ------------------------------------------------------- identifier budget

  /** Below 10^14 chunks no sibling identifier outgrows its budget. */
  lemma SmallTotalsKeepIdBudget(
    e: Envelope, hash: string -> string, idBytes: string -> nat, maxBytes: int, chunks: seq<Chunk>, r: SplitResult)
    requires WellFormed(e, hash) && IsAnswer(e, hash, idBytes, maxBytes, chunks, r) && |chunks| < Pow10(14)
    ensures !r.IdentifierBudgetExceeded?
  {
    if Packable(e, maxBytes) {
      forall i: nat | i < |chunks| ensures TroubleAt(e, hash, idBytes, maxBytes, chunks, i) != LongId {
        if i > 0 { SiblingLength(e.id, hash, |chunks|, i + 1); }
      }
    }
  }

  /** Every packable report is split when its sibling identifiers encode within
      their reserve and its runs do not understate their findings. */
  lemma SplitSucceeds(
    e: Envelope, hash: string -> string, idBytes: string -> nat, maxBytes: int, chunks: seq<Chunk>, r: SplitResult)
    requires WellFormed(e, hash) && IsAnswer(e, hash, idBytes, maxBytes, chunks, r) && Packable(e, maxBytes)
    requires |chunks| < Pow10(14)
    requires forall n :: 1 <= n <= |chunks| ==> idBytes(SiblingId(e.id, hash, n, |chunks|)) <= MAX_CORRELATION_ID_CHARS
    requires e.runs.Some? ==> HonestRuns(e)
    ensures r.Chunks?
  {
    SmallTotalsKeepIdBudget(e, hash, idBytes, maxBytes, chunks, r);
    forall i: nat | i < |chunks| ensures TroubleAt(e, hash, idBytes, maxBytes, chunks, i) != Large {
      if e.runs.Some? { HonestCountsAreNoWider(e, chunks, i); }
      SizeCheckNeverFires(e, hash, idBytes, maxBytes, chunks, i);
    }
  }

  // ------------------------------------------------- reports sent whole

  /** The rows fit one envelope. */
  ghost predicate SentWhole(e: Envelope, maxBytes: int) {
    Fits(Budget(EmptyBytes(e), maxBytes), Flat(e.streams))
  }

  /** The report as it is sent when it is not divided. */
  function Whole(e: Envelope, hash: string -> string): Envelope
    requires WellFormed(e, hash)
  {
    Envelope(e.id, e.fixed, if e.runs.Some? then Some(Recount(e.runs.value, e.streams[1])) else None, e.streams)
  }

  /** A report that fits one envelope is answered with that envelope, or with the
      size failure exactly when its own encoding, counts corrected, is over the
      limit. */
  lemma WholeAnswer(
    e: Envelope, hash: string -> string, idBytes: string -> nat, maxBytes: int, chunks: seq<Chunk>, r: SplitResult)
    requires WellFormed(e, hash) && IsAnswer(e, hash, idBytes, maxBytes, chunks, r) && SentWhole(e, maxBytes)
    ensures r.ChunkTooLarge? <==> TooLarge(Whole(e, hash), idBytes, maxBytes)
    ensures !r.ChunkTooLarge? ==> r == Chunks([Whole(e, hash)])
  {
    WholeItemsFit(Budget(EmptyBytes(e), maxBytes), e.streams);
    OneChunk(Budget(EmptyBytes(e), maxBytes), e.streams, chunks);
    assert ChunkEnvelope(e, hash, chunks[0], 1, 1) == Whole(e, hash);
    var t := TroubleAt(e, hash, idBytes, maxBytes, chunks, 0);
    assert StopsAt(e, hash, idBytes, maxBytes, chunks, 0, t);
    if t != Fine { StopsOnce(e, hash, idBytes, maxBytes, chunks, 0, t); }
  }

  /** A report can pass packing whole and still fail the size check, under some
      limit, if and only if its identifier and its corrected counts encode
      longer than the 256 reserved bytes and the counts it states. */
  lemma SizeCheckFiresIff(e: Envelope, hash: string -> string, idBytes: string -> nat)
    requires WellFormed(e, hash) && (forall t :: 0 <= t < |e.streams| ==> |e.streams[t]| <= MAX_ENVELOPE_ITEMS)
    ensures (exists maxBytes :: SentWhole(e, maxBytes) && TooLarge(Whole(e, hash), idBytes, maxBytes)) <==>
            MAX_CORRELATION_ID_CHARS + RunsWidth(e.runs) < idBytes(e.id) + RunsWidth(Whole(e, hash).runs)
  {
    var tight := EmptyBytes(e) + Cost(Flat(e.streams));
    forall t: nat ensures CountOf(Flat(e.streams), t) <= MAX_ENVELOPE_ITEMS { CountFlatFrom(e.streams, 0, t); }
    assert SentWhole(e, tight);
  }

  /** The bytes that packing left free in chunk `i`. */
  function Slack(e: Envelope, maxBytes: int, chunk: Chunk): int {
    maxBytes - EmptyBytes(e) - Cost(Flat(chunk))
  }

  /** The identifier and the corrected counts of chunk `i` encode longer than the
      256 reserved bytes, the stated counts and the bytes left free together. */
  predicate Outgrows(e: Envelope, hash: string -> string, idBytes: string -> nat, maxBytes: int, chunks: seq<Chunk>, i: nat)
    requires WellFormed(e, hash) && i < |chunks| && Shaped(chunks, |e.streams|)
  {
    MAX_CORRELATION_ID_CHARS + RunsWidth(e.runs) + Slack(e, maxBytes, chunks[i]) <
    idBytes(SiblingId(e.id, hash, i + 1, |chunks|)) + RunsWidth(ChunkEnvelope(e, hash, chunks[i], i + 1, |chunks|).runs)
  }

  lemma LargeIffOutgrows(
    e: Envelope, hash: string -> string, idBytes: string -> nat, maxBytes: int, chunks: seq<Chunk>, i: nat)
    requires WellFormed(e, hash) && i < |chunks| < Pow10(14) && Shaped(chunks, |e.streams|)
    ensures TroubleAt(e, hash, idBytes, maxBytes, chunks, i) ==
            if Outgrows(e, hash, idBytes, maxBytes, chunks, i) then Large else Fine
  {
    if i > 0 { SiblingLength(e.id, hash, |chunks|, i + 1); }
  }

  lemma SlackLeft(e: Envelope, maxBytes: int, chunks: seq<Chunk>)
    requires PackedWell(Budget(EmptyBytes(e), maxBytes), e.streams, chunks)
    ensures forall i :: 0 <= i < |chunks| ==> Slack(e, maxBytes, chunks[i]) >= 0
  {
    forall i | 0 <= i < |chunks| ensures Slack(e, maxBytes, chunks[i]) >= 0 {
      assert Fitting(Budget(EmptyBytes(e), maxBytes))(Flats(chunks)[i]);
    }
  }

  /** Any packable report, divided or not, is answered with the size failure if
      and only if some chunk of its one packing outgrows what it was given. */
  lemma DividedSizeCheckFiresIff(
    e: Envelope, hash: string -> string, idBytes: string -> nat, maxBytes: int, chunks: seq<Chunk>, r: SplitResult,
    packing: seq<Chunk>)
    requires WellFormed(e, hash) && IsAnswer(e, hash, idBytes, maxBytes, chunks, r) && Packable(e, maxBytes)
    requires PackedWell(Budget(EmptyBytes(e), maxBytes), e.streams, packing) && |packing| < Pow10(14)
    ensures r.ChunkTooLarge? <==> exists i: nat :: i < |packing| && Outgrows(e, hash, idBytes, maxBytes, packing, i)
    ensures !r.ChunkTooLarge? ==> r.Chunks?
    ensures forall i :: 0 <= i < |packing| ==> Slack(e, maxBytes, packing[i]) >= 0
  {
    PackingIsUnique(Budget(EmptyBytes(e), maxBytes), e.streams, chunks, packing);
    SlackLeft(e, maxBytes, packing);
    SmallTotalsKeepIdBudget(e, hash, idBytes, maxBytes, chunks, r);
    if r.ChunkTooLarge? {
      var i: nat :| StopsAt(e, hash, idBytes, maxBytes, chunks, i, Large);
      LargeIffOutgrows(e, hash, idBytes, maxBytes, packing, i);
    } else {
      forall i: nat | i < |packing| ensures !Outgrows(e, hash, idBytes, maxBytes, packing, i) {
        LargeIffOutgrows(e, hash, idBytes, maxBytes, packing, i);
      }
    }
  }

  // --------------------------------------------------------------- witnesses

  /** `n` posture findings of 200 bytes. */
  function Postures(n: nat): (rows: seq<Item>)
    ensures |rows| == n && forall i :: 0 <= i < n ==> rows[i] == Item(200, PostureCheck, i)
  {
    seq(n, i => Item(200, PostureCheck, i))
  }

  /** A report with an identifier of 256 characters, posture findings and one
      posture run, under a limit that the sizing leaves no room below. */
  function PostureReport(c: char, findings: nat, claimed: nat): Envelope {
    Envelope(Repeat(c, 256), 744, Some([Run(PostureRun, claimed)]), [[], Postures(findings)])
  }

  function Limit(e: Envelope): nat { EmptyBytes(e) + Cost(Flat(e.streams)) }

  lemma PostureReportFires(c: char, findings: nat, claimed: nat, hash: string -> string, chunks: seq<Chunk>, r: SplitResult)
    requires findings <= MAX_ENVELOPE_ITEMS && DigestOk(hash, Repeat(c, 256))
    ensures var e := PostureReport(c, findings, claimed);
            IsAnswer(e, hash, Utf8Length, Limit(e), chunks, r) ==>
            (r.ChunkTooLarge? <==> 256 + |Decimal(claimed)| < 256 * Utf8Width(c) + |Decimal(findings)|)
  {
    var e := PostureReport(c, findings, claimed);
    AllPosture(Postures(findings));
    RepeatBytes(c, 256);
    OneRunWidth(Run(PostureRun, claimed));
    OneRunWidth(Run(PostureRun, findings));
    assert Recount(e.runs.value, e.streams[1]) == [Run(PostureRun, findings)];
    forall t: nat ensures CountOf(Flat(e.streams), t) <= MAX_ENVELOPE_ITEMS { CountFlatFrom(e.streams, 0, t); }
    if IsAnswer(e, hash, Utf8Length, Limit(e), chunks, r) {
      WholeAnswer(e, hash, Utf8Length, Limit(e), chunks, r);
    }
  }

  lemma OneRunWidth(run: Run)
    ensures Widths([run]) == |Decimal(run.findingCount)|
  {
    assert Widths([run][1..]) == 0;
  }

  /** Ten posture findings under a claim of one: the identifier takes exactly its
      reserve, packing accepts the report, and the size check fails. */
  lemma UnderstatedCountsCanFire(hash: string -> string, chunks: seq<Chunk>, r: SplitResult)
    requires DigestOk(hash, Repeat('x', 256))
    ensures Utf8Length(PostureReport('x', 10, 1).id) == 256
    ensures var e := PostureReport('x', 10, 1);
            IsAnswer(e, hash, Utf8Length, Limit(e), chunks, r) ==> r.ChunkTooLarge?
  {
    PostureReportFires('x', 10, 1, hash, chunks, r);
    RepeatBytes('x', 256);
    assert Decimal(10) == Decimal(1) + [Digit(0)];
  }

  /** A report that counts its findings correctly, with an identifier of 256
      two-byte characters: the size check fails as well. */
  lemma WideIdentifiersCanFire(hash: string -> string, chunks: seq<Chunk>, r: SplitResult)
    requires DigestOk(hash, Repeat('\U{e9}', 256))
    ensures HonestRuns(PostureReport('\U{e9}', 10, 10)) && |PostureReport('\U{e9}', 10, 10).id| == 256
    ensures var e := PostureReport('\U{e9}', 10, 10);
            IsAnswer(e, hash, Utf8Length, Limit(e), chunks, r) ==> r.ChunkTooLarge?
  {
    PostureReportFires('\U{e9}', 10, 10, hash, chunks, r);
    AllPosture(Postures(10));
  }

  // ---------------------------------------------------------- the gap is real

  lemma CostOfTwo(x: Tagged, y: Tagged)
    ensures Cost([x]) == x.item.size
    ensures Cost([x, y]) == x.item.size + y.item.size + (if x.stream == y.stream then 1 else 0)
    ensures forall s: nat :: CountOf([x], s) <= 1 && CountOf([x, y], s) <= 2
  {
    assert [] + [x] == [x] && [x] + [y] == [x, y];
    CostAppend([], x);
    CostAppend([x], y);
    CountAppend([], x, y.stream);
    forall s: nat ensures CountOf([x], s) <= 1 && CountOf([x, y], s) <= 2 {
      CountAppend([], x, s);
      CountAppend([x], y, s);
    }
  }

  /** Two assets of 600 bytes and two findings of 400. */
  const MIXED: Chunk :=
    [[Item(600, OtherSource, 0), Item(600, OtherSource, 1)], [Item(400, OtherSource, 2), Item(400, OtherSource, 3)]]

  /** A report of them that is 1000 bytes long without its rows. */
  const MIXED_REPORT := Envelope("r", 744, None, MIXED)

  /** Its packing budget under a limit of 2000 bytes. */
  const TIGHT := Budget(EmptyBytes(MIXED_REPORT), 2000)

  lemma MixedInOrder() returns (gs: seq<seq<Tagged>>)
    ensures |gs| == 3 && Greedy(gs, Fitting(TIGHT)) && Concat(gs) == Flat(MIXED)
  {
    var ta0, ta1 := Tagged(0, MIXED[0][0]), Tagged(0, MIXED[0][1]);
    var tv0, tv1 := Tagged(1, MIXED[1][0]), Tagged(1, MIXED[1][1]);
    CostOfTwo(ta0, ta1);
    CostOfTwo(ta1, tv0);
    CostOfTwo(tv1, tv1);
    ThirdTooLarge(TIGHT, ta1, tv0, tv1);
    gs := [[ta0], [ta1, tv0], [tv1]];
    assert [ta0] + [ta1] == [ta0, ta1] && [ta1, tv0] + [tv1] == [ta1, tv0, tv1];
    assert Full(gs, 0, Fitting(TIGHT)) && Full(gs, 1, Fitting(TIGHT));
    assert Fits(TIGHT, gs[0]) && Fits(TIGHT, gs[1]) && Fits(TIGHT, gs[2]);
    FlatOfTwo(MIXED);
    ConcatOfThree(gs[0], gs[1], gs[2]);
    assert Tag(0, MIXED[0]) == [ta0, ta1] && Tag(1, MIXED[1]) == [tv0, tv1];
  }

  lemma MixedPaired() returns (cuts: seq<Chunk>)
    ensures |cuts| == 2 && IndependentSplit(TIGHT, MIXED, cuts)
  {
    var a0, a1, v0, v1 := MIXED[0][0], MIXED[0][1], MIXED[1][0], MIXED[1][1];
    cuts := [[[a0], [v0]], [[a1], [v1]]];
    CostOfTwo(Tagged(0, a0), Tagged(1, v0));
    CostOfTwo(Tagged(0, a1), Tagged(1, v1));
    FlatOfTwo(cuts[0]);
    FlatOfTwo(cuts[1]);
    assert Flat(cuts[0]) == [Tagged(0, a0), Tagged(1, v0)] && Flat(cuts[1]) == [Tagged(0, a1), Tagged(1, v1)];
    assert Fits(TIGHT, Flat(cuts[0])) && Fits(TIGHT, Flat(cuts[1]));
    assert Column(cuts, 0) == [[a0], [a1]] && Column(cuts, 1) == [[v0], [v1]];
    ConcatOfTwo([a0], [a1]);
    ConcatOfTwo([v0], [v1]);
    assert [a0] + [a1] == MIXED[0] && [v0] + [v1] == MIXED[1];
  }

  lemma MixedNeedsThree(chunks: seq<Chunk>)
    requires PackedWell(TIGHT, MIXED, chunks)
    ensures |chunks| == 3
  {
    var gs := MixedInOrder();
    FittingIsHereditary(TIGHT);
    GreedyIsMinimal(gs, Flats(chunks), Fitting(TIGHT));
    FewestChunks(TIGHT, MIXED, chunks, gs);
  }

  /** Identifiers that encode in one byte per character. */
  ghost predicate OneByteEach(idBytes: string -> nat) {
    forall s: string :: idBytes(s) == |s|
  }

  /** Pairing one asset with one finding makes two chunks, but the report, which
      sends all assets first, is answered with three envelopes. */
  lemma IndependentCutsCanBeFewer(hash: string -> string, idBytes: string -> nat, chunks: seq<Chunk>, r: SplitResult)
    returns (cuts: seq<Chunk>)
    requires DigestOk(hash, "r") && OneByteEach(idBytes)
    ensures IsAnswer(MIXED_REPORT, hash, idBytes, 2000, chunks, r) ==> r.Chunks? && |r.envelopes| == 3
    ensures |cuts| == 2 && IndependentSplit(TIGHT, MIXED, cuts)
  {
    if IsAnswer(MIXED_REPORT, hash, idBytes, 2000, chunks, r) {
      MixedAnswer(hash, idBytes, chunks, r);
    }
    cuts := MixedPaired();
  }

  lemma MixedAnswer(hash: string -> string, idBytes: string -> nat, chunks: seq<Chunk>, r: SplitResult)
    requires DigestOk(hash, "r") && OneByteEach(idBytes) && IsAnswer(MIXED_REPORT, hash, idBytes, 2000, chunks, r)
    ensures r.Chunks? && |r.envelopes| == 3
  {
    assert Packable(MIXED_REPORT, 2000);
    MixedNeedsThree(chunks);
    assert 3 < Pow10(14) by { Pow10Grows(14); }
    forall n | 1 <= n <= 3 ensures idBytes(SiblingId("r", hash, n, 3)) <= MAX_CORRELATION_ID_CHARS {
      SiblingLength("r", hash, 3, n);
    }
    SplitSucceeds(MIXED_REPORT, hash, idBytes, 2000, chunks, r);
  }

  lemma {:induction false} Pow10Grows(k: nat)
    ensures Pow10(k) > k
  {
    if k > 0 { Pow10Grows(k - 1); }
  }

  lemma ThirdTooLarge(b: Budget, x: Tagged, y: Tagged, z: Tagged)
    requires b.maxBytes < b.empty + x.item.size + y.item.size + z.item.size
    ensures !Fits(b, [x, y, z])
  {
    CostOfTwo(x, y);
    CostAppend([x, y], z);
    assert [x, y] + [z] == [x, y, z];
  }

  lemma FlatOfTwo(streams: Chunk)
    requires |streams| == 2
    ensures Flat(streams) == Tag(0, streams[0]) + Tag(1, streams[1])
  {
    assert FlatFrom(streams, 2) == [];
    assert FlatFrom(streams, 1) == Tag(1, streams[1]) + FlatFrom(streams, 2);
  }

  lemma ConcatOfTwo<T>(x: seq<T>, y: seq<T>)
    ensures Concat([x, y]) == x + y
  {
    assert Concat([x, y][1..][1..]) == [];
    assert Concat([x, y][1..]) == y;
  }

  lemma ConcatOfThree<T>(x: seq<T>, y: seq<T>, z: seq<T>)
    ensures Concat([x, y, z]) == x + y + z
  {
    ConcatOfTwo(y, z);
    assert [x, y, z][1..] == [y, z];
  }
}
