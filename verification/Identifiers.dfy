/** Correlation identifiers: bounded length, lineages of sibling envelopes, and
    the children of one trace event.  SHA-256 is a given function. */
module Identifiers {
  import opened Basics
  import opened Packing

  const MAX_CORRELATION_ID_CHARS: nat := 256
  const LINEAGE_SUFFIX_RESERVE: nat := 40
  const HASH_LABEL := "~sha256:"
  const DIGEST_CHARS: nat := 64
  const MAX_THREAT_MATCHES: nat := 64

  // ------------------------------------------------------------ decimals

  function Digit(d: nat): char
    requires d < 10
  {
    '0' + d as char
  }

  function Decimal(n: nat): string {
    if n < 10 then [Digit(n)] else Decimal(n / 10) + [Digit(n % 10)]
  }

  function Pow10(k: nat): nat { if k == 0 then 1 else 10 * Pow10(k - 1) }

  lemma {:induction false} DecimalLength(n: nat, k: nat)
    requires 1 <= k && n < Pow10(k)
    ensures 1 <= |Decimal(n)| <= k
    decreases k
  {
    if n >= 10 {
      assert k > 1;
      DecimalLength(n / 10, k - 1);
    }
  }

  lemma {:induction false} DecimalInjective(m: nat, n: nat)
    requires Decimal(m) == Decimal(n)
    ensures m == n
  {
    DecimalNonEmpty(m / 10);
    DecimalNonEmpty(n / 10);
    if m >= 10 && n >= 10 {
      var a, b := Decimal(m), Decimal(n);
      assert a[..|a| - 1] == Decimal(m / 10) && b[..|b| - 1] == Decimal(n / 10);
      assert a[|a| - 1] == Digit(m % 10) && b[|b| - 1] == Digit(n % 10);
      DecimalInjective(m / 10, n / 10);
    } else {
      assert |Decimal(m)| == 1 <==> m < 10;
      assert |Decimal(n)| == 1 <==> n < 10;
      assert Decimal(m)[0] == Decimal(n)[0];
    }
  }

  lemma {:induction false} DecimalNonEmpty(n: nat)
    ensures |Decimal(n)| >= 1
  {}

  /** Wider numbers print at least as wide. */
  lemma {:induction false} DecimalMonotone(m: nat, n: nat)
    requires m <= n
    ensures |Decimal(m)| <= |Decimal(n)|
  {
    if n < 10 {
    } else if m < 10 {
      DecimalNonEmpty(n);
    } else {
      DecimalMonotone(m / 10, n / 10);
    }
  }

  /** Reads a decimal number. */
  function Parse(s: string): int {
    if s == [] then 0 else 10 * Parse(s[..|s| - 1]) + (s[|s| - 1] as int - '0' as int)
  }

  lemma {:induction false} DecimalParses(n: nat)
    ensures Parse(Decimal(n)) == n
  {
    if n < 10 {
      assert [Digit(n)][..0] == [];
    } else {
      DecimalParses(n / 10);
      assert Decimal(n)[..|Decimal(n)| - 1] == Decimal(n / 10);
    }
  }

  /** A hash with fixed-width output. */
  predicate DigestOk(hash: string -> string, s: string) { |hash(s)| == DIGEST_CHARS }

  /** A short identifier as it is; a long one cut to its start, marked and
      completed by its digest. */
  function BoundedCorrelationId(value: string, hash: string -> string): (r: string)
    requires DigestOk(hash, value)
    ensures |value| <= MAX_CORRELATION_ID_CHARS ==> r == value
    ensures |value| > MAX_CORRELATION_ID_CHARS ==> IsCut(r, value, hash, MAX_CORRELATION_ID_CHARS)
  {
    if |value| <= MAX_CORRELATION_ID_CHARS then value
    else value[..MAX_CORRELATION_ID_CHARS - |HASH_LABEL| - DIGEST_CHARS] + HASH_LABEL + hash(value)
  }

  function LineageRoot(original: string, hash: string -> string): (r: string)
    requires DigestOk(hash, original)
    ensures |original| <= MAX_CORRELATION_ID_CHARS - LINEAGE_SUFFIX_RESERVE ==> r == original
    ensures |original| > MAX_CORRELATION_ID_CHARS - LINEAGE_SUFFIX_RESERVE ==>
              IsCut(r, original, hash, MAX_CORRELATION_ID_CHARS - LINEAGE_SUFFIX_RESERVE)
  {
    if |original| <= MAX_CORRELATION_ID_CHARS - LINEAGE_SUFFIX_RESERVE then original
    else original[..MAX_CORRELATION_ID_CHARS - LINEAGE_SUFFIX_RESERVE - |HASH_LABEL| - DIGEST_CHARS] + HASH_LABEL + hash(original)
  }

  /** `r` has exactly `width` characters: a start of `value`, the label, and the
      digest of `value`. */
  predicate IsCut(r: string, value: string, hash: string -> string, width: nat) {
    && |r| == width && |r| >= |HASH_LABEL| + DIGEST_CHARS
    && r[..|r| - |HASH_LABEL| - DIGEST_CHARS] <= value
    && r[|r| - |HASH_LABEL| - DIGEST_CHARS..|r| - DIGEST_CHARS] == HASH_LABEL
    && r[|r| - DIGEST_CHARS..] == hash(value)
  }

  /** Identifiers that are cut stay apart when their digests do, and so do the
      roots of their lineages. */
  lemma CutIdsApart(a: string, b: string, hash: string -> string)
    requires DigestOk(hash, a) && DigestOk(hash, b) && hash(a) != hash(b)
    requires |a| > MAX_CORRELATION_ID_CHARS && |b| > MAX_CORRELATION_ID_CHARS
    ensures BoundedCorrelationId(a, hash) != BoundedCorrelationId(b, hash)
    ensures LineageRoot(a, hash) != LineageRoot(b, hash)
  {
    var x, y := LineageRoot(a, hash), LineageRoot(b, hash);
    assert x[|x| - DIGEST_CHARS..] != y[|y| - DIGEST_CHARS..];
  }

  function LineageChild(root: string, index: nat, total: nat): string {
    root + "::chunk-" + Decimal(index) + "-of-" + Decimal(total)
  }

  /** The identifier of chunk `index` of `total`, counted from one. */
  function SiblingId(original: string, hash: string -> string, index: nat, total: nat): string
    requires DigestOk(hash, original)
  {
    if total <= 1 then original
    else if index == 1 then LineageRoot(original, hash)
    else LineageChild(LineageRoot(original, hash), index, total)
  }

  lemma ChildLength(root: string, index: nat, total: nat)
    ensures |LineageChild(root, index, total)| == |root| + 12 + |Decimal(index)| + |Decimal(total)|
  {}

  lemma ChildrenDistinct(root: string, total: nat, i: nat, j: nat)
    requires i != j
    ensures LineageChild(root, i, total) != LineageChild(root, j, total)
  {
    var a, b := LineageChild(root, i, total), LineageChild(root, j, total);
    var at := |root| + 8;
    ChildLength(root, i, total);
    ChildLength(root, j, total);
    assert a[at..at + |Decimal(i)|] == Decimal(i);
    assert b[at..at + |Decimal(j)|] == Decimal(j);
    if a == b { DecimalInjective(i, j); }
  }

  lemma SiblingLength(original: string, hash: string -> string, total: nat, i: nat)
    requires DigestOk(hash, original) && 1 < total < Pow10(14) && 1 <= i <= total
    ensures |SiblingId(original, hash, i, total)| <= MAX_CORRELATION_ID_CHARS
    ensures i > 1 ==> |SiblingId(original, hash, i, total)| > |LineageRoot(original, hash)|
  {
    DecimalLength(i, 14);
    DecimalLength(total, 14);
    ChildLength(LineageRoot(original, hash), i, total);
  }

  /** What a sibling's identifier says: the first keeps the root, and every other
      one is the root, the word `chunk`, its own number and then the total. */
  lemma SiblingSays(original: string, hash: string -> string, index: nat, total: nat) returns (number: string, of: string)
    requires DigestOk(hash, original) && total > 1
    ensures SiblingId(original, hash, 1, total) == LineageRoot(original, hash)
    ensures index != 1 ==>
              SiblingId(original, hash, index, total) == LineageRoot(original, hash) + "::chunk-" + number + "-of-" + of
    ensures Parse(number) == index && Parse(of) == total
    ensures forall c :: c in number + of ==> '0' <= c <= '9'
  {
    number, of := Decimal(index), Decimal(total);
    DecimalParses(index);
    DecimalParses(total);
    DecimalDigits(index);
    DecimalDigits(total);
  }

  lemma {:induction false} DecimalDigits(n: nat)
    ensures forall c :: c in Decimal(n) ==> '0' <= c <= '9'
  {
    if n >= 10 { DecimalDigits(n / 10); }
  }

  /** The same for the children of one trace event, under the word `matches`. */
  lemma MatchesSay(original: string, index: nat, total: nat) returns (number: string, of: string)
    ensures MatchesValue(original, index, total) == original + "::matches-" + number + "-of-" + of
    ensures Parse(number) == index && Parse(of) == total
  {
    number, of := Decimal(index), Decimal(total);
    DecimalParses(index);
    DecimalParses(total);
  }

  /** Siblings of one report have distinct identifiers of at most 256
      characters, for any total below 10^14. */
  lemma SiblingsDistinct(original: string, hash: string -> string, total: nat, i: nat, j: nat)
    requires DigestOk(hash, original) && 1 < total < Pow10(14) && 1 <= i <= total && 1 <= j <= total
    ensures |SiblingId(original, hash, i, total)| <= MAX_CORRELATION_ID_CHARS
    ensures i != j ==> SiblingId(original, hash, i, total) != SiblingId(original, hash, j, total)
  {
    SiblingLength(original, hash, total, i);
    SiblingLength(original, hash, total, j);
    if i != j && i != 1 && j != 1 { ChildrenDistinct(LineageRoot(original, hash), total, i, j); }
  }

  // -------------------------------------------------------- threat matches

  /** What distinguishes the children of one trace event. */
  function MatchesValue(original: string, index: nat, total: nat): string {
    original + "::matches-" + Decimal(index) + "-of-" + Decimal(total)
  }

  function MatchesId(original: string, hash: string -> string, index: nat, total: nat): (r: string)
    requires DigestOk(hash, MatchesValue(original, index, total))
  {
    if total <= 1 then original else BoundedCorrelationId(MatchesValue(original, index, total), hash)
  }

  /** Every digest is 64 hexadecimal digits, so none contains a hyphen. */
  predicate Hexadecimal(digest: string) {
    |digest| == DIGEST_CHARS && forall i :: 0 <= i < |digest| ==> digest[i] != '-'
  }

  lemma ValuesDistinct(original: string, total: nat, i: nat, j: nat)
    requires i != j
    ensures MatchesValue(original, i, total) != MatchesValue(original, j, total)
  {
    var a, b := MatchesValue(original, i, total), MatchesValue(original, j, total);
    var at := |original| + 10;
    assert |a| == at + |Decimal(i)| + 4 + |Decimal(total)|;
    assert |b| == at + |Decimal(j)| + 4 + |Decimal(total)|;
    if a == b {
      assert a[at..at + |Decimal(i)|] == Decimal(i) && b[at..at + |Decimal(j)|] == Decimal(j);
      DecimalInjective(i, j);
    }
  }

  /** A value that was not cut ends in its counts, never in a digest. */
  lemma UncutIsNotCut(original: string, hash: string -> string, i: nat, total: nat, value: string)
    requires Hexadecimal(hash(value)) && |value| > MAX_CORRELATION_ID_CHARS && total < Pow10(14)
    ensures MatchesValue(original, i, total) != BoundedCorrelationId(value, hash)
  {
    var a, r := MatchesValue(original, i, total), BoundedCorrelationId(value, hash);
    DecimalLength(total, 14);
    var at := |a| - |Decimal(total)| - 1;
    assert a[at] == '-';
    forall p | |r| - DIGEST_CHARS <= p < |r| ensures r[p] != '-' {
      assert r[p] == hash(value)[p - (|r| - DIGEST_CHARS)];
    }
  }

  /** The children of one trace event have distinct identifiers within the
      limit, however long the event's own identifier is, unless two digests
      collide. */
  lemma MatchIdsDistinct(original: string, hash: string -> string, total: nat, i: nat, j: nat)
    requires 1 < total < Pow10(14) && 1 <= i <= total && 1 <= j <= total && i != j
    requires Hexadecimal(hash(MatchesValue(original, i, total))) && Hexadecimal(hash(MatchesValue(original, j, total)))
    requires hash(MatchesValue(original, i, total)) != hash(MatchesValue(original, j, total))
    ensures MatchesId(original, hash, i, total) != MatchesId(original, hash, j, total)
    ensures |MatchesId(original, hash, i, total)| <= MAX_CORRELATION_ID_CHARS
  {
    var a, b := MatchesValue(original, i, total), MatchesValue(original, j, total);
    if |a| > MAX_CORRELATION_ID_CHARS && |b| > MAX_CORRELATION_ID_CHARS {
      CutIdsApart(a, b, hash);
    } else if |a| > MAX_CORRELATION_ID_CHARS {
      UncutIsNotCut(original, hash, j, total, a);
    } else if |b| > MAX_CORRELATION_ID_CHARS {
      UncutIsNotCut(original, hash, i, total, b);
    } else {
      ValuesDistinct(original, total, i, j);
    }
  }

  /** Expands one event with many threat matches into children of at most 64
      matches each; every match is kept, in order, and the children are told
      apart by their identifiers. */
  method ExpandThreatMatches<T>(original: string, matches: seq<T>, hash: string -> string)
    returns (ids: seq<string>, children: seq<seq<T>>)
    requires forall s: string :: DigestOk(hash, s)
    ensures children != [] && Concat(children) == matches
    ensures forall i :: 0 <= i < |children| ==> |children[i]| <= MAX_THREAT_MATCHES
    ensures forall i :: 0 <= i < |children| - 1 ==> |children[i]| == MAX_THREAT_MATCHES
    ensures |matches| > 0 ==> children[|children| - 1] != []
    ensures |ids| == |children|
    ensures forall i :: 0 <= i < |ids| ==> ids[i] == MatchesId(original, hash, i + 1, |children|)
  {
    var total := Max(1, (|matches| + MAX_THREAT_MATCHES - 1) / MAX_THREAT_MATCHES);
    ids, children := [], [];
    var index := 0;
    while index < total
      invariant 0 <= index <= total && |children| == |ids| == index
      invariant Concat(children) == matches[..Min(index * MAX_THREAT_MATCHES, |matches|)]
      invariant forall i :: 0 <= i < |children| ==> |children[i]| <= MAX_THREAT_MATCHES
      invariant forall i :: 0 <= i < |children| && i + 1 < total ==> |children[i]| == MAX_THREAT_MATCHES
      invariant index > 0 && |matches| > 0 ==> children[index - 1] != []
      invariant forall i :: 0 <= i < index ==> ids[i] == MatchesId(original, hash, i + 1, total)
    {
      var from := Min(index * MAX_THREAT_MATCHES, |matches|);
      var to := Min((index + 1) * MAX_THREAT_MATCHES, |matches|);
      ConcatOne(children, matches[from..to]);
      assert matches[..to] == matches[..from] + matches[from..to];
      children := children + [matches[from..to]];
      ids := ids + [MatchesId(original, hash, index + 1, total)];
      index := index + 1;
    }
    assert matches[..|matches|] == matches;
  }

  // ------------------------------------------------------------------ bytes

  /** Bytes of a character in UTF-8. */
  function Utf8Width(c: char): nat {
    if c < '\U{80}' then 1 else if c < '\U{800}' then 2 else if c < '\U{10000}' then 3 else 4
  }

  /** Bytes of an identifier in UTF-8; characters that JSON escapes are not used. */
  function Utf8Length(s: string): nat {
    if s == [] then 0 else Utf8Length(s[..|s| - 1]) + Utf8Width(s[|s| - 1])
  }

  function Repeat(c: char, n: nat): (s: string)
    ensures |s| == n
  {
    seq(n, _ => c)
  }

  lemma {:induction false} RepeatBytes(c: char, n: nat)
    ensures Utf8Length(Repeat(c, n)) == n * Utf8Width(c)
  {
    if n > 0 {
      RepeatBytes(c, n - 1);
      assert Repeat(c, n)[..n - 1] == Repeat(c, n - 1);
    }
  }
}
