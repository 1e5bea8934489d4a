/**
 The report sanitizer: secret-looking tokens in free text are replaced, and
 everything else is copied byte for byte.
 */
module Redact {
  import opened TokenScanner
  import opened Utf8

  // ------------------------------------------------------------ token shapes

  predicate IsDigit(b: Byte) { '0' as int <= b <= '9' as int }

  predicate IsAlpha(b: Byte) { 'a' as int <= b <= 'z' as int || 'A' as int <= b <= 'Z' as int }

  predicate IsHex(b: Byte) { IsDigit(b) || 'a' as int <= b <= 'f' as int || 'A' as int <= b <= 'F' as int }

  const DASH: Byte := '-' as int
  const UNDERSCORE: Byte := '_' as int

  predicate IsTokenByte(b: Byte) { IsAlpha(b) || IsDigit(b) || b == DASH || b == UNDERSCORE }

  predicate AllHex(t: Bytes) { forall k :: 0 <= k < |t| ==> IsHex(t[k]) }

  function FirstDash(t: Bytes): (k: nat)
    ensures k <= |t| && (forall i :: 0 <= i < k ==> t[i] != DASH) && (k < |t| ==> t[k] == DASH)
  {
    if t == [] || t[0] == DASH then 0 else 1 + FirstDash(t[1..])
  }

  /** The stretches between dashes. */
  function Parts(t: Bytes): (parts: seq<Bytes>)
    ensures parts != []
  {
    var k := FirstDash(t);
    if k == |t| then [t] else [t[..k]] + Parts(t[k + 1..])
  }

  predicate PartsMatch(parts: seq<Bytes>, lens: seq<nat>) {
    |parts| == |lens| && forall i :: 0 <= i < |lens| ==> |parts[i]| == lens[i] && AllHex(parts[i])
  }

  const UUID_PARTS: seq<nat> := [8, 4, 4, 4, 12]

  predicate LooksLikeUuid(t: Bytes) {
    PartsMatch(Parts(t), UUID_PARTS)
  }

  predicate LooksLikeSecretToken(t: Bytes) {
    && |t| >= 24
    && (AllHex(t)
        || ((forall b :: b in t ==> IsTokenByte(b))
            && (exists b :: b in t && IsAlpha(b))
            && (exists b :: b in t && (IsDigit(b) || b == DASH || b == UNDERSCORE))))
  }

  predicate IsSecret(t: Bytes) {
    LooksLikeUuid(t) || LooksLikeSecretToken(t)
  }

  lemma PartsStep(t: Bytes, k: nat)
    requires k == FirstDash(t) < |t|
    ensures Parts(t) == [t[..k]] + Parts(t[k + 1..])
  {}

  lemma NoMoreParts(t: Bytes)
    requires FirstDash(t) == |t|
    ensures Parts(t) == [t]
  {}

  lemma MatchTail(first: Bytes, parts: seq<Bytes>, n: nat, lens: seq<nat>)
    ensures PartsMatch([first] + parts, [n] + lens) <==> |first| == n && AllHex(first) && PartsMatch(parts, lens)
  {
    if PartsMatch([first] + parts, [n] + lens) {
      assert ([first] + parts)[0] == first && ([n] + lens)[0] == n;
      forall i | 0 <= i < |lens| ensures |parts[i]| == lens[i] && AllHex(parts[i]) {
        assert parts[i] == ([first] + parts)[i + 1] && lens[i] == ([n] + lens)[i + 1];
      }
    }
  }

  /** One more group of a dashed pattern. */
  lemma MatchStepOnlyIf(t: Bytes, n: nat, lens: seq<nat>)
    requires |lens| > 0 && PartsMatch(Parts(t), [n] + lens)
    ensures |t| > n && AllHex(t[..n]) && t[n] == DASH && PartsMatch(Parts(t[n + 1..]), lens)
  {
    ManyPartsHaveDash(t);
    MatchFirstGroup(t, FirstDash(t), n, lens);
  }

  lemma MatchFirstGroup(t: Bytes, k: nat, n: nat, lens: seq<nat>)
    requires k == FirstDash(t) < |t| && PartsMatch(Parts(t), [n] + lens)
    ensures k == n && AllHex(t[..k]) && PartsMatch(Parts(t[k + 1..]), lens)
  {
    PartsStep(t, k);
    MatchSplit(Parts(t), t[..k], Parts(t[k + 1..]), n, lens);
  }

  lemma MatchSplit(whole: seq<Bytes>, first: Bytes, rest: seq<Bytes>, n: nat, lens: seq<nat>)
    requires whole == [first] + rest && PartsMatch(whole, [n] + lens)
    ensures |first| == n && AllHex(first) && PartsMatch(rest, lens)
  {
    MatchTail(first, rest, n, lens);
  }

  lemma ManyPartsHaveDash(t: Bytes)
    requires |Parts(t)| > 1
    ensures FirstDash(t) < |t|
  {
    if FirstDash(t) == |t| {
      NoMoreParts(t);
    }
  }

  lemma MatchStepIf(t: Bytes, n: nat, lens: seq<nat>)
    requires |t| > n && AllHex(t[..n]) && t[n] == DASH && PartsMatch(Parts(t[n + 1..]), lens)
    ensures PartsMatch(Parts(t), [n] + lens)
  {
    assert forall i :: 0 <= i < n ==> t[i] == t[..n][i];
    assert FirstDash(t) == n;
    PartsStep(t, n);
    MatchTail(t[..n], Parts(t[n + 1..]), n, lens);
  }

  lemma LastGroup(t: Bytes, n: nat)
    ensures PartsMatch(Parts(t), [n]) <==> |t| == n && AllHex(t)
  {
    var k := FirstDash(t);
    if k < |t| {
      PartsStep(t, k);
    } else {
      NoMoreParts(t);
    }
  }

  predicate HexBetween(t: Bytes, lo: nat, hi: nat)
    requires lo <= hi <= |t|
  {
    AllHex(t[lo..hi])
  }

  /** The dashed shape, written out: 36 bytes, dashes after 8, 13, 18 and 23, the rest hexadecimal. */
  predicate Dashed(t: Bytes) {
    && |t| == 36 && t[8] == t[13] == t[18] == t[23] == DASH
    && HexBetween(t, 0, 8) && HexBetween(t, 9, 13) && HexBetween(t, 14, 18) && HexBetween(t, 19, 23) && HexBetween(t, 24, 36)
  }

  lemma NextGroup(t: Bytes, lo: nat, n: nat, lens: seq<nat>)
    requires |lens| > 0 && lo <= |t| && PartsMatch(Parts(t[lo..]), [n] + lens)
    ensures lo + n < |t| && HexBetween(t, lo, lo + n) && t[lo + n] == DASH && PartsMatch(Parts(t[lo + n + 1..]), lens)
  {
    var u := t[lo..];
    MatchStepOnlyIf(u, n, lens);
    assert u[..n] == t[lo..lo + n] && u[n + 1..] == t[lo + n + 1..];
  }

  lemma LastGroups(t: Bytes)
    requires |t| >= 19 && PartsMatch(Parts(t[19..]), [4] + [12])
    ensures |t| == 36 && HexBetween(t, 19, 23) && t[23] == DASH && HexBetween(t, 24, 36)
  {
    NextGroup(t, 19, 4, [12]);
    LastGroup(t[24..], 12);
    assert t[24..] == t[24..36];
  }

  lemma FirstGroups(t: Bytes)
    requires LooksLikeUuid(t)
    ensures |t| > 13 && HexBetween(t, 0, 8) && t[8] == DASH && HexBetween(t, 9, 13) && t[13] == DASH
    ensures PartsMatch(Parts(t[14..]), [4] + [4, 12])
  {
    assert t[0..] == t && UUID_PARTS == [8] + ([4] + ([4] + [4, 12]));
    NextGroup(t, 0, 8, [4] + ([4] + [4, 12]));
    NextGroup(t, 9, 4, [4] + [4, 12]);
  }

  lemma UuidIsDashed(t: Bytes)
    requires LooksLikeUuid(t)
    ensures Dashed(t)
  {
    FirstGroups(t);
    NextGroup(t, 14, 4, [4, 12]);
    assert [4, 12] == [4] + [12];
    LastGroups(t);
  }

  lemma DashedIsUuid(t: Bytes)
    requires Dashed(t)
    ensures LooksLikeUuid(t)
  {
    assert t[24..] == t[24..36] && t[..8] == t[0..8];
    LastGroup(t[24..], 12);
    assert t[19..][5..] == t[24..] && t[19..][..4] == t[19..23] && [4] + [12] == [4, 12];
    MatchStepIf(t[19..], 4, [12]);
    assert t[14..][5..] == t[19..] && t[14..][..4] == t[14..18] && [4] + [4, 12] == [4, 4, 12];
    MatchStepIf(t[14..], 4, [4, 12]);
    assert t[9..][5..] == t[14..] && t[9..][..4] == t[9..13] && [4] + [4, 4, 12] == [4, 4, 4, 12];
    MatchStepIf(t[9..], 4, [4, 4, 12]);
    assert UUID_PARTS == [8] + [4, 4, 4, 12];
    MatchStepIf(t, 8, [4, 4, 4, 12]);
  }

  lemma UuidShape(t: Bytes)
    ensures LooksLikeUuid(t) <==> Dashed(t)
  {
    if LooksLikeUuid(t) {
      UuidIsDashed(t);
    }
    if Dashed(t) {
      DashedIsUuid(t);
    }
  }

  // ------------------------------------------------------------- redaction

  /** The bytes of "<redacted>". */
  const REDACTED: Bytes := [60, 114, 101, 100, 97, 99, 116, 101, 100, 62]

  function Redacted(text: Bytes): Bytes {
    Scrubbed(IsTokenByte, IsSecret, REDACTED, text)
  }

  method RedactSecrets(text: Bytes) returns (out: Bytes)
    ensures out == Redacted(text)
  {
    out := Scan(IsTokenByte, IsSecret, REDACTED, text);
  }

  /** The mark is fenced by angle brackets and too short to look secret. */
  lemma MarkIsGood()
    ensures GoodMark(IsTokenByte, IsSecret, REDACTED)
  {
    forall i, j | MaximalRun(IsTokenByte, REDACTED, i, j) ensures !IsSecret(REDACTED[i..j]) {
      ShortIsNoSecret(REDACTED[i..j]);
    }
  }

  lemma ShortIsNoSecret(t: Bytes)
    requires |t| < 24
    ensures !IsSecret(t)
  {
    UuidShape(t);
  }

  /** No maximal token run of the output looks secret. */
  lemma NoSecretSurvives(text: Bytes, i: int, j: int)
    requires MaximalRun(IsTokenByte, Redacted(text), i, j)
    ensures !IsSecret(Redacted(text)[i..j])
  {
    MarkIsGood();
    OutputHasNoSecret(IsTokenByte, IsSecret, REDACTED, text);
  }

  /** Redaction changes text exactly when one of its maximal token runs looks secret. */
  lemma RedactsExactlySecrets(text: Bytes)
    ensures Redacted(text) == text <==> forall i, j :: MaximalRun(IsTokenByte, text, i, j) ==> !IsSecret(text[i..j])
  {
    MarkIsGood();
    OutputHasNoSecret(IsTokenByte, IsSecret, REDACTED, text);
    if NoSecretRun(IsTokenByte, IsSecret, text) {
      CleanTextIsKept(IsTokenByte, IsSecret, REDACTED, text);
    }
  }

  lemma RedactIsIdempotent(text: Bytes)
    ensures Redacted(Redacted(text)) == Redacted(text)
  {
    MarkIsGood();
    OutputHasNoSecret(IsTokenByte, IsSecret, REDACTED, text);
    CleanTextIsKept(IsTokenByte, IsSecret, REDACTED, Redacted(text));
  }

  lemma RedactKeepsUtf8(text: Bytes)
    requires Valid(text)
    ensures Valid(Redacted(text))
  {
    KeepsUtf8(IsTokenByte, IsSecret, REDACTED, text);
  }
}
