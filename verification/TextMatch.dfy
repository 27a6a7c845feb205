/**
 Autocomplete matching: a scan over UTF-8 bytes for places where a token could
 start, and its agreement with a search over characters. The Unicode case
 tables are parameters, of which only the facts the scan relies on are assumed.
 */
module TextMatch {
  import opened Wrappers
  import opened Utf8

  /** The first character of a character's lower case. */
  type Lower = Scalar -> Scalar

  /** The case folding of a character, which may be several characters. */
  type Fold = Scalar -> seq<Scalar>

  const CAPITAL_I_WITH_DOT: Scalar := 0x130
  const KELVIN_SIGN: Scalar := 0x212A

  predicate IsAsciiUpper(c: int) { 0x41 <= c <= 0x5A }
  predicate IsAsciiLower(c: int) { 0x61 <= c <= 0x7A }

  /** ASCII letters lower-case as usual, other ASCII characters not at all; only
      two other characters lower-case into ASCII, to i and to k. */
  ghost predicate CasingFacts(lower: Lower) {
    && (forall c: Scalar | c < 0x80 :: lower(c) == if IsAsciiUpper(c) then c + 0x20 else c)
    && (forall c: Scalar | c >= 0x80 && c != CAPITAL_I_WITH_DOT && c != KELVIN_SIGN :: lower(c) >= 0x80)
    && lower(CAPITAL_I_WITH_DOT) == 0x69 && lower(KELVIN_SIGN) == 0x6B
  }

  /** Sets the bit that tells lower from upper case ASCII letters. */
  function DubiousToAsciiLower(b: Octet): Octet {
    if HasCaseBit(b) then b else b + 0x20
  }

  /** Bit 0x20 of a byte. */
  predicate HasCaseBit(b: Octet) {
    0x20 <= b < 0x40 || 0x60 <= b < 0x80 || 0xA0 <= b < 0xC0 || 0xE0 <= b
  }

  /** The ranges are those of the bytes with bit 0x20 set. */
  lemma CaseBitIsBitFive(b: Octet)
    ensures HasCaseBit(b) <==> b / 32 == 1 || b / 32 == 3 || b / 32 == 5 || b / 32 == 7
  {
  }

  // ----- looking for a possible start

  /** A byte where a character that lower-cases to `c` may start. */
  predicate IsCandidate(b: Octet, c: Scalar) {
    if c < 0x80 then
      var target := DubiousToAsciiLower(c);
      DubiousToAsciiLower(b) == target || b == if target == 0x69 then 0xC4 else if target == 0x6B then 0xE2 else 0xFF
    else b >= 0x80
  }

  method NextSearchCandidate(bytes: seq<Octet>, searchFor: Scalar) returns (r: Option<nat>)
    ensures r.Some? ==> r.value < |bytes| && IsCandidate(bytes[r.value], searchFor)
    ensures forall j | 0 <= j < (if r.Some? then r.value else |bytes|) :: !IsCandidate(bytes[j], searchFor)
  {
    var i := 0;
    if searchFor < 0x80 {
      var target := DubiousToAsciiLower(searchFor);
      var special := if target == 0x69 then 0xC4 else if target == 0x6B then 0xE2 else 0xFF;
      while i < |bytes|
        invariant 0 <= i <= |bytes|
        invariant forall j | 0 <= j < i :: !IsCandidate(bytes[j], searchFor)
      {
        var cur := bytes[i];
        if DubiousToAsciiLower(cur) == target || cur == special {
          return Some(i);
        }
        i := i + 1;
      }
    } else {
      while i < |bytes|
        invariant 0 <= i <= |bytes|
        invariant forall j | 0 <= j < i :: !IsCandidate(bytes[j], searchFor)
      {
        if bytes[i] >= 0x80 {
          return Some(i);
        }
        i := i + 1;
      }
    }
    return None;
  }

  /** A character that lower-cases to `lower(t)` starts with a candidate byte. */
  lemma CandidateIfSameLower(lower: Lower, c: Scalar, t: Scalar)
    requires CasingFacts(lower) && lower(c) == lower(t)
    ensures IsCandidate(Encode(c)[0], lower(t))
  {
    if c < 0x80 {
      assert lower(c) == if IsAsciiUpper(c) then c + 0x20 else c;
    }
  }

  /** The first candidate byte of a string is never inside a character. */
  lemma {:induction false} FirstCandidateIsBoundary(s: Str, c: Scalar, i: nat)
    requires i < |Bytes(s)| && IsCandidate(Bytes(s)[i], c)
    requires forall j | 0 <= j < i :: !IsCandidate(Bytes(s)[j], c)
    ensures IsCharBoundary(Bytes(s), i)
  {
    if IsContinuation(Bytes(s)[i]) {
      ContinuationFollows(s, i);
    }
  }

  /** Characters before the first candidate byte lower-case to something else. */
  lemma {:induction false} NothingSkipped(lower: Lower, s: Str, t: Scalar, k: nat, m: nat)
    requires CasingFacts(lower) && m < k <= |s|
    requires forall j | 0 <= j < Offset(s, k) && j < |Bytes(s)| :: !IsCandidate(Bytes(s)[j], lower(t))
    ensures lower(s[m]) != lower(t)
  {
    OffsetIsBoundary(s, m);
    OffsetGrows(s, m, k);
    if lower(s[m]) == lower(t) {
      CandidateIfSameLower(lower, s[m], t);
    }
  }

  lemma {:induction false} OffsetGrows(s: Str, m: nat, k: nat)
    requires m < k <= |s|
    ensures Offset(s, m) < Offset(s, k)
  {
    OffsetNext(s, k - 1);
    if m < k - 1 {
      OffsetGrows(s, m, k - 1);
    }
  }

  // ----- word boundaries

  /** The source subtracts with wrap-around and compares once. */
  predicate IsAsciiLowerAlpha(b: Octet) {
    (if b >= 0x61 then b - 0x61 else b + 256 - 0x61) <= 0x7A - 0x61
  }

  /** Not between an ASCII letter and a lower-case ASCII letter. */
  predicate OnBoundary(s: Str, k: nat)
    requires k < |s|
  {
    k == 0 || !IsAsciiLower(s[k]) || !(IsAsciiLower(s[k - 1]) || IsAsciiUpper(s[k - 1]))
  }

  /** The test on bytes is the test on characters. */
  method IsOnBoundary(s: Str, index: nat, ghost k: nat) returns (r: bool)
    requires k < |s| && index == Offset(s, k)
    ensures r == OnBoundary(s, k)
  {
    assert s[..0] == [];
    if k > 0 {
      OffsetGrows(s, 0, k);
    }
    if index == 0 {
      return true;
    }
    var bytes := Bytes(s);
    OffsetIsBoundary(s, k);
    LastByteBefore(s, k);
    if IsAsciiLowerAlpha(bytes[index]) {
      var prev := DubiousToAsciiLower(bytes[index - 1]);
      return !IsAsciiLowerAlpha(prev);
    }
    return true;
  }

  lemma LastByteBefore(s: Str, k: nat)
    requires 0 < k <= |s|
    ensures 0 < Offset(s, k) <= |Bytes(s)|
    ensures Bytes(s)[Offset(s, k) - 1] == Encode(s[k - 1])[|Encode(s[k - 1])| - 1]
  {
    OffsetSplits(s, k);
    BytesNext(s, k - 1);
  }

  // ----- comparing

  function FoldAll(fold: Fold, s: Str): seq<Scalar> {
    if s == [] then [] else fold(s[0]) + FoldAll(fold, s[1..])
  }

  /** Folding a string is folding its characters one after the other. */
  lemma {:induction false} FoldAllConcat(fold: Fold, a: Str, b: Str)
    ensures FoldAll(fold, a + b) == FoldAll(fold, a) + FoldAll(fold, b)
  {
    if a == [] {
      assert a + b == b;
    } else {
      assert (a + b)[1..] == a[1..] + b;
      FoldAllConcat(fold, a[1..], b);
    }
  }

  lemma FoldAllOfOne(fold: Fold, c: Scalar)
    ensures FoldAll(fold, [c]) == fold(c)
  {
    assert [c][1..] == [];
  }

  /** Where no character folds to several, folding pairs the characters one by one. */
  lemma {:induction false} FoldAllAt(fold: Fold, s: Str, i: nat)
    requires i < |s| && forall c | c in s :: |fold(c)| == 1
    ensures |FoldAll(fold, s)| == |s| && FoldAll(fold, s)[i] == fold(s[i])[0]
  {
    if |s| > 1 {
      FoldAllAt(fold, s[1..], if i == 0 then 0 else i - 1);
    } else {
      assert s == [s[0]];
      FoldAllOfOne(fold, s[0]);
    }
  }

  /** The source is no shorter in bytes, and begins with the token apart from case. */
  predicate Begins(fold: Fold, token: Str, source: Str) {
    |Bytes(source)| >= |Bytes(token)| && FoldAll(fold, token) <= FoldAll(fold, source)
  }

  method StringMatch(fold: Fold, token: Str, source: Str) returns (r: bool)
    ensures r == Begins(fold, token, source)
  {
    if |Bytes(source)| < |Bytes(token)| {
      return false;
    }
    var ti, si := FoldAll(fold, token), FoldAll(fold, source);
    var i := 0;
    while true
      invariant i <= |ti| && i <= |si| && ti[..i] == si[..i]
      decreases |ti| - i
    {
      if i == |ti| {
        return true;
      }
      if i == |si| || ti[i] != si[i] {
        return false;
      }
      i := i + 1;
    }
  }

  // ----- finding

  /** The token matches at the k-th character. */
  predicate MatchesAt(lower: Lower, fold: Fold, token: Str, src: Str, onlyBoundary: bool, k: nat)
    requires token != [] && k < |src|
  {
    && lower(src[k]) == lower(token[0])
    && (!onlyBoundary || OnBoundary(src, k))
    && Begins(fold, token, src[k..])
  }

  /** The token matches at none of the first k characters. */
  ghost predicate NoMatchBefore(lower: Lower, fold: Fold, token: Str, src: Str, onlyBoundary: bool, k: nat)
    requires token != [] && k <= |src|
  {
    k == 0 || (NoMatchBefore(lower, fold, token, src, onlyBoundary, k - 1) && !MatchesAt(lower, fold, token, src, onlyBoundary, k - 1))
  }

  lemma {:induction false} NoMatchMeansNone(lower: Lower, fold: Fold, token: Str, src: Str, onlyBoundary: bool, k: nat)
    requires token != [] && k <= |src| && NoMatchBefore(lower, fold, token, src, onlyBoundary, k)
    ensures forall j | 0 <= j < k :: !MatchesAt(lower, fold, token, src, onlyBoundary, j)
  {
    if k > 0 {
      NoMatchMeansNone(lower, fold, token, src, onlyBoundary, k - 1);
    }
  }

  /** The lower case of the first character and the byte length of that character. */
  function NextCodepointLower(lower: Lower, s: Str): (Scalar, nat)
    requires s != []
  {
    (lower(s[0]), |Encode(s[0])|)
  }

  /** True exactly when the token matches at some character. */
  method FindInString(lower: Lower, fold: Fold, token: Str, src: Str, onlyBoundary: bool) returns (r: bool)
    requires CasingFacts(lower) && token != []
    ensures r <==> exists k | 0 <= k < |src| :: MatchesAt(lower, fold, token, src, onlyBoundary, k)
  {
    if |Bytes(src)| < |Bytes(token)| {
      forall k | 0 <= k < |src| ensures !MatchesAt(lower, fold, token, src, onlyBoundary, k) {
        OffsetSplits(src, k);
      }
      return false;
    }
    var first := NextCodepointLower(lower, token).0;
    var offset := 0;
    ghost var k := 0;
    assert src[..0] == [];
    while true
      invariant 0 <= k <= |src| && offset == Offset(src, k)
      invariant NoMatchBefore(lower, fold, token, src, onlyBoundary, k)
      decreases |src| - k
    {
      // The candidate always lies inside `src`, so the bounds check that find_in_string makes on it can never fail.
      var candidate, k' := ScanFrom(lower, fold, token, src, onlyBoundary, first, offset, k);
      if candidate.None? {
        NoMatchMeansNone(lower, fold, token, src, onlyBoundary, |src|);
        return false;
      }
      offset := offset + candidate.value;
      var matches, width := CheckHere(lower, fold, token, src, onlyBoundary, offset, k');
      if matches {
        return true;
      }
      offset := offset + width;
      k := k' + 1;
    }
  }

  /** How far ahead the next candidate is; it starts a character, and nothing up to it matches. */
  method ScanFrom(lower: Lower, fold: Fold, token: Str, src: Str, onlyBoundary: bool, first: Scalar, offset: nat, ghost k: nat)
    returns (ahead: Option<nat>, ghost k': nat)
    requires CasingFacts(lower) && token != [] && first == lower(token[0])
    requires k <= |src| && offset == Offset(src, k) && NoMatchBefore(lower, fold, token, src, onlyBoundary, k)
    ensures k <= k' <= |src| && NoMatchBefore(lower, fold, token, src, onlyBoundary, k')
    ensures ahead.None? ==> k' == |src|
    ensures ahead.Some? ==> k' < |src| && offset + ahead.value == Offset(src, k') < |Bytes(src)|
  {
    SuffixAtOffset(src, k);
    var rest := SuffixAt(src, offset);
    ahead := NextSearchCandidate(Bytes(rest), first);
    if ahead.None? {
      NothingLeft(lower, fold, token, src, onlyBoundary, k);
      k' := |src|;
    } else {
      k' := Skip(lower, fold, token, src, onlyBoundary, k, ahead.value);
    }
  }

  /** Whether the token matches at a byte offset, and how wide the character there is. */
  method CheckHere(lower: Lower, fold: Fold, token: Str, src: Str, onlyBoundary: bool, offset: nat, ghost k: nat)
    returns (matches: bool, width: nat)
    requires token != [] && k < |src| && offset == Offset(src, k)
    requires NoMatchBefore(lower, fold, token, src, onlyBoundary, k)
    ensures matches ==> MatchesAt(lower, fold, token, src, onlyBoundary, k)
    ensures !matches ==> NoMatchBefore(lower, fold, token, src, onlyBoundary, k + 1)
    ensures offset + width == Offset(src, k + 1)
  {
    SuffixAtOffset(src, k);
    OffsetNext(src, k);
    var here := SuffixAt(src, offset);
    var next: Scalar;
    next, width := NextCodepointLower(lower, here).0, NextCodepointLower(lower, here).1;
    matches := false;
    if next == NextCodepointLower(lower, token).0 {
      matches := true;
      if onlyBoundary {
        matches := IsOnBoundary(src, offset, k);
      }
      if matches {
        matches := StringMatch(fold, token, here);
      }
    }
    assert matches == MatchesAt(lower, fold, token, src, onlyBoundary, k);
  }

  /** Without a candidate byte before the n-th character, none of the characters before it has the same lower case. */
  lemma {:induction false} NoneTheSame(lower: Lower, s: Str, t: Scalar, n: nat)
    requires CasingFacts(lower) && n <= |s|
    requires forall j | 0 <= j < Offset(s, n) && j < |Bytes(s)| :: !IsCandidate(Bytes(s)[j], lower(t))
    ensures forall i | 0 <= i < n :: lower(s[i]) != lower(t)
  {
    forall i | 0 <= i < n ensures lower(s[i]) != lower(t) {
      NothingSkipped(lower, s, t, n, i);
    }
  }

  /** A character with another lower case does not match. */
  lemma {:induction false} OthersDoNotMatch(lower: Lower, fold: Fold, token: Str, src: Str, onlyBoundary: bool, k: nat, m: nat)
    requires token != [] && k <= m <= |src|
    requires NoMatchBefore(lower, fold, token, src, onlyBoundary, k)
    requires forall i | k <= i < m :: lower(src[i]) != lower(token[0])
    ensures NoMatchBefore(lower, fold, token, src, onlyBoundary, m)
  {
    if k < m {
      OthersDoNotMatch(lower, fold, token, src, onlyBoundary, k, m - 1);
      OtherDoesNotMatch(lower, fold, token, src, onlyBoundary, m - 1);
    }
  }

  lemma OtherDoesNotMatch(lower: Lower, fold: Fold, token: Str, src: Str, onlyBoundary: bool, k: nat)
    requires token != [] && k < |src| && lower(src[k]) != lower(token[0])
    ensures NoMatchBefore(lower, fold, token, src, onlyBoundary, k) ==> NoMatchBefore(lower, fold, token, src, onlyBoundary, k + 1)
  {
  }

  lemma {:induction false} NothingLeft(lower: Lower, fold: Fold, token: Str, src: Str, onlyBoundary: bool, k: nat)
    requires CasingFacts(lower) && token != [] && k <= |src|
    requires NoMatchBefore(lower, fold, token, src, onlyBoundary, k)
    requires forall j | 0 <= j < |Bytes(src[k..])| :: !IsCandidate(Bytes(src[k..])[j], lower(token[0]))
    ensures NoMatchBefore(lower, fold, token, src, onlyBoundary, |src|)
  {
    NoneTheSame(lower, src[k..], token[0], |src| - k);
    assert forall i | k <= i < |src| :: src[i] == src[k..][i - k];
    OthersDoNotMatch(lower, fold, token, src, onlyBoundary, k, |src|);
  }

  /** The first candidate byte after the k-th character starts a character, and nothing before it matches. */
  lemma {:induction false} Skip(lower: Lower, fold: Fold, token: Str, src: Str, onlyBoundary: bool, k: nat, i: nat) returns (k': nat)
    requires CasingFacts(lower) && token != [] && k <= |src|
    requires NoMatchBefore(lower, fold, token, src, onlyBoundary, k)
    requires i < |Bytes(src[k..])| && IsCandidate(Bytes(src[k..])[i], lower(token[0]))
    requires forall j | 0 <= j < i :: !IsCandidate(Bytes(src[k..])[j], lower(token[0]))
    ensures k <= k' < |src| && Offset(src, k) + i == Offset(src, k') < |Bytes(src)|
    ensures NoMatchBefore(lower, fold, token, src, onlyBoundary, k')
  {
    var rest := src[k..];
    FirstCandidateIsBoundary(rest, lower(token[0]), i);
    var n := BoundaryIsOffset(rest, i);
    assert n < |rest| by {
      assert rest[..|rest|] == rest;
    }
    k' := k + n;
    NoneTheSame(lower, rest, token[0], n);
    assert forall i | k <= i < k' :: src[i] == rest[i - k];
    OthersDoNotMatch(lower, fold, token, src, onlyBoundary, k, k');
    OffsetInSuffix(src, k, n);
    OffsetSplits(src, k');
  }
}
