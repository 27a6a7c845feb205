/** Text as code points and as UTF-8 bytes (section 3 of RFC 3629). */
module Utf8 {

  /** A Unicode scalar value. */
  type Scalar = c: int | 0 <= c < 0xD800 || 0xE000 <= c < 0x11_0000

  type Octet = b: int | 0 <= b < 256

  /** A string, which the program holds as its UTF-8 bytes. */
  type Str = seq<Scalar>

  function Encode(c: Scalar): (bytes: seq<Octet>)
    ensures 1 <= |bytes| <= 4
    ensures c < 0x80 <==> bytes == [c]
    ensures c < 0x80 <==> bytes[0] < 0x80
    ensures !IsContinuation(bytes[0])
    ensures forall i | 0 < i < |bytes| :: IsContinuation(bytes[i])
  {
    if c < 0x80 then [c]
    else if c < 0x800 then [0xC0 + c / 0x40, 0x80 + c % 0x40]
    else if c < 0x1_0000 then [0xE0 + c / 0x1000, 0x80 + (c / 0x40) % 0x40, 0x80 + c % 0x40]
    else [0xF0 + c / 0x4_0000, 0x80 + (c / 0x1000) % 0x40, 0x80 + (c / 0x40) % 0x40, 0x80 + c % 0x40]
  }

  predicate IsContinuation(b: Octet) {
    0x80 <= b < 0xC0
  }

  function Bytes(s: Str): seq<Octet> {
    if s == [] then [] else Encode(s[0]) + Bytes(s[1..])
  }

  /** Whether a byte index is the end of the bytes or the start of a character, as the bytes tell. */
  predicate IsCharBoundary(bytes: seq<Octet>, i: nat) {
    i == 0 || i == |bytes| || (i < |bytes| && !IsContinuation(bytes[i]))
  }

  lemma {:induction false} BytesConcat(a: Str, b: Str)
    ensures Bytes(a + b) == Bytes(a) + Bytes(b)
  {
    if a == [] {
      assert a + b == b;
    } else {
      assert (a + b)[1..] == a[1..] + b;
      BytesConcat(a[1..], b);
    }
  }

  /** The byte offset of the k-th character. */
  function Offset(s: Str, k: nat): (i: nat)
    requires k <= |s|
  {
    |Bytes(s[..k])|
  }

  lemma OffsetSplits(s: Str, k: nat)
    requires k <= |s|
    ensures Bytes(s) == Bytes(s[..k]) + Bytes(s[k..])
    ensures Offset(s, k) <= |Bytes(s)| && (k < |s| ==> Offset(s, k) < |Bytes(s)|)
  {
    assert s[..k] + s[k..] == s;
    BytesConcat(s[..k], s[k..]);
  }

  lemma BytesNext(s: Str, k: nat)
    requires k < |s|
    ensures Bytes(s[..k + 1]) == Bytes(s[..k]) + Encode(s[k])
  {
    assert s[..k + 1] == s[..k] + [s[k]];
    BytesConcat(s[..k], [s[k]]);
    assert [s[k]][1..] == [];
  }

  lemma OffsetNext(s: Str, k: nat)
    requires k < |s|
    ensures Offset(s, k + 1) == Offset(s, k) + |Encode(s[k])|
  {
    BytesNext(s, k);
  }

  lemma OffsetInTail(s: Str, k: nat)
    requires 0 < k <= |s|
    ensures Offset(s, k) == |Encode(s[0])| + Offset(s[1..], k - 1)
  {
    assert s[..k][1..] == s[1..][..k - 1];
  }

  lemma OffsetInSuffix(s: Str, k: nat, n: nat)
    requires k + n <= |s|
    ensures Offset(s, k + n) == Offset(s, k) + Offset(s[k..], n)
  {
    assert s[..k + n] == s[..k] + s[k..][..n];
    BytesConcat(s[..k], s[k..][..n]);
  }

  lemma OffsetIsBoundary(s: Str, k: nat)
    requires k <= |s|
    ensures IsCharBoundary(Bytes(s), Offset(s, k))
    ensures k < |s| ==> Offset(s, k) < |Bytes(s)| && Bytes(s)[Offset(s, k)] == Encode(s[k])[0]
  {
    OffsetSplits(s, k);
  }

  /** Every byte index that looks like a boundary is the offset of some character. */
  lemma {:induction false} BoundaryIsOffset(s: Str, i: nat) returns (k: nat)
    requires i <= |Bytes(s)| && IsCharBoundary(Bytes(s), i)
    ensures k <= |s| && Offset(s, k) == i
  {
    if i == 0 {
      k := 0;
      assert s[..0] == [];
    } else {
      var n := |Encode(s[0])|;
      assert i < |Bytes(s)| ==> Bytes(s)[i] == Bytes(s[1..])[i - n];
      k := BoundaryIsOffset(s[1..], i - n);
      k := k + 1;
      OffsetInTail(s, k);
    }
  }

  /** The characters from a byte offset on. */
  function SuffixAt(s: Str, i: nat): (r: Str)
    requires i <= |Bytes(s)| && IsCharBoundary(Bytes(s), i)
  {
    if i == 0 then s
    else
      SuffixStep(s, i);
      SuffixAt(s[1..], i - |Encode(s[0])|)
  }

  lemma SuffixStep(s: Str, i: nat)
    requires 0 < i <= |Bytes(s)| && IsCharBoundary(Bytes(s), i)
    ensures s != [] && |Encode(s[0])| <= i && i - |Encode(s[0])| <= |Bytes(s[1..])| && IsCharBoundary(Bytes(s[1..]), i - |Encode(s[0])|)
  {
    var n := |Encode(s[0])|;
    assert n <= i < |Bytes(s)| ==> Bytes(s)[i] == Bytes(s[1..])[i - n];
  }

  lemma {:induction false} SuffixAtOffset(s: Str, k: nat)
    requires k <= |s|
    ensures Offset(s, k) <= |Bytes(s)| && IsCharBoundary(Bytes(s), Offset(s, k))
    ensures SuffixAt(s, Offset(s, k)) == s[k..]
  {
    OffsetSplits(s, k);
    OffsetIsBoundary(s, k);
    if k == 0 {
      assert s[..0] == [];
    } else {
      OffsetInTail(s, k);
      SuffixAtOffset(s[1..], k - 1);
      assert s[1..][k - 1..] == s[k..];
    }
  }

  /** A continuation byte follows a byte that is not ASCII. */
  lemma {:induction false} ContinuationFollows(s: Str, i: nat)
    requires i < |Bytes(s)| && IsContinuation(Bytes(s)[i])
    ensures i > 0 && Bytes(s)[i - 1] >= 0x80
  {
    var n := |Encode(s[0])|;
    if i < n {
      assert Bytes(s)[i] == Encode(s[0])[i];
      assert Bytes(s)[i - 1] == Encode(s[0])[i - 1];
    } else {
      assert Bytes(s)[i] == Bytes(s[1..])[i - n];
      ContinuationFollows(s[1..], i - n);
      assert Bytes(s)[i - 1] == Bytes(s[1..])[i - n - 1];
    }
  }

  /** The longest prefix of at most `maxLen` bytes that does not cut a character. */
  method SliceUpTo(s: Str, maxLen: nat) returns (end: nat, ghost k: nat)
    ensures k <= |s| && end == Offset(s, k) <= maxLen
    ensures maxLen >= |Bytes(s)| ==> end == |Bytes(s)|
    ensures forall j: nat | j <= |s| && Offset(s, j) <= maxLen :: Offset(s, j) <= end
  {
    var bytes := Bytes(s);
    if maxLen >= |bytes| {
      assert s[..|s|] == s;
      forall j: nat | j <= |s| ensures Offset(s, j) <= |bytes| { OffsetSplits(s, j); }
      return |bytes|, |s|;
    }
    end := maxLen;
    while !IsCharBoundary(bytes, end)
      invariant end <= maxLen
      invariant forall i | end < i <= maxLen :: !IsCharBoundary(bytes, i)
      decreases end
    {
      end := end - 1;
    }
    k := BoundaryIsOffset(s, end);
    forall j: nat | j <= |s| && Offset(s, j) <= maxLen ensures Offset(s, j) <= end { OffsetIsBoundary(s, j); }
  }
}
