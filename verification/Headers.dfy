/**
 The list of HTTP headers of a request or response: inserting, extending, and
 building the list in one go by a stable sort, a reversal and a removal of
 repeated names. Names are held lower-cased, so they are compared as they are.
 */
module Headers {
  import opened Wrappers
  import opened TextOrder

  datatype Header = Header(name: string, value: string)

  // ----- header values

  predicate IsWhitespace(c: char) {
    || '\t' <= c <= '\r' || c == ' ' || c == 0x85 as char || c == 0xA0 as char || c == 0x1680 as char
    || 0x2000 as char <= c <= 0x200A as char || c == 0x2028 as char || c == 0x2029 as char
    || c == 0x202F as char || c == 0x205F as char || c == 0x3000 as char
  }

  function Trim(s: string): string {
    if s == "" then s
    else if IsWhitespace(s[0]) then Trim(s[1..])
    else if IsWhitespace(s[|s| - 1]) then Trim(s[..|s| - 1])
    else s
  }

  /** `r` is the part of `s` from `a` to `b`, with whitespace around it and none at its ends. */
  ghost predicate IsBetween(s: string, a: nat, b: nat, r: string) {
    && a <= b <= |s| && r == s[a..b]
    && (forall i | 0 <= i < a :: IsWhitespace(s[i])) && (forall i | b <= i < |s| :: IsWhitespace(s[i]))
    && (a < b ==> !IsWhitespace(s[a]) && !IsWhitespace(s[b - 1]))
  }

  lemma BetweenTail(s: string, a: nat, b: nat, r: string)
    requires s != "" && IsWhitespace(s[0]) && IsBetween(s[1..], a, b, r)
    ensures IsBetween(s, a + 1, b + 1, r)
  {
    var t := s[1..];
    assert forall i | 0 <= i < |t| :: t[i] == s[i + 1];
    assert forall i | 0 < i < |s| :: s[i] == t[i - 1];
    assert t[a..b] == s[a + 1..b + 1];
  }

  lemma BetweenInit(s: string, a: nat, b: nat, r: string)
    requires s != "" && IsWhitespace(s[|s| - 1]) && IsBetween(s[..|s| - 1], a, b, r)
    ensures IsBetween(s, a, b, r)
  {
    assert s[..|s| - 1][a..b] == s[a..b];
  }

  /** The trimmed string is the part between the first and the last character that
      is not whitespace; all of it goes if there is none. */
  lemma {:induction false} TrimIsBetween(s: string) returns (a: nat, b: nat)
    ensures IsBetween(s, a, b, Trim(s))
    decreases |s|
  {
    if s == "" {
      a, b := 0, 0;
    } else if IsWhitespace(s[0]) {
      a, b := TrimIsBetween(s[1..]);
      BetweenTail(s, a, b, Trim(s));
      a, b := a + 1, b + 1;
    } else if IsWhitespace(s[|s| - 1]) {
      a, b := TrimIsBetween(s[..|s| - 1]);
      BetweenInit(s, a, b, Trim(s));
    } else {
      a, b := 0, |s|;
      assert s[0..|s|] == s;
    }
  }

  predicate IsValidChar(c: char) {
    ' ' <= c <= '~' || c == '\t'
  }

  predicate IsValidValue(s: string) {
    forall i :: 0 <= i < |s| ==> IsValidChar(s[i])
  }

  /** What a header's value looks like once it is stored. */
  predicate Storable(s: string) {
    IsValidValue(s) && Trim(s) == s
  }

  lemma {:induction false} TrimmedIsStorable(s: string)
    ensures Trim(Trim(s)) == Trim(s)
    ensures IsValidValue(s) ==> Storable(Trim(s))
    decreases |s|
  {
    if s != "" && IsWhitespace(s[0]) {
      TrimmedIsStorable(s[1..]);
    } else if s != "" && IsWhitespace(s[|s| - 1]) {
      TrimmedIsStorable(s[..|s| - 1]);
    }
  }

  /** Trimming only removes characters, so what is accepted as it stands is
      accepted trimmed; a trailing line break is accepted only trimmed. */
  lemma TrimmingAcceptsMore()
    ensures forall s: string :: IsValidValue(s) ==> IsValidValue(Trim(s))
    ensures exists s: string :: IsValidValue(Trim(s)) && !IsValidValue(s)
  {
    forall s: string | IsValidValue(s)
      ensures IsValidValue(Trim(s))
    {
      TrimmedIsStorable(s);
    }
    var s := "a\n";
    assert Trim(s[..1]) == "a" && IsWhitespace(s[1]);
    assert IsValidValue(Trim(s)) && !IsValidChar(s[1]);
  }

  // ----- what a list of headers means

  /** The value found under a name: that of the first header so named. */
  function Get(hs: seq<Header>, name: string): Option<string> {
    if hs == [] then None
    else Over(Get(hs[..|hs| - 1], name), Alone(hs[|hs| - 1], name))
  }

  /** The value under a name when later headers replace earlier ones. */
  function LastValue(hs: seq<Header>, name: string): Option<string> {
    if hs == [] then None
    else Over(Alone(hs[|hs| - 1], name), LastValue(hs[..|hs| - 1], name))
  }

  function Alone(h: Header, name: string): Option<string> {
    if h.name == name then Some(h.value) else None
  }

  /** The first where it says something, else the second. */
  function Over(first: Option<string>, second: Option<string>): Option<string> {
    if first.Some? then first else second
  }

  function Names(hs: seq<Header>): (r: seq<string>)
    ensures |r| == |hs|
  {
    if hs == [] then [] else Names(hs[..|hs| - 1]) + [hs[|hs| - 1].name]
  }

  predicate Distinct(names: seq<string>) {
    names == [] || (Distinct(names[..|names| - 1]) && names[|names| - 1] !in names[..|names| - 1])
  }

  lemma {:induction false} GetConcat(a: seq<Header>, b: seq<Header>, name: string)
    ensures Get(a + b, name) == Over(Get(a, name), Get(b, name))
  {
    if b == [] {
      assert a + b == a;
    } else {
      assert (a + b)[..|a + b| - 1] == a + b[..|b| - 1];
      GetConcat(a, b[..|b| - 1], name);
    }
  }

  lemma {:induction false} NamesConcat(a: seq<Header>, b: seq<Header>)
    ensures Names(a + b) == Names(a) + Names(b)
  {
    if b == [] {
      assert a + b == a;
    } else {
      assert (a + b)[..|a + b| - 1] == a + b[..|b| - 1];
      NamesConcat(a, b[..|b| - 1]);
    }
  }

  lemma {:induction false} FoundIffNamed(hs: seq<Header>, name: string)
    ensures Get(hs, name).Some? <==> name in Names(hs)
    ensures LastValue(hs, name).Some? <==> name in Names(hs)
  {
    if hs != [] {
      FoundIffNamed(hs[..|hs| - 1], name);
    }
  }

  // ----- one header inserted or updated

  ghost predicate SetsOne(before: seq<Header>, after: seq<Header>, h: Header) {
    && Names(after) == Names(before) + (if h.name in Names(before) then [] else [h.name])
    && forall name: string :: Get(after, name) == Over(Alone(h, name), Get(before, name))
  }

  lemma AppendSetsOne(hs: seq<Header>, h: Header)
    requires h.name !in Names(hs)
    ensures SetsOne(hs, hs + [h], h)
  {
    assert (hs + [h])[..|hs|] == hs;
    FoundIffNamed(hs, h.name);
  }

  lemma {:induction false} UpdateGets(a: seq<Header>, h: Header, value: string, b: seq<Header>, name: string)
    requires Get(a, h.name).None?
    ensures Get(a + [Header(h.name, value)] + b, name) == Over(Alone(Header(h.name, value), name), Get(a + [h] + b, name))
  {
    GetConcat(a + [h], b, name);
    GetConcat(a + [Header(h.name, value)], b, name);
    GetConcat(a, [h], name);
    GetConcat(a, [Header(h.name, value)], name);
  }

  lemma {:induction false} UpdateKeepsNames(a: seq<Header>, h: Header, value: string, b: seq<Header>)
    ensures Names(a + [Header(h.name, value)] + b) == Names(a + [h] + b)
    ensures h.name in Names(a + [h] + b)
  {
    NamesConcat(a + [h], b);
    NamesConcat(a + [Header(h.name, value)], b);
    NamesConcat(a, [h]);
    NamesConcat(a, [Header(h.name, value)]);
    assert Names(a + [h] + b)[|a|] == h.name;
  }

  lemma UpdateSetsOne(hs: seq<Header>, i: nat, value: string)
    requires i < |hs| && Get(hs[..i], hs[i].name).None?
    ensures SetsOne(hs, hs[i := hs[i].(value := value)], hs[i].(value := value))
  {
    var a, h, b := hs[..i], hs[i], hs[i + 1..];
    assert hs == a + [h] + b && hs[i := h.(value := value)] == a + [Header(h.name, value)] + b;
    UpdateKeepsNames(a, h, value, b);
    forall name: string {
      UpdateGets(a, h, value, b, name);
    }
  }

  lemma DistinctAfterSetsOne(before: seq<Header>, after: seq<Header>, h: Header)
    requires Distinct(Names(before)) && SetsOne(before, after, h)
    ensures Distinct(Names(after))
  {
    if h.name in Names(before) {
      assert Names(after) == Names(before);
    } else {
      assert Names(after)[..|Names(after)| - 1] == Names(before);
    }
  }

  // ----- sorting by name

  ghost predicate Ascending(hs: seq<Header>) {
    forall i, j :: 0 <= i < j < |hs| ==> AtMost(hs[i].name, hs[j].name)
  }

  /** The headers of one name, in order. */
  function Named(hs: seq<Header>, name: string): seq<Header> {
    if hs == [] then []
    else Named(hs[..|hs| - 1], name) + if hs[|hs| - 1].name == name then [hs[|hs| - 1]] else []
  }

  lemma {:induction false} NamedConcat(a: seq<Header>, b: seq<Header>, name: string)
    ensures Named(a + b, name) == Named(a, name) + Named(b, name)
  {
    if b == [] {
      assert a + b == a;
    } else {
      assert (a + b)[..|a + b| - 1] == a + b[..|b| - 1];
      NamedConcat(a, b[..|b| - 1], name);
    }
  }

  /** `sorted` is the stable sort of `hs` by name: in order of name, and each
      name has the same headers in the same order (hence a permutation). */
  ghost predicate IsStableSort(hs: seq<Header>, sorted: seq<Header>) {
    && Ascending(sorted)
    && forall name: string :: Named(sorted, name) == Named(hs, name)
  }

  lemma {:induction false} LastValueOfNamed(hs: seq<Header>, name: string)
    ensures LastValue(hs, name) == var some := Named(hs, name);
      if some == [] then None else Some(some[|some| - 1].value)
  {
    if hs != [] {
      LastValueOfNamed(hs[..|hs| - 1], name);
    }
  }

  function Reversed(hs: seq<Header>): seq<Header> {
    if hs == [] then [] else [hs[|hs| - 1]] + Reversed(hs[..|hs| - 1])
  }

  lemma {:induction false} ReversedGetsLast(hs: seq<Header>, name: string)
    ensures Get(Reversed(hs), name) == LastValue(hs, name)
  {
    if hs != [] {
      var h, r := hs[|hs| - 1], Reversed(hs[..|hs| - 1]);
      ReversedGetsLast(hs[..|hs| - 1], name);
      GetConcat([h], r, name);
    }
  }

  lemma {:induction false} InsertInOrder(hs: seq<Header>, i: nat, h: Header)
    requires i <= |hs| && Ascending(hs)
    requires i > 0 ==> AtMost(hs[i - 1].name, h.name)
    requires i < |hs| ==> !AtMost(hs[i].name, h.name)
    ensures Ascending(hs[..i] + [h] + hs[i..])
  {
    forall k | 0 <= k < i
      ensures AtMost(hs[k].name, h.name)
    {
      if k < i - 1 {
        AtMostIsTransitive(hs[k].name, hs[i - 1].name, h.name);
      }
    }
    forall k | i <= k < |hs|
      ensures AtMost(h.name, hs[k].name)
    {
      LaterIsAbove(hs, i, k, h.name);
    }
  }

  lemma {:induction false} LaterIsAbove(hs: seq<Header>, i: nat, k: nat, name: string)
    requires i <= k < |hs| && Ascending(hs) && !AtMost(hs[i].name, name)
    ensures AtMost(name, hs[k].name) && name != hs[k].name
  {
    AtMostIsTotal(hs[i].name, name);
    if i < k {
      AtMostIsTransitive(name, hs[i].name, hs[k].name);
      AtMostIsTotal(hs[i].name, hs[k].name);
    }
  }

  lemma {:induction false} NoneNamed(hs: seq<Header>, name: string)
    requires forall h <- hs :: h.name != name
    ensures Named(hs, name) == []
  {
    if hs != [] {
      NoneNamed(hs[..|hs| - 1], name);
    }
  }

  lemma {:induction false} InsertKeepsNamed(hs: seq<Header>, i: nat, h: Header, name: string)
    requires i <= |hs| && Ascending(hs) && (i < |hs| ==> !AtMost(hs[i].name, h.name))
    ensures Named(hs[..i] + [h] + hs[i..], name) == Named(hs, name) + Named([h], name)
  {
    assert hs == hs[..i] + hs[i..];
    NamedConcat(hs[..i], hs[i..], name);
    NamedConcat(hs[..i] + [h], hs[i..], name);
    NamedConcat(hs[..i], [h], name);
    if name == h.name {
      forall k | i <= k < |hs|
        ensures hs[k].name != name
      {
        LaterIsAbove(hs, i, k, name);
      }
      NoneNamed(hs[i..], name);
    }
  }

  /** A stable sort by name. */
  method SortByName(hs: seq<Header>) returns (sorted: seq<Header>)
    ensures IsStableSort(hs, sorted)
  {
    sorted := [];
    for n := 0 to |hs|
      invariant IsStableSort(hs[..n], sorted)
    {
      var i := |sorted|;
      while i > 0 && !AtMost(sorted[i - 1].name, hs[n].name)
        invariant 0 <= i <= |sorted|
        invariant i < |sorted| ==> !AtMost(sorted[i].name, hs[n].name)
      {
        i := i - 1;
      }
      InsertInOrder(sorted, i, hs[n]);
      forall name: string
        ensures Named(sorted[..i] + [hs[n]] + sorted[i..], name) == Named(hs[..n + 1], name)
      {
        InsertKeepsNamed(sorted, i, hs[n], name);
        assert hs[..n + 1] == hs[..n] + [hs[n]];
        NamedConcat(hs[..n], [hs[n]], name);
      }
      sorted := sorted[..i] + [hs[n]] + sorted[i..];
    }
    assert hs[..|hs|] == hs;
  }

  lemma {:induction false} ReversedAt(hs: seq<Header>, i: nat)
    requires i < |hs|
    ensures |Reversed(hs)| == |hs| && Reversed(hs)[i] == hs[|hs| - 1 - i]
  {
    if |hs| > 1 {
      ReversedAt(hs[..|hs| - 1], if i == 0 then 0 else i - 1);
    }
  }

  // ----- removing repeated names

  ghost predicate Descending(hs: seq<Header>) {
    forall i, j :: 0 <= i < j < |hs| ==> AtMost(hs[j].name, hs[i].name)
  }

  lemma ReversedDescends(hs: seq<Header>)
    requires Ascending(hs)
    ensures Descending(Reversed(hs))
  {
    var r := Reversed(hs);
    if hs != [] {
      ReversedAt(hs, 0);
    }
    forall i | 0 <= i < |r|
      ensures r[i] == hs[|hs| - 1 - i]
    {
      ReversedAt(hs, i);
    }
  }

  /** The headers that are not named like the one before them. */
  ghost function RunHeads(hs: seq<Header>): seq<Header> {
    if hs == [] then []
    else
      var n := |hs| - 1;
      RunHeads(hs[..n]) + if n > 0 && hs[n - 1].name == hs[n].name then [] else [hs[n]]
  }

  /** What removing repeats keeps of a list. */
  ghost predicate SameMeaning(hs: seq<Header>, kept: seq<Header>) {
    && kept == RunHeads(hs)
    && forall name: string :: Get(kept, name) == Get(hs, name)
  }

  lemma {:induction false} NewNameIsNew(hs: seq<Header>, n: nat, kept: seq<Header>)
    requires n < |hs| && Descending(hs) && SameMeaning(hs[..n], kept)
    requires n > 0 ==> hs[n - 1].name != hs[n].name
    ensures hs[n].name !in Names(kept)
  {
    FoundIffNamed(kept, hs[n].name);
    FoundIffNamed(hs[..n], hs[n].name);
    if hs[n].name in Names(hs[..n]) {
      var k := NameIsAt(hs[..n], hs[n].name);
      AtMostIsTotal(hs[n - 1].name, hs[n].name);
      assert false;
    }
  }

  lemma {:induction false} NameIsAt(hs: seq<Header>, name: string) returns (k: nat)
    requires name in Names(hs)
    ensures k < |hs| && hs[k].name == name
  {
    if hs[|hs| - 1].name == name {
      k := |hs| - 1;
    } else {
      k := NameIsAt(hs[..|hs| - 1], name);
    }
  }

  lemma KeepOne(hs: seq<Header>, n: nat, kept: seq<Header>)
    requires n < |hs| && SameMeaning(hs[..n], kept) && (n > 0 ==> hs[n - 1].name != hs[n].name)
    ensures SameMeaning(hs[..n + 1], kept + [hs[n]])
    ensures Descending(hs) && Distinct(Names(kept)) ==> Distinct(Names(kept + [hs[n]]))
  {
    var longer := hs[..n + 1];
    assert longer[..n] == hs[..n] && longer[n] == hs[n] && (kept + [hs[n]])[..|kept|] == kept;
    assert RunHeads(longer) == kept + [hs[n]];
    forall name: string ensures Get(kept + [hs[n]], name) == Get(longer, name) {
    }
    if Descending(hs) && Distinct(Names(kept)) {
      NewNameIsNew(hs, n, kept);
      AppendIsDistinct(Names(kept), hs[n].name);
    }
  }

  lemma SkipOne(hs: seq<Header>, n: nat, kept: seq<Header>)
    requires 0 < n < |hs| && SameMeaning(hs[..n], kept) && hs[n].name in Names(kept) && hs[n - 1].name == hs[n].name
    ensures SameMeaning(hs[..n + 1], kept)
  {
    assert hs[..n + 1][..n] == hs[..n];
    FoundIffNamed(kept, hs[n].name);
  }

  lemma AppendIsDistinct(names: seq<string>, name: string)
    requires Distinct(names) && name !in names
    ensures Distinct(names + [name])
  {
    assert (names + [name])[..|names|] == names;
  }

  /** Drop every header named like the last one kept. */
  method DedupByName(hs: seq<Header>) returns (kept: seq<Header>)
    ensures SameMeaning(hs, kept)
    ensures Descending(hs) ==> Distinct(Names(kept))
  {
    kept := [];
    for n := 0 to |hs|
      invariant SameMeaning(hs[..n], kept)
      invariant Descending(hs) ==> Distinct(Names(kept))
      invariant n > 0 ==> kept != [] && kept[|kept| - 1].name == hs[n - 1].name
    {
      if kept == [] || kept[|kept| - 1].name != hs[n].name {
        KeepOne(hs, n, kept);
        kept := kept + [hs[n]];
      } else {
        assert hs[n].name == Names(kept)[|kept| - 1];
        SkipOne(hs, n, kept);
      }
    }
    assert hs[..|hs|] == hs;
  }

  lemma {:induction false} BuiltGetsLast(hs: seq<Header>, sorted: seq<Header>, name: string)
    requires IsStableSort(hs, sorted)
    ensures Get(Reversed(sorted), name) == LastValue(hs, name)
  {
    ReversedGetsLast(sorted, name);
    LastValueOfNamed(sorted, name);
    LastValueOfNamed(hs, name);
  }

  // ----- extending

  /** `after` is `before` with every header of `added` put in, in order. */
  ghost predicate SetsAll(before: seq<Header>, after: seq<Header>, added: seq<Header>) {
    && Names(before) <= Names(after)
    && forall name: string :: Get(after, name) == Over(LastValue(added, name), Get(before, name))
  }

  lemma SetsOneMore(before: seq<Header>, middle: seq<Header>, after: seq<Header>, added: seq<Header>, n: nat)
    requires n < |added| && SetsAll(before, middle, added[..n]) && SetsOne(middle, after, added[n])
    ensures SetsAll(before, after, added[..n + 1])
  {
    assert added[..n + 1][..n] == added[..n];
  }

  class HeaderList {
    var headers: seq<Header>

    ghost predicate Valid()
      reads this
    {
      Distinct(Names(headers))
    }

    constructor ()
      ensures Valid() && headers == []
    {
      headers := [];
    }

    /** Build the list in one go. */
    constructor FromIter(hs: seq<Header>)
      ensures Valid()
      ensures forall name: string :: Get(headers, name) == LastValue(hs, name)
    {
      var sorted := SortByName(hs);
      ReversedDescends(sorted);
      var kept := DedupByName(Reversed(sorted));
      headers := kept;
      forall name: string
        ensures Get(kept, name) == LastValue(hs, name)
      {
        BuiltGetsLast(hs, sorted, name);
      }
    }

    method Find(name: string) returns (i: nat)
      ensures i <= |headers| && Get(headers[..i], name).None?
      ensures if i == |headers| then name !in Names(headers) else headers[i].name == name
    {
      i := 0;
      while i < |headers| && headers[i].name != name
        invariant i <= |headers| && Get(headers[..i], name).None?
      {
        assert headers[..i + 1][..i] == headers[..i];
        i := i + 1;
      }
      assert headers[..|headers|] == headers;
      FoundIffNamed(headers, name);
    }

    method InsertHeader(h: Header)
      requires Valid()
      modifies this
      ensures Valid() && SetsOne(old(headers), headers, h)
    {
      var i := Find(h.name);
      if i < |headers| {
        UpdateSetsOne(headers, i, h.value);
        headers := headers[i := headers[i].(value := h.value)];
      } else {
        AppendSetsOne(headers, h);
        headers := headers + [h];
      }
      DistinctAfterSetsOne(old(headers), headers, h);
    }

    /** Insert or update with a checked value. A new header's value is trimmed
        before it is checked, a replaced one after. */
    method Insert(name: string, value: string) returns (ok: bool)
      requires Valid()
      modifies this
      ensures Valid()
      ensures ok == IsValidValue(if name in Names(old(headers)) then value else Trim(value))
      ensures ok ==> Storable(Trim(value)) && SetsOne(old(headers), headers, Header(name, Trim(value)))
      ensures !ok ==> headers == old(headers)
    {
      TrimmedIsStorable(value);
      TrimmedIsStorable(Trim(value));
      var i := Find(name);
      FoundIffNamed(headers, name);
      if i < |headers| {
        FirstIsNamed(headers, i);
        ok := IsValidValue(value);
      } else {
        ok := IsValidValue(Trim(value));
      }
      if ok {
        InsertHeader(Header(name, Trim(value)));
      }
    }

    method InsertIfMissing(name: string, value: string) returns (ok: bool)
      requires Valid()
      modifies this
      ensures Valid()
      ensures name in Names(old(headers)) ==> ok && headers == old(headers)
      ensures name !in Names(old(headers)) ==> ok == IsValidValue(Trim(value))
      ensures name !in Names(old(headers)) && ok ==> SetsOne(old(headers), headers, Header(name, Trim(value)))
      ensures !ok ==> headers == old(headers)
    {
      var i := Find(name);
      if i < |headers| {
        FirstIsNamed(headers, i);
        ok := true;
      } else {
        ok := IsValidValue(Trim(value));
        if ok {
          AppendSetsOne(headers, Header(name, Trim(value)));
          headers := headers + [Header(name, Trim(value))];
          DistinctAfterSetsOne(old(headers), headers, Header(name, Trim(value)));
        }
      }
    }

    method Extend(hs: seq<Header>)
      requires Valid()
      modifies this
      ensures Valid() && SetsAll(old(headers), headers, hs)
    {
      for n := 0 to |hs|
        invariant Valid() && SetsAll(old(headers), headers, hs[..n])
      {
        ghost var before := headers;
        InsertHeader(hs[n]);
        SetsOneMore(old(headers), before, headers, hs, n);
      }
      assert hs[..|hs|] == hs;
    }

    /** All or nothing: the first error is returned and nothing is inserted. */
    method TryExtend<E>(hs: seq<Result<Header, E>>) returns (r: Result<(), E>)
      requires Valid()
      modifies this
      ensures Valid()
      ensures r.Ok? <==> forall i :: 0 <= i < |hs| ==> hs[i].Ok?
      ensures r.Ok? ==> SetsAll(old(headers), headers, seq(|hs|, i requires 0 <= i < |hs| && hs[i].Ok? => hs[i].value))
      ensures r.Err? ==> headers == old(headers) && exists i :: 0 <= i < |hs| && hs[i] == Err(r.error) && forall j :: 0 <= j < i ==> hs[j].Ok?
    {
      var collected: seq<Header> := [];
      for n := 0 to |hs|
        invariant |collected| == n && headers == old(headers)
        invariant forall i :: 0 <= i < n ==> hs[i] == Ok(collected[i])
      {
        if hs[n].Err? {
          return Err(hs[n].error);
        }
        collected := collected + [hs[n].value];
      }
      assert collected == seq(|hs|, i requires 0 <= i < |hs| && hs[i].Ok? => hs[i].value);
      Extend(collected);
      r := Ok(());
    }
  }

  lemma FirstIsNamed(hs: seq<Header>, i: nat)
    requires i < |hs|
    ensures hs[i].name in Names(hs)
    decreases |hs|
  {
    if i < |hs| - 1 {
      FirstIsNamed(hs[..|hs| - 1], i);
    }
  }

  /** Building a list in one go and extending an empty one mean the same. */
  method BuildBothWays(hs: seq<Header>) returns (built: HeaderList, extended: HeaderList)
    ensures built.Valid() && extended.Valid()
    ensures forall name: string :: Get(built.headers, name) == Get(extended.headers, name) == LastValue(hs, name)
  {
    built := new HeaderList.FromIter(hs);
    extended := new HeaderList();
    extended.Extend(hs);
  }
}
