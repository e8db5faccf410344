/** The .NET string operations the request handlers rely on, over strings
    as sequences of characters: white-space tests, trimming, ordinal prefix
    tests, ASCII lower-casing, splitting on a separator character (with and
    without RemoveEmptyEntries / TrimEntries) and Int32 parsing. */
module Text {
  import opened Common

  /** char.IsWhiteSpace: the Unicode space separators, line and paragraph
      separators, and U+0009..U+000D, U+0085. */
  predicate IsWhiteSpace(c: char) {
    ('\t' <= c <= '\r') || c == ' ' || c == '\U{0085}' || c == '\U{00A0}' || c == '\U{1680}'
    || ('\U{2000}' <= c <= '\U{200A}') || c == '\U{2028}' || c == '\U{2029}'
    || c == '\U{202F}' || c == '\U{205F}' || c == '\U{3000}'
  }

  /** string.IsNullOrWhiteSpace on a non-null string. */
  predicate IsBlank(s: string) {
    forall i :: 0 <= i < |s| ==> IsWhiteSpace(s[i])
  }

  /** Ordinal s.StartsWith(prefix). */
  predicate StartsWith(s: string, prefix: string) {
    |prefix| <= |s| && s[..|prefix|] == prefix
  }

  /** The number of white-space characters `s` starts with. */
  function LeadingBlanks(s: string): (n: nat)
    ensures n <= |s|
    ensures forall i :: 0 <= i < n ==> IsWhiteSpace(s[i])
    ensures n < |s| ==> !IsWhiteSpace(s[n])
  {
    if s == [] || !IsWhiteSpace(s[0]) then 0 else 1 + LeadingBlanks(s[1..])
  }

  /** Where the white space that ends s[lo..hi] begins. */
  function TrailingBlanks(s: string, lo: nat, hi: nat): (n: nat)
    requires lo <= hi <= |s|
    ensures lo <= n <= hi
    ensures forall i :: n <= i < hi ==> IsWhiteSpace(s[i])
    ensures n > lo ==> !IsWhiteSpace(s[n - 1])
    decreases hi
  {
    if hi == lo || !IsWhiteSpace(s[hi - 1]) then hi else TrailingBlanks(s, lo, hi - 1)
  }

  /** `r` is `s` with the white space before index k and after r removed. */
  predicate TrimmedAt(s: string, r: string, k: int) {
    0 <= k <= |s| - |r| && r == s[k..k + |r|]
    && (forall i :: 0 <= i < k ==> IsWhiteSpace(s[i]))
    && (forall i :: k + |r| <= i < |s| ==> IsWhiteSpace(s[i]))
  }

  /** s.Trim(): the longest infix of `s` that neither starts nor ends with
      white space, obtained by dropping only white space on either side. */
  function Trim(s: string): (r: string)
    ensures exists k :: TrimmedAt(s, r, k)
    ensures r == [] || (!IsWhiteSpace(r[0]) && !IsWhiteSpace(r[|r| - 1]))
    ensures r == [] <==> IsBlank(s)
  {
    var k := LeadingBlanks(s);
    var e := TrailingBlanks(s, k, |s|);
    assert TrimmedAt(s, s[k..e], k);
    s[k..e]
  }

  /** Text that neither starts nor ends with white space is its own trim. */
  lemma TrimKeeps(s: string)
    requires s == [] || (!IsWhiteSpace(s[0]) && !IsWhiteSpace(s[|s| - 1]))
    ensures Trim(s) == s
  {
  }

  /** s.TrimEnd(c): drops every trailing occurrence of `c`. */
  function TrimEndChar(s: string, c: char): (r: string)
    ensures |r| <= |s| && r == s[..|r|]
    ensures forall i :: |r| <= i < |s| ==> s[i] == c
    ensures r == [] || r[|r| - 1] != c
  {
    if s != [] && s[|s| - 1] == c then TrimEndChar(s[..|s| - 1], c) else s
  }

  /** The ASCII part of s.ToLower(). */
  function LowerChar(c: char): char {
    if 'A' <= c <= 'Z' then (c as int - 'A' as int + 'a' as int) as char else c
  }

  function Lower(s: string): string {
    seq(|s|, i requires 0 <= i < |s| => LowerChar(s[i]))
  }

  /** s.Split(sep) with no options: the pieces between the separators,
      empty pieces included; there is always at least one piece. */
  function Split(s: string, sep: char): (parts: seq<string>)
    ensures |parts| >= 1
    ensures forall i :: 0 <= i < |parts| ==> sep !in parts[i]
  {
    if s == [] then [""]
    else
      var rest := Split(s[1..], sep);
      if s[0] == sep then [""] + rest else [[s[0]] + rest[0]] + rest[1..]
  }

  /** string.Join(sep, parts). */
  function Join(parts: seq<string>, sep: char): string
    requires |parts| >= 1
  {
    if |parts| == 1 then parts[0] else parts[0] + [sep] + Join(parts[1..], sep)
  }

  /** StringSplitOptions.RemoveEmptyEntries: the non-empty pieces, in order. */
  function NonEmpty(parts: seq<string>): (r: seq<string>)
    ensures |r| <= |parts|
    ensures forall i :: 0 <= i < |r| ==> r[i] != [] && r[i] in parts
  {
    if parts == [] then []
    else if parts[0] == [] then NonEmpty(parts[1..])
    else [parts[0]] + NonEmpty(parts[1..])
  }

  /** Every non-empty piece is kept. */
  lemma {:induction false} NonEmptyKeepsEvery(parts: seq<string>, p: string)
    requires p in parts && p != []
    ensures p in NonEmpty(parts)
  {
    if parts[0] != p {
      assert p in parts[1..];
      NonEmptyKeepsEvery(parts[1..], p);
    }
  }

  /** Dropping the empty pieces keeps the order: it distributes over
      concatenation, so the pieces of `a` still come before those of `b`. */
  lemma {:induction false} NonEmptyAppend(a: seq<string>, b: seq<string>)
    ensures NonEmpty(a + b) == NonEmpty(a) + NonEmpty(b)
  {
    if a != [] {
      assert (a + b)[0] == a[0];
      assert (a + b)[1..] == a[1..] + b;
      NonEmptyAppend(a[1..], b);
    } else {
      assert a + b == b;
    }
  }

  /** StringSplitOptions.TrimEntries: every piece trimmed. */
  function TrimAll(parts: seq<string>): (r: seq<string>)
    ensures |r| == |parts|
    ensures forall i :: 0 <= i < |r| ==> r[i] == Trim(parts[i])
  {
    seq(|parts|, i requires 0 <= i < |parts| => Trim(parts[i]))
  }

  /** s.Split(sep, RemoveEmptyEntries | TrimEntries): every piece is trimmed,
      and the pieces that are then empty are dropped. */
  function SplitTrimmed(s: string, sep: char): (r: seq<string>)
    requires !IsWhiteSpace(sep)
    ensures forall i :: 0 <= i < |r| ==> r[i] != [] && sep !in r[i]
    ensures forall i :: 0 <= i < |r| ==> !IsWhiteSpace(r[i][0]) && !IsWhiteSpace(r[i][|r[i]| - 1])
  {
    var pieces := Split(s, sep);
    var trimmed := TrimAll(pieces);
    forall i | 0 <= i < |trimmed|
      ensures sep !in trimmed[i]
    {
      TrimIsInfix(pieces[i], sep);
    }
    NonEmpty(trimmed)
  }

  lemma TrimIsInfix(s: string, c: char)
    requires c !in s
    ensures c !in Trim(s)
  {
    var r := Trim(s);
    var k :| TrimmedAt(s, r, k);
    forall j | 0 <= j < |r|
      ensures r[j] != c
    {
      assert r[j] == s[k + j];
    }
  }

  /** Splitting and joining again gives back the original string. */
  lemma {:induction false} JoinSplit(s: string, sep: char)
    ensures Join(Split(s, sep), sep) == s
  {
    if s != [] {
      var rest := Split(s[1..], sep);
      JoinSplit(s[1..], sep);
      if s[0] == sep {
        assert Split(s, sep) == [""] + rest;
        assert ([""] + rest)[1..] == rest;
      } else {
        var parts := [[s[0]] + rest[0]] + rest[1..];
        assert Split(s, sep) == parts;
        if |rest| == 1 {
          assert Join(parts, sep) == [s[0]] + rest[0];
        } else {
          assert parts[1..] == rest[1..];
          assert Join(parts, sep) == [s[0]] + (rest[0] + [sep] + Join(rest[1..], sep));
        }
        assert s == [s[0]] + s[1..];
      }
    }
  }

  lemma {:induction false} SplitWithoutSeparator(p: string, sep: char)
    requires sep !in p
    ensures Split(p, sep) == [p]
  {
    if p != [] {
      SplitWithoutSeparator(p[1..], sep);
      assert p == [p[0]] + p[1..];
    }
  }

  lemma {:induction false} SplitAfterPiece(p: string, sep: char, rest: string)
    requires sep !in p
    ensures Split(p + [sep] + rest, sep) == [p] + Split(rest, sep)
  {
    var s := p + [sep] + rest;
    if p == [] {
      assert s == [sep] + rest;
      assert s[1..] == rest;
    } else {
      assert s[1..] == p[1..] + [sep] + rest;
      SplitAfterPiece(p[1..], sep, rest);
      assert p == [p[0]] + p[1..];
    }
  }

  /** Joining pieces that do not contain the separator and splitting again
      gives back the pieces. */
  lemma {:induction false} SplitJoin(parts: seq<string>, sep: char)
    requires |parts| >= 1
    requires forall i :: 0 <= i < |parts| ==> sep !in parts[i]
    ensures Split(Join(parts, sep), sep) == parts
  {
    if |parts| == 1 {
      SplitWithoutSeparator(parts[0], sep);
    } else {
      SplitJoin(parts[1..], sep);
      SplitAfterPiece(parts[0], sep, Join(parts[1..], sep));
      assert parts == [parts[0]] + parts[1..];
    }
  }

  lemma {:induction false} NonEmptyKeeps(parts: seq<string>)
    requires forall i :: 0 <= i < |parts| ==> parts[i] != []
    ensures NonEmpty(parts) == parts
  {
    if parts != [] {
      NonEmptyKeeps(parts[1..]);
      assert parts == [parts[0]] + parts[1..];
    }
  }

  /** A list of non-empty, trimmed pieces without the separator survives
      being joined and split again with RemoveEmptyEntries | TrimEntries. */
  lemma SplitTrimmedJoin(parts: seq<string>, sep: char)
    requires |parts| >= 1 && !IsWhiteSpace(sep)
    requires forall i :: 0 <= i < |parts| ==> parts[i] != [] && sep !in parts[i]
    requires forall i :: 0 <= i < |parts| ==> Trim(parts[i]) == parts[i]
    ensures SplitTrimmed(Join(parts, sep), sep) == parts
  {
    SplitJoin(parts, sep);
    assert TrimAll(parts) == parts;
    NonEmptyKeeps(parts);
  }

  /** A blank string splits into no pieces at all when the separator is not
      white space. */
  lemma BlankSplitsToNothing(s: string, sep: char)
    requires IsBlank(s) && !IsWhiteSpace(sep)
    ensures SplitTrimmed(s, sep) == []
  {
    forall j | 0 <= j < |s|
      ensures s[j] != sep
    {
      assert IsWhiteSpace(s[j]);
    }
    SplitWithoutSeparator(s, sep);
    assert TrimAll([s]) == [""];
  }

  lemma {:induction false} SplitSnoc(q: string, sep: char)
    ensures Split(q + [sep], sep) == Split(q, sep) + [""]
  {
    if q == [] {
      assert [sep][1..] == [];
    } else {
      assert (q + [sep])[1..] == q[1..] + [sep];
      SplitSnoc(q[1..], sep);
    }
  }

  lemma {:induction false} NonEmptySnoc(parts: seq<string>)
    ensures NonEmpty(parts + [""]) == NonEmpty(parts)
  {
    if parts == [] {
      assert NonEmpty([""]) == NonEmpty([]);
    } else {
      assert (parts + [""])[1..] == parts[1..] + [""];
      NonEmptySnoc(parts[1..]);
    }
  }

  /** Trimming trailing separators first does not change the non-empty
      pieces of a split. */
  lemma {:induction false} TrimEndCharBeforeSplit(s: string, sep: char)
    ensures NonEmpty(Split(TrimEndChar(s, sep), sep)) == NonEmpty(Split(s, sep))
    decreases |s|
  {
    if s != [] && s[|s| - 1] == sep {
      var q := s[..|s| - 1];
      assert s == q + [sep];
      TrimEndCharBeforeSplit(q, sep);
      SplitSnoc(q, sep);
      NonEmptySnoc(Split(q, sep));
    }
  }

  // ---------------------------------------------------------------------
  // int.TryParse

  const Int32Min: int := -0x8000_0000
  const Int32Max: int := 0x7FFF_FFFF

  predicate IsInt32(n: int) {
    Int32Min <= n <= Int32Max
  }

  predicate IsDigit(c: char) {
    '0' <= c <= '9'
  }

  predicate AllDigits(s: string) {
    forall i :: 0 <= i < |s| ==> IsDigit(s[i])
  }

  /** The value of a string of decimal digits, most significant first. */
  function DigitsValue(s: string): nat
    requires AllDigits(s)
  {
    if s == [] then 0 else DigitsValue(s[..|s| - 1]) * 10 + (s[|s| - 1] as int - '0' as int)
  }

  function DigitChar(d: nat): char
    requires d < 10
  {
    ('0' as int + d) as char
  }

  /** n.ToString() for a non-negative n. */
  function NatToString(n: nat): (s: string)
    ensures s != [] && AllDigits(s)
  {
    if n < 10 then [DigitChar(n)] else NatToString(n / 10) + [DigitChar(n % 10)]
  }

  /** n.ToString() for any integer n. */
  function IntToString(n: int): string {
    if n < 0 then "-" + NatToString(-n) else NatToString(n)
  }

  /** int.TryParse(s, out v): an optional sign followed by at least one
      decimal digit, whose value fits in 32 bits. */
  function ParseInt(s: string): (r: Option<int>)
    ensures r.Some? ==> IsInt32(r.value)
    ensures r.Some? ==> s != [] && (IsDigit(s[0]) || s[0] == '-' || s[0] == '+')
  {
    var signed := |s| > 0 && (s[0] == '-' || s[0] == '+');
    var digits := if signed then s[1..] else s;
    if digits == [] || !AllDigits(digits) then None
    else
      var v: int := if signed && s[0] == '-' then -(DigitsValue(digits) as int) else DigitsValue(digits) as int;
      if IsInt32(v) then Some(v) else None
  }

  lemma {:induction false} DigitsRoundTrip(n: nat)
    ensures DigitsValue(NatToString(n)) == n
  {
    if n >= 10 {
      DigitsRoundTrip(n / 10);
      var s := NatToString(n);
      assert s[..|s| - 1] == NatToString(n / 10);
    }
  }

  /** Every 32-bit integer printed in decimal parses back to itself. */
  lemma ParseIntRoundTrip(n: int)
    requires IsInt32(n)
    ensures ParseInt(IntToString(n)) == Some(n)
  {
    var s := IntToString(n);
    if n < 0 {
      var digits := NatToString(-n);
      DigitsRoundTrip(-n);
      assert s == "-" + digits;
      assert s[0] == '-';
      assert s[1..] == digits;
    } else {
      DigitsRoundTrip(n);
      assert s == NatToString(n);
      assert IsDigit(s[0]);
    }
  }
}
