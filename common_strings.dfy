// String helpers with the semantics of the JavaScript string methods the
// application uses: toLowerCase (ASCII letters only), trim (the ECMAScript
// WhiteSpace and LineTerminator characters), startsWith, includes,
// split on one character, join, and decimal conversion of naturals.

module Strings {

  // ---------------------------------------------------------------------
  // Case

  predicate IsUpperAscii(c: char) { 'A' <= c <= 'Z' }

  function LowerChar(c: char): char
  {
    if IsUpperAscii(c) then (c as int + 32) as char else c
  }

  /** `s.toLowerCase()`, restricted to ASCII letters. */
  function Lower(s: string): (r: string)
    ensures |r| == |s|
    ensures forall i :: 0 <= i < |s| ==> r[i] == LowerChar(s[i])
    ensures forall i :: 0 <= i < |s| ==> !IsUpperAscii(r[i])
  {
    seq(|s|, i requires 0 <= i < |s| => LowerChar(s[i]))
  }

  lemma LowerIdempotent(s: string)
    ensures Lower(Lower(s)) == Lower(s)
  {
  }

  // ---------------------------------------------------------------------
  // Prefixes and substrings

  predicate StartsWith(s: string, prefix: string)
  {
    |prefix| <= |s| && s[..|prefix|] == prefix
  }

  predicate EndsWith(s: string, suffix: string)
  {
    |suffix| <= |s| && s[|s| - |suffix|..] == suffix
  }

  /** `sub` occurs in `s` starting at index `i`. */
  predicate OccursAt(s: string, sub: string, i: int)
  {
    0 <= i && i + |sub| <= |s| && s[i..i + |sub|] == sub
  }

  /** `s.includes(sub)`. */
  predicate Contains(s: string, sub: string)
  {
    exists i | 0 <= i <= |s| - |sub| :: OccursAt(s, sub, i)
  }

  lemma EmptyContained(s: string)
    ensures Contains(s, "")
  {
    assert OccursAt(s, "", 0);
  }

  /** Case-insensitive `includes`, as the searches write it:
      `a.toLowerCase().includes(b.toLowerCase())`. */
  predicate ContainsIgnoreCase(s: string, sub: string)
  {
    Contains(Lower(s), Lower(sub))
  }

  // ---------------------------------------------------------------------
  // Whitespace and trim

  /** The characters JavaScript's `trim` and `\s` treat as white space. */
  predicate IsJsWhitespace(c: char)
  {
    c == '\t' || c == '\n' || c == '\U{B}' || c == '\U{C}' || c == '\r' || c == ' '
    || c == '\U{A0}' || c == '\U{1680}' || ('\U{2000}' <= c <= '\U{200A}')
    || c == '\U{2028}' || c == '\U{2029}' || c == '\U{202F}' || c == '\U{205F}'
    || c == '\U{3000}' || c == '\U{FEFF}'
  }

  predicate AllWhitespace(s: string)
  {
    forall i :: 0 <= i < |s| ==> IsJsWhitespace(s[i])
  }

  /** The number of white-space characters `s` starts with. */
  function LeadingSpace(s: string): (n: nat)
    ensures n <= |s|
    ensures forall i :: 0 <= i < n ==> IsJsWhitespace(s[i])
    ensures n == |s| || !IsJsWhitespace(s[n])
    decreases |s|
  {
    if |s| > 0 && IsJsWhitespace(s[0]) then 1 + LeadingSpace(s[1..]) else 0
  }

  /** The number of white-space characters `s` ends with. */
  function TrailingSpace(s: string): (n: nat)
    ensures n <= |s|
    ensures forall i :: |s| - n <= i < |s| ==> IsJsWhitespace(s[i])
    ensures n == |s| || !IsJsWhitespace(s[|s| - n - 1])
    decreases |s|
  {
    if |s| > 0 && IsJsWhitespace(s[|s| - 1]) then 1 + TrailingSpace(s[..|s| - 1]) else 0
  }

  /** `s.trimStart()`. */
  function TrimStart(s: string): string
  {
    s[LeadingSpace(s)..]
  }

  /** `s.trimEnd()`. */
  function TrimEnd(s: string): string
  {
    s[..|s| - TrailingSpace(s)]
  }

  /** `s.trim()`: neither starts nor ends with white space. */
  function Trim(s: string): (r: string)
    ensures |r| <= |s|
    ensures r == [] || (!IsJsWhitespace(r[0]) && !IsJsWhitespace(r[|r| - 1]))
  {
    var t := TrimStart(s);
    var r := TrimEnd(t);
    assert r == [] || r[0] == s[LeadingSpace(s)];
    r
  }

  /** `s.trim()` is the piece of `s` left when the white space around it is
      cut off: it occurs in `s` at some `k`, and everything before `k` and
      after the piece is white space. */
  lemma TrimIsInnerPiece(s: string)
    ensures exists k | 0 <= k <= |s| - |Trim(s)| ::
              OccursAt(s, Trim(s), k) && AllWhitespace(s[..k]) && AllWhitespace(s[k + |Trim(s)|..])
  {
    var k := LeadingSpace(s);
    var t := s[k..];
    var r := Trim(s);
    assert r == s[k..k + |r|];
    assert OccursAt(s, r, k);
    assert AllWhitespace(s[..k]);
    var u := s[k + |r|..];
    forall j | 0 <= j < |u|
      ensures IsJsWhitespace(u[j])
    {
      assert u[j] == t[|r| + j];
    }
  }

  /** A string is blank (`!s.trim()`) exactly when it is all white space. */
  lemma TrimEmptyIff(s: string)
    ensures Trim(s) == [] <==> AllWhitespace(s)
  {
    var k := LeadingSpace(s);
    if k < |s| {
      var t := s[k..];
      assert t[0] == s[k];
      assert TrailingSpace(t) < |t|;
    }
  }

  /** Trimming text without surrounding white space changes nothing. */
  lemma TrimNoSurroundingSpace(s: string)
    requires s == [] || (!IsJsWhitespace(s[0]) && !IsJsWhitespace(s[|s| - 1]))
    ensures Trim(s) == s
  {
  }

  lemma TrimIdempotent(s: string)
    ensures Trim(Trim(s)) == Trim(s)
  {
    TrimNoSurroundingSpace(Trim(s));
  }

  predicate IsBlank(s: string) { Trim(s) == [] }

  /** A non-blank text is not empty. */
  lemma NonBlankNonEmpty(s: string)
    requires !IsBlank(s)
    ensures s != ""
  {
    assert IsBlank("");
  }

  // ---------------------------------------------------------------------
  // Split and join on one separator character

  /** `c` does not occur in `s`. */
  predicate Lacks(s: string, c: char)
  {
    forall j :: 0 <= j < |s| ==> s[j] != c
  }

  function IndexOf(s: string, c: char): (r: int)
    ensures -1 <= r < |s|
    ensures r == -1 <==> Lacks(s, c)
    ensures r >= 0 ==> s[r] == c && forall j :: 0 <= j < r ==> s[j] != c
  {
    if |s| == 0 then -1
    else if s[0] == c then 0
    else
      var k := IndexOf(s[1..], c);
      if k == -1 then -1 else k + 1
  }

  /** `s.split(sep)` for a one-character separator. */
  function Split(s: string, sep: char): (r: seq<string>)
    ensures |r| >= 1
    decreases |s|
  {
    var i := IndexOf(s, sep);
    if i == -1 then [s] else [s[..i]] + Split(s[i + 1..], sep)
  }

  /** No piece of `s.split(sep)` contains `sep`. */
  lemma {:induction false} SplitPartsLackSep(s: string, sep: char)
    ensures forall k :: 0 <= k < |Split(s, sep)| ==> Lacks(Split(s, sep)[k], sep)
    decreases |s|
  {
    var i := IndexOf(s, sep);
    if i != -1 {
      SplitAtIndex(s, sep);
      SplitPartsLackSep(s[i + 1..], sep);
    }
  }

  /** `parts.join(sep)`. */
  function Join(parts: seq<string>, sep: string): string
  {
    if |parts| == 0 then ""
    else if |parts| == 1 then parts[0]
    else parts[0] + sep + Join(parts[1..], sep)
  }

  /** Splitting and joining again with the same separator gives back the
      original text. */
  lemma {:induction false} JoinSplit(s: string, sep: char)
    ensures Join(Split(s, sep), [sep]) == s
    decreases |s|
  {
    var i := IndexOf(s, sep);
    if i != -1 {
      var head, tail := s[..i], s[i + 1..];
      var rest := Split(tail, sep);
      calc {
        Join(Split(s, sep), [sep]);
        { SplitAtIndex(s, sep); }
        Join([head] + rest, [sep]);
        { JoinCons(head, rest, [sep]); }
        head + [sep] + Join(rest, [sep]);
        { JoinSplit(tail, sep); }
        head + [sep] + tail;
        { AroundIndex(s, i); }
        s;
      }
    }
  }

  /** A text is what comes before index `i`, the character there, and what
      comes after. */
  lemma AroundIndex(s: string, i: int)
    requires 0 <= i < |s|
    ensures s[..i] + [s[i]] + s[i + 1..] == s
  {
  }

  /** One step of `Split`: the text before the first separator, then the
      pieces of the rest. */
  lemma SplitAtIndex(s: string, sep: char)
    requires IndexOf(s, sep) != -1
    ensures Split(s, sep) == [s[..IndexOf(s, sep)]] + Split(s[IndexOf(s, sep) + 1..], sep)
  {
  }

  lemma JoinCons(head: string, rest: seq<string>, sep: string)
    requires |rest| >= 1
    ensures Join([head] + rest, sep) == head + sep + Join(rest, sep)
  {
    assert ([head] + rest)[1..] == rest;
  }

  /** The first piece of `s.split(sep)` is the text before the first `sep`. */
  lemma SplitFirst(s: string, sep: char)
    ensures Split(s, sep)[0] == (if Lacks(s, sep) then s else s[..IndexOf(s, sep)])
  {
  }

  /** The first `c` in `a + [c] + b` is the one after `a` when `a` has none. */
  lemma {:induction false} IndexOfAfter(a: string, c: char, b: string)
    requires Lacks(a, c)
    ensures IndexOf(a + [c] + b, c) == |a|
  {
    if |a| > 0 {
      assert (a + [c] + b)[1..] == a[1..] + [c] + b;
      IndexOfAfter(a[1..], c, b);
    }
  }

  /** The first piece of `e + [c] + m` is `e` when `e` has no `c`. */
  lemma SplitFirstPiece(e: string, c: char, m: string)
    requires Lacks(e, c)
    ensures Split(e + [c] + m, c)[0] == e
  {
    IndexOfAfter(e, c, m);
    SplitFirst(e + [c] + m, c);
    assert (e + [c] + m)[..|e|] == e;
  }

  /** Joining pieces free of `sep` with `sep` and splitting again gives the
      pieces back. */
  lemma {:induction false} SplitJoin(parts: seq<string>, sep: char)
    requires |parts| >= 1
    requires forall k :: 0 <= k < |parts| ==> Lacks(parts[k], sep)
    ensures Split(Join(parts, [sep]), sep) == parts
    decreases |parts|
  {
    if |parts| > 1 {
      var a, rest := parts[0], parts[1..];
      var s := Join(parts, [sep]);
      assert s == a + [sep] + Join(rest, [sep]);
      IndexOfAfter(a, sep, Join(rest, [sep]));
      SplitAtIndex(s, sep);
      assert s[..|a|] == a;
      assert s[|a| + 1..] == Join(rest, [sep]);
      SplitJoin(rest, sep);
      assert parts == [a] + rest;
    }
  }

  // ---------------------------------------------------------------------
  // Decimal naturals

  predicate IsDigit(c: char) { '0' <= c <= '9' }

  function DigitChar(d: nat): (c: char)
    requires d < 10
    ensures IsDigit(c)
  {
    ('0' as int + d) as char
  }

  function DigitValue(c: char): nat
    requires IsDigit(c)
  {
    c as int - '0' as int
  }

  /** `String(n)` for a natural number. */
  function NatToString(n: nat): (r: string)
    ensures |r| >= 1
    ensures forall i :: 0 <= i < |r| ==> IsDigit(r[i])
  {
    if n < 10 then [DigitChar(n)] else NatToString(n / 10) + [DigitChar(n % 10)]
  }

  /** The value of a string of decimal digits. */
  function ParseDigits(s: string): nat
    requires forall i :: 0 <= i < |s| ==> IsDigit(s[i])
  {
    if |s| == 0 then 0 else 10 * ParseDigits(s[..|s| - 1]) + DigitValue(s[|s| - 1])
  }

  /** Reading back the decimal text of `n` gives `n`. */
  lemma {:induction false} ParseNatToString(n: nat)
    ensures ParseDigits(NatToString(n)) == n
  {
    if n >= 10 {
      var s := NatToString(n);
      assert s[..|s| - 1] == NatToString(n / 10);
      ParseNatToString(n / 10);
    }
  }

  /** Distinct numbers have distinct decimal texts. */
  lemma NatToStringInjective(m: nat, n: nat)
    requires m != n
    ensures NatToString(m) != NatToString(n)
  {
    ParseNatToString(m);
    ParseNatToString(n);
  }
}
