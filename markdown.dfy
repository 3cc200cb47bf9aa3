// The LaTeX preprocessing of the chat's markdown renderer
// (`preprocessLaTeX` in components/features/spaces/chat/markdown.tsx). It
// hides the escaped delimiters \[ \] \( \) behind placeholders, swaps each
// `$$…$$` block and then each `$…$` inline span for a numbered placeholder,
// puts the escaped delimiters back, and finally puts the blocks and the
// inline spans back. Every `replace` with a global regular expression is
// modelled as a left-to-right scan that resumes after each match.

module Markdown {
  import opened Opt
  import opened Strings

  const BlockOpen := "___BLOCK_OPEN___"
  const BlockClose := "___BLOCK_CLOSE___"
  const InlineOpen := "___INLINE_OPEN___"
  const InlineClose := "___INLINE_CLOSE___"
  const EscBlockOpen := "\\["
  const EscBlockClose := "\\]"
  const EscInlineOpen := "\\("
  const EscInlineClose := "\\)"
  const Dollars := "$$"
  const Underscores := "___"
  const PlaceholderStart := "___LATEX_"
  const BlockKind := "BLOCK"
  const InlineKind := "INLINE"
  /** What a missing table entry turns into when a replacement callback
      returns `undefined`. */
  const Undefined := "undefined"

  // ---------------------------------------------------------------------
  // Literal global replacement

  /** `s.replace(/p/g, r)` for a pattern that matches the literal text `p`. */
  function ReplaceAll(s: string, p: string, r: string): (t: string)
    requires |p| > 0
    decreases |s|
  {
    if |s| < |p| then s
    else if s[..|p|] == p then r + ReplaceAll(s[|p|..], p, r)
    else [s[0]] + ReplaceAll(s[1..], p, r)
  }

  /** An occurrence in the tail is one in the text, one further on. */
  lemma OccursShift(s: string, p: string, k: int)
    requires |s| > 0 && OccursAt(s[1..], p, k)
    ensures OccursAt(s, p, k + 1)
  {
    assert s[k + 1..k + 1 + |p|] == s[1..][k..k + |p|];
  }

  lemma AbsentFromTail(s: string, p: string)
    requires |s| > 0 && !Contains(s, p)
    ensures !Contains(s[1..], p)
  {
    forall k | 0 <= k <= |s[1..]| - |p|
      ensures !OccursAt(s[1..], p, k)
    {
      if OccursAt(s[1..], p, k) {
        OccursShift(s, p, k);
      }
    }
  }

  /** Where the pattern does not occur, nothing is replaced. */
  lemma {:induction false} ReplaceAllAbsent(s: string, p: string, r: string)
    requires |p| > 0 && !Contains(s, p)
    ensures ReplaceAll(s, p, r) == s
    decreases |s|
  {
    if |s| >= |p| {
      assert !OccursAt(s, p, 0);
      AbsentFromTail(s, p);
      ReplaceAllAbsent(s[1..], p, r);
    }
  }

  /** A prefix without the pattern's first character is copied as it is. */
  lemma {:induction false} ReplaceAllPrefixFree(a: string, y: string, p: string, r: string)
    requires |p| > 0 && Lacks(a, p[0])
    ensures ReplaceAll(a + y, p, r) == a + ReplaceAll(y, p, r)
    decreases |a|
  {
    if |a| > 0 {
      var s := a + y;
      if |s| >= |p| {
        assert s[..|p|][0] == a[0];
        assert s[1..] == a[1..] + y;
        ReplaceAllPrefixFree(a[1..], y, p, r);
        assert a == [a[0]] + a[1..];
      }
    } else {
      assert a + y == y;
    }
  }

  /** A text without the pattern's first character has no match. */
  lemma ReplaceAllLacking(s: string, p: string, r: string)
    requires |p| > 0 && Lacks(s, p[0])
    ensures ReplaceAll(s, p, r) == s
  {
    ReplaceAllPrefixFree(s, [], p, r);
    assert s + [] == s;
  }

  /** A match at the start is replaced and the scan goes on after it. */
  lemma ReplaceAllHead(y: string, p: string, r: string)
    requires |p| > 0
    ensures ReplaceAll(p + y, p, r) == r + ReplaceAll(y, p, r)
  {
    assert (p + y)[..|p|] == p;
    assert (p + y)[|p|..] == y;
  }

  /** Replacing the pattern by `r` and then `r` by the pattern gives the
      text back, when `r`'s first character does not occur in it: every
      occurrence of `r` in the result is one the first pass wrote. */
  lemma {:induction false} ReplaceAllInverse(s: string, p: string, r: string)
    requires |p| > 0 && |r| > 0 && Lacks(s, r[0])
    ensures ReplaceAll(ReplaceAll(s, p, r), r, p) == s
    decreases |s|
  {
    if |s| < |p| {
      ReplaceAllLacking(s, r, p);
    } else if s[..|p|] == p {
      ReplaceAllInverse(s[|p|..], p, r);
      ReplaceAllHead(ReplaceAll(s[|p|..], p, r), r, p);
      assert p + s[|p|..] == s;
    } else {
      ReplaceAllInverse(s[1..], p, r);
      ReplaceAllPrefixFree([s[0]], ReplaceAll(s[1..], p, r), r, p);
      assert [s[0]] + s[1..] == s;
    }
  }

  /** The pattern cannot occur where a prefix of it does not. */
  lemma AbsentPrefix(s: string, q: string, p: string)
    requires |p| <= |q| && q[..|p|] == p && !Contains(s, p)
    ensures !Contains(s, q)
  {
    forall k | 0 <= k <= |s| - |q| && OccursAt(s, q, k)
      ensures false
    {
      assert s[k..k + |p|] == s[k..k + |q|][..|p|];
      assert OccursAt(s, p, k);
    }
  }

  // ---------------------------------------------------------------------
  // Escaped delimiters

  /** The first step: \[ \] \( \) become placeholders, in that order. */
  function HideEscapes(s: string): (r: string)
  {
    var s1 := ReplaceAll(s, EscBlockOpen, BlockOpen);
    var s2 := ReplaceAll(s1, EscBlockClose, BlockClose);
    var s3 := ReplaceAll(s2, EscInlineOpen, InlineOpen);
    ReplaceAll(s3, EscInlineClose, InlineClose)
  }

  /** The fourth step: the placeholders become \[ \] \( \) again. */
  function ShowEscapes(s: string): (r: string)
  {
    var s1 := ReplaceAll(s, BlockOpen, EscBlockOpen);
    var s2 := ReplaceAll(s1, BlockClose, EscBlockClose);
    var s3 := ReplaceAll(s2, InlineOpen, EscInlineOpen);
    ReplaceAll(s3, InlineClose, EscInlineClose)
  }

  predicate HasNoEscapes(s: string)
  {
    !Contains(s, EscBlockOpen) && !Contains(s, EscBlockClose)
    && !Contains(s, EscInlineOpen) && !Contains(s, EscInlineClose)
  }

  /** Text without escaped delimiters gets no escape placeholder. */
  lemma HideEscapesNoop(s: string)
    requires HasNoEscapes(s)
    ensures HideEscapes(s) == s
  {
    ReplaceAllAbsent(s, EscBlockOpen, BlockOpen);
    ReplaceAllAbsent(s, EscBlockClose, BlockClose);
    ReplaceAllAbsent(s, EscInlineOpen, InlineOpen);
    ReplaceAllAbsent(s, EscInlineClose, InlineClose);
  }

  /** Text without three underscores in a row holds no escape placeholder. */
  lemma ShowEscapesNoop(s: string)
    requires !Contains(s, Underscores)
    ensures ShowEscapes(s) == s
  {
    AbsentPrefix(s, BlockOpen, Underscores);
    AbsentPrefix(s, BlockClose, Underscores);
    AbsentPrefix(s, InlineOpen, Underscores);
    AbsentPrefix(s, InlineClose, Underscores);
    ReplaceAllAbsent(s, BlockOpen, EscBlockOpen);
    ReplaceAllAbsent(s, BlockClose, EscBlockClose);
    ReplaceAllAbsent(s, InlineOpen, EscInlineOpen);
    ReplaceAllAbsent(s, InlineClose, EscInlineClose);
  }

  /** Each escape placeholder pass is undone by its restore pass on text
      that had no underscore. */
  lemma EscapePassesInvert(s: string)
    requires Lacks(s, '_')
    ensures ReplaceAll(ReplaceAll(s, EscBlockOpen, BlockOpen), BlockOpen, EscBlockOpen) == s
    ensures ReplaceAll(ReplaceAll(s, EscBlockClose, BlockClose), BlockClose, EscBlockClose) == s
    ensures ReplaceAll(ReplaceAll(s, EscInlineOpen, InlineOpen), InlineOpen, EscInlineOpen) == s
    ensures ReplaceAll(ReplaceAll(s, EscInlineClose, InlineClose), InlineClose, EscInlineClose) == s
  {
    ReplaceAllInverse(s, EscBlockOpen, BlockOpen);
    ReplaceAllInverse(s, EscBlockClose, BlockClose);
    ReplaceAllInverse(s, EscInlineOpen, InlineOpen);
    ReplaceAllInverse(s, EscInlineClose, InlineClose);
  }

  // ---------------------------------------------------------------------
  // Span extraction

  /** The text cut into characters left alone and spans taken out. */
  datatype Piece = Keep(c: char) | Span(text: string)

  function Flatten(ps: seq<Piece>): (r: string)
  {
    if |ps| == 0 then ""
    else (match ps[0] case Keep(c) => [c] case Span(t) => t) + Flatten(ps[1..])
  }

  /** The spans taken out, left to right: the `blocks` or `inlines` array. */
  function SpansOf(ps: seq<Piece>): (r: seq<string>)
  {
    if |ps| == 0 then []
    else (match ps[0] case Keep(_) => [] case Span(t) => [t]) + SpansOf(ps[1..])
  }

  /** `___LATEX_BLOCK_<n>___` or `___LATEX_INLINE_<n>___`. */
  function Placeholder(kind: string, n: nat): (r: string)
  {
    PlaceholderStart + kind + "_" + NatToString(n) + Underscores
  }

  /** The text after a `replace` pass: each span becomes the placeholder
      numbered by its position among the spans, counting from `n`. */
  function Render(ps: seq<Piece>, kind: string, n: nat): (r: string)
  {
    if |ps| == 0 then ""
    else match ps[0]
      case Keep(c) => [c] + Render(ps[1..], kind, n)
      case Span(_) => Placeholder(kind, n) + Render(ps[1..], kind, n + 1)
  }

  /** The first index of "$$" in `t`, -1 when there is none. */
  function FirstDouble(t: string): (r: int)
    ensures -1 <= r < |t| - 1 || r == -1
    ensures r >= 0 ==> t[r] == '$' && t[r + 1] == '$'
    ensures forall k :: 0 <= k < (if r >= 0 then r else |t| - 1) ==> !(t[k] == '$' && t[k + 1] == '$')
    decreases |t|
  {
    if |t| < 2 then -1
    else if t[0] == '$' && t[1] == '$' then 0
    else
      var k := FirstDouble(t[1..]);
      if k == -1 then -1 else k + 1
  }

  /** A match of `/\$\$[\s\S]*?\$\$/`: "$$", then anything, then the first
      "$$" after the opening one. */
  predicate IsBlockSpan(b: string)
  {
    |b| >= 4 && b[..2] == Dollars && b[|b| - 2..] == Dollars
    && forall k :: 2 <= k < |b| - 2 ==> !(b[k] == '$' && b[k + 1] == '$')
  }

  /** The block pass: at each position, a "$$" with a later "$$" starts a
      block that ends at the first such "$$"; otherwise the character is
      left and the scan moves on by one. Nothing is lost. */
  function BlockPieces(s: string): (r: seq<Piece>)
    ensures Flatten(r) == s
    decreases |s|
  {
    if |s| == 0 then []
    else if |s| >= 2 && s[..2] == Dollars && FirstDouble(s[2..]) >= 0 then
      var end := FirstDouble(s[2..]) + 4;
      assert s[..end] + s[end..] == s;
      [Span(s[..end])] + BlockPieces(s[end..])
    else
      assert [s[0]] + s[1..] == s;
      [Keep(s[0])] + BlockPieces(s[1..])
  }

  predicate SpansAreBlocks(ps: seq<Piece>)
  {
    forall i :: 0 <= i < |ps| && ps[i].Span? ==> IsBlockSpan(ps[i].text)
  }

  /** Every block taken out is a shortest `$$…$$`. */
  lemma {:induction false} BlockSpansAreShortest(s: string)
    ensures SpansAreBlocks(BlockPieces(s))
    decreases |s|
  {
    if |s| > 0 {
      var ps := BlockPieces(s);
      if |s| >= 2 && s[..2] == Dollars && FirstDouble(s[2..]) >= 0 {
        var end := FirstDouble(s[2..]) + 4;
        var b := s[..end];
        BlockSpansAreShortest(s[end..]);
        forall k | 2 <= k < |b| - 2
          ensures !(b[k] == '$' && b[k + 1] == '$')
        {
          assert b[k] == s[2..][k - 2] && b[k + 1] == s[2..][k - 1];
        }
        assert IsBlockSpan(b);
        assert ps == [Span(b)] + BlockPieces(s[end..]);
        SpansCons(Span(b), BlockPieces(s[end..]), true);
      } else {
        BlockSpansAreShortest(s[1..]);
        assert ps == [Keep(s[0])] + BlockPieces(s[1..]);
        SpansCons(Keep(s[0]), BlockPieces(s[1..]), true);
      }
    }
  }

  /** Whether the regular expression's look-ahead
      `(?!\s*\d+[.,\s]*\d*\s*$)` refuses the text after a '$': white space,
      digits, then separators (".", "," or white space), then digits, then
      white space up to the end of the text. Read by a small automaton. */
  datatype CurrencyState = Lead | Whole | Separators | Fraction | Trail

  function CurrencyStep(st: CurrencyState, c: char): (r: Option<CurrencyState>)
  {
    match st
    case Lead => if IsJsWhitespace(c) then Some(Lead) else if IsDigit(c) then Some(Whole) else None
    case Whole =>
      if IsDigit(c) then Some(Whole)
      else if c == '.' || c == ',' || IsJsWhitespace(c) then Some(Separators) else None
    case Separators =>
      if IsDigit(c) then Some(Fraction)
      else if c == '.' || c == ',' || IsJsWhitespace(c) then Some(Separators) else None
    case Fraction =>
      if IsDigit(c) then Some(Fraction) else if IsJsWhitespace(c) then Some(Trail) else None
    case Trail => if IsJsWhitespace(c) then Some(Trail) else None
  }

  predicate CurrencyFrom(t: string, st: CurrencyState)
    decreases |t|
  {
    if |t| == 0 then st != Lead
    else match CurrencyStep(st, t[0])
      case None => false
      case Some(next) => CurrencyFrom(t[1..], next)
  }

  predicate IsCurrencyTail(t: string)
  {
    CurrencyFrom(t, Lead)
  }

  /** A match of the inline expression: '$', then no '$', then '$'. */
  predicate IsInlineSpan(b: string)
  {
    |b| >= 2 && b[0] == '$' && b[|b| - 1] == '$' && Lacks(b[1..|b| - 1], '$')
  }

  /** A '$' whose rest is not refused by the look-ahead and holds
      another '$'. */
  predicate OpensInline(s: string)
  {
    |s| > 0 && s[0] == '$' && !IsCurrencyTail(s[1..]) && IndexOf(s[1..], '$') >= 0
  }

  /** The inline pass: a '$' whose rest is not a currency amount and which
      has a later '$' starts a span ending at the next '$'; otherwise the
      character is left. Nothing is lost. */
  function InlinePieces(s: string): (r: seq<Piece>)
    ensures Flatten(r) == s
    decreases |s|
  {
    if |s| == 0 then []
    else if OpensInline(s) then
      var end := IndexOf(s[1..], '$') + 2;
      assert s[..end] + s[end..] == s;
      [Span(s[..end])] + InlinePieces(s[end..])
    else
      assert [s[0]] + s[1..] == s;
      [Keep(s[0])] + InlinePieces(s[1..])
  }

  predicate SpansAreInline(ps: seq<Piece>)
  {
    forall i :: 0 <= i < |ps| && ps[i].Span? ==> IsInlineSpan(ps[i].text)
  }

  /** Every inline span taken out is '$', text without '$', '$'. */
  lemma {:induction false} InlineSpansAreShortest(s: string)
    ensures SpansAreInline(InlinePieces(s))
    decreases |s|
  {
    if |s| > 0 {
      var ps := InlinePieces(s);
      if OpensInline(s) {
        var j := InlineSpanAtStart(s);
        InlineSpansAreShortest(s[j..]);
        SpansCons(Span(s[..j]), InlinePieces(s[j..]), false);
      } else {
        InlineSpansAreShortest(s[1..]);
        assert ps == [Keep(s[0])] + InlinePieces(s[1..]);
        SpansCons(Keep(s[0]), InlinePieces(s[1..]), false);
      }
    }
  }

  /** The first inline span of a text that opens one, and where it ends. */
  lemma InlineSpanAtStart(s: string) returns (j: nat)
    requires OpensInline(s)
    ensures 2 <= j <= |s| && IsInlineSpan(s[..j])
    ensures InlinePieces(s) == [Span(s[..j])] + InlinePieces(s[j..])
  {
    var t := s[1..];
    var i := IndexOf(t, '$');
    j := i + 2;
    var b := s[..j];
    assert b[1..|b| - 1] == t[..i];
  }

  /** The span predicates of a piece list from its first piece and the
      rest. */
  lemma SpansCons(p: Piece, rest: seq<Piece>, block: bool)
    requires p.Span? ==> (if block then IsBlockSpan(p.text) else IsInlineSpan(p.text))
    requires if block then SpansAreBlocks(rest) else SpansAreInline(rest)
    ensures if block then SpansAreBlocks([p] + rest) else SpansAreInline([p] + rest)
  {
    var ps := [p] + rest;
    assert forall i :: 1 <= i < |ps| ==> ps[i] == rest[i - 1];
  }

  // ---------------------------------------------------------------------
  // Restoring spans

  /** The length of the run of decimal digits `s` starts with. */
  function DigitRun(s: string): (n: nat)
    ensures n <= |s|
    ensures forall i :: 0 <= i < n ==> IsDigit(s[i])
    decreases |s|
  {
    if |s| > 0 && IsDigit(s[0]) then 1 + DigitRun(s[1..]) else 0
  }

  function PlaceholderHead(kind: string): (r: string)
  {
    PlaceholderStart + kind + "_"
  }

  /** A match of `/___LATEX_<kind>_(\d+)___/` at the start of `s`: the
      number its digits spell and the length of the match. */
  function PlaceholderAt(s: string, kind: string): (r: Option<(nat, nat)>)
    ensures r.Some? ==> 0 < r.value.1 <= |s|
  {
    MatchAfterHead(s, PlaceholderHead(kind))
  }

  /** `head`, then a number and three underscores. */
  function MatchAfterHead(s: string, head: string): (r: Option<(nat, nat)>)
    ensures r.Some? ==> |head| < r.value.1 <= |s|
  {
    if |s| >= |head| && s[..|head|] == head then
      match MatchNumber(s[|head|..])
      case Some(m) => Some((m.0, |head| + m.1))
      case None => None
    else None
  }

  /** The longest run of digits (the greedy `\d+`), which must not be
      empty, then three underscores: the number and the match length. */
  function MatchNumber(t: string): (r: Option<(nat, nat)>)
    ensures r.Some? ==> 0 < r.value.1 <= |t|
  {
    var digits := DigitRun(t);
    if digits > 0 && digits + 3 <= |t| && t[digits..digits + 3] == Underscores then
      Some((ParseDigits(t[..digits]), digits + 3))
    else None
  }

  /** The restore passes: every placeholder of `kind` becomes the span its
      number names in `table`, or "undefined" when the table has no such
      entry. The scan goes on after the placeholder. */
  function RestoreAll(s: string, kind: string, table: seq<string>): (r: string)
    decreases |s|
  {
    if |s| == 0 then ""
    else match PlaceholderAt(s, kind)
      case Some(m) => (if m.0 < |table| then table[m.0] else Undefined) + RestoreAll(s[m.1..], kind, table)
      case None => [s[0]] + RestoreAll(s[1..], kind, table)
  }

  lemma {:induction false} DigitRunStops(d: string, t: string)
    requires forall i :: 0 <= i < |d| ==> IsDigit(d[i])
    requires |t| > 0 && !IsDigit(t[0])
    ensures DigitRun(d + t) == |d|
    decreases |d|
  {
    if |d| > 0 {
      assert (d + t)[1..] == d[1..] + t;
      DigitRunStops(d[1..], t);
    } else {
      assert d + t == t;
    }
  }

  /** A run of digits and three underscores make a number match. */
  lemma NumberFound(d: string, rest: string)
    requires |d| > 0 && forall i :: 0 <= i < |d| ==> IsDigit(d[i])
    ensures MatchNumber(d + (Underscores + rest)) == Some((ParseDigits(d), |d| + 3))
  {
    var u := Underscores;
    var t := d + (u + rest);
    assert (u + rest)[0] == '_';
    DigitRunStops(d, u + rest);
    assert t[..|d|] == d;
    assert t[|d|..|d| + 3] == u;
  }

  /** A placeholder's head, a run of digits and three underscores match. */
  lemma PlaceholderFound(s: string, head: string, d: string, rest: string)
    requires |d| > 0 && forall i :: 0 <= i < |d| ==> IsDigit(d[i])
    requires s == head + d + Underscores + rest
    ensures MatchAfterHead(s, head).Some?
    ensures MatchAfterHead(s, head).value.0 == ParseDigits(d)
    ensures MatchAfterHead(s, head).value.1 == |head| + |d| + 3
  {
    SplitAfter(head, d, Underscores, rest, s);
    NumberFound(d, rest);
    var m := MatchNumber(s[|head|..]);
    assert m == Some((ParseDigits(d), |d| + 3));
  }

  /** Cutting a four-part concatenation after its first part, stated on
      opaque pieces. */
  lemma SplitAfter<T>(a: seq<T>, b: seq<T>, c: seq<T>, d: seq<T>, s: seq<T>)
    requires s == a + b + c + d
    ensures |s| >= |a| && s[..|a|] == a && s[|a|..] == b + (c + d)
  {
  }

  /** A text starting with a character other than '_' holds no placeholder
      at its start. */
  lemma RestoreKeep(c: char, w: string, kind: string, table: seq<string>)
    requires c != '_'
    ensures RestoreAll([c] + w, kind, table) == [c] + RestoreAll(w, kind, table)
  {
    var head := PlaceholderHead(kind);
    assert head[0] == '_';
    assert MatchAfterHead([c] + w, head).None?;
    assert ([c] + w)[1..] == w;
  }

  /** A placeholder is replaced by the table entry its number names. */
  lemma RestoreAtPlaceholder(kind: string, n: nat, rest: string, table: seq<string>)
    ensures RestoreAll(Placeholder(kind, n) + rest, kind, table)
            == (if n < |table| then table[n] else Undefined) + RestoreAll(rest, kind, table)
  {
    var head := PlaceholderHead(kind);
    var d := NatToString(n);
    var s := Placeholder(kind, n) + rest;
    assert s == head + d + Underscores + rest;
    PlaceholderFound(s, head, d, rest);
    ParseNatToString(n);
    assert s[|head| + |d| + 3..] == rest;
  }

  /** Text in which no placeholder of `kind` starts is left as it is. */
  lemma {:induction false} RestoreAllAbsent(s: string, kind: string, table: seq<string>)
    requires !Contains(s, PlaceholderHead(kind))
    ensures RestoreAll(s, kind, table) == s
    decreases |s|
  {
    if |s| > 0 {
      var head := PlaceholderHead(kind);
      assert !OccursAt(s, head, 0);
      assert PlaceholderAt(s, kind).None?;
      AbsentFromTail(s, head);
      RestoreAllAbsent(s[1..], kind, table);
      assert [s[0]] + s[1..] == s;
    }
  }

  predicate KeepsLack(ps: seq<Piece>, c: char)
  {
    forall i :: 0 <= i < |ps| && ps[i].Keep? ==> ps[i].c != c
  }

  /** The characters left alone are characters of the text. */
  lemma {:induction false} KeepsLackFrom(ps: seq<Piece>, c: char)
    requires Lacks(Flatten(ps), c)
    ensures KeepsLack(ps, c)
    decreases |ps|
  {
    if |ps| > 0 {
      var head := match ps[0] case Keep(x) => [x] case Span(t) => t;
      assert Flatten(ps) == head + Flatten(ps[1..]);
      assert forall j :: 0 <= j < |Flatten(ps[1..])| ==> Flatten(ps[1..])[j] == Flatten(ps)[|head| + j];
      KeepsLackFrom(ps[1..], c);
      if ps[0].Keep? {
        assert Flatten(ps)[0] == ps[0].c;
      }
      forall i | 1 <= i < |ps| && ps[i].Keep?
        ensures ps[i].c != c
      {
        assert ps[1..][i - 1] == ps[i];
      }
    }
  }

  /** `table` holds `spans` from index `n` on. */
  predicate TableFrom(table: seq<string>, n: nat, spans: seq<string>)
  {
    n + |spans| <= |table| && table[n..n + |spans|] == spans
  }

  lemma KeepsLackTail(ps: seq<Piece>, c: char)
    requires |ps| > 0 && KeepsLack(ps, c)
    ensures KeepsLack(ps[1..], c)
  {
    forall i | 0 <= i < |ps[1..]| && ps[1..][i].Keep?
      ensures ps[1..][i].c != c
    {
      assert ps[1..][i] == ps[i + 1];
    }
  }

  lemma TableTail(table: seq<string>, n: nat, t: string, rest: seq<string>)
    requires TableFrom(table, n, [t] + rest)
    ensures n < |table| && table[n] == t && TableFrom(table, n + 1, rest)
  {
    assert table[n] == table[n..n + |rest| + 1][0];
    assert table[n + 1..n + 1 + |rest|] == table[n..n + 1 + |rest|][1..];
  }

  /** Restoring a rendered pass gives back the text it was cut from: the
      placeholder numbered `n + j` becomes the `j`-th span, provided no
      character left alone is an underscore. */
  lemma {:induction false} RestoreRendered(ps: seq<Piece>, kind: string, n: nat, table: seq<string>)
    requires KeepsLack(ps, '_')
    requires TableFrom(table, n, SpansOf(ps))
    ensures RestoreAll(Render(ps, kind, n), kind, table) == Flatten(ps)
    decreases |ps|
  {
    if |ps| > 0 {
      var rest := ps[1..];
      KeepsLackTail(ps, '_');
      match ps[0]
      case Keep(c) =>
        assert SpansOf(ps) == SpansOf(rest);
        RestoreRendered(rest, kind, n, table);
        RestoreKeep(c, Render(rest, kind, n), kind, table);
      case Span(t) =>
        assert SpansOf(ps) == [t] + SpansOf(rest);
        TableTail(table, n, t, SpansOf(rest));
        RestoreRendered(rest, kind, n + 1, table);
        RestoreAtPlaceholder(kind, n, Render(rest, kind, n + 1), table);
    }
  }

  /** The block pass and the block restore pass undo each other on text
      without underscores. */
  lemma BlocksRoundTrip(s: string)
    requires Lacks(s, '_')
    ensures var ps := BlockPieces(s);
            RestoreAll(Render(ps, BlockKind, 0), BlockKind, SpansOf(ps)) == s
  {
    var ps := BlockPieces(s);
    KeepsLackFrom(ps, '_');
    assert SpansOf(ps)[0..|SpansOf(ps)|] == SpansOf(ps);
    RestoreRendered(ps, BlockKind, 0, SpansOf(ps));
  }

  /** The inline pass and the inline restore pass undo each other on text
      without underscores. */
  lemma InlinesRoundTrip(s: string)
    requires Lacks(s, '_')
    ensures var ps := InlinePieces(s);
            RestoreAll(Render(ps, InlineKind, 0), InlineKind, SpansOf(ps)) == s
  {
    var ps := InlinePieces(s);
    KeepsLackFrom(ps, '_');
    assert SpansOf(ps)[0..|SpansOf(ps)|] == SpansOf(ps);
    RestoreRendered(ps, InlineKind, 0, SpansOf(ps));
  }

  // ---------------------------------------------------------------------
  // Pieces of text without '$'

  /** Without '$' the block pass takes nothing out. */
  lemma {:induction false} NoDollarBlocks(s: string, kind: string, n: nat)
    requires Lacks(s, '$')
    ensures Render(BlockPieces(s), kind, n) == s && SpansOf(BlockPieces(s)) == []
    decreases |s|
  {
    if |s| > 0 {
      var ps := BlockPieces(s);
      assert ps == [Keep(s[0])] + BlockPieces(s[1..]);
      assert ps[1..] == BlockPieces(s[1..]);
      NoDollarBlocks(s[1..], kind, n);
      assert [s[0]] + s[1..] == s;
    }
  }

  /** Without '$' the inline pass takes nothing out. */
  lemma {:induction false} NoDollarInlines(s: string, kind: string, n: nat)
    requires Lacks(s, '$')
    ensures Render(InlinePieces(s), kind, n) == s && SpansOf(InlinePieces(s)) == []
    decreases |s|
  {
    if |s| > 0 {
      var ps := InlinePieces(s);
      assert ps == [Keep(s[0])] + InlinePieces(s[1..]);
      assert ps[1..] == InlinePieces(s[1..]);
      NoDollarInlines(s[1..], kind, n);
      assert [s[0]] + s[1..] == s;
    }
  }

  // ---------------------------------------------------------------------
  // Currency amounts

  lemma {:induction false} DigitsStayWhole(d: string)
    requires forall i :: 0 <= i < |d| ==> IsDigit(d[i])
    ensures CurrencyFrom(d, Whole)
    decreases |d|
  {
    if |d| > 0 {
      DigitsStayWhole(d[1..]);
    }
  }

  /** A '$' followed by a whole amount up to the end of the text, as in
      "costs $5", is refused by the look-ahead. */
  lemma WholeAmountIsCurrency(n: nat)
    ensures IsCurrencyTail(NatToString(n))
  {
    var d := NatToString(n);
    assert CurrencyStep(Lead, d[0]) == Some(Whole);
    DigitsStayWhole(d[1..]);
  }

  /** The look-ahead refuses only text without '$'. */
  lemma {:induction false} CurrencyLacksDollar(t: string, st: CurrencyState)
    requires CurrencyFrom(t, st)
    ensures Lacks(t, '$')
    decreases |t|
  {
    if |t| > 0 {
      var next := CurrencyStep(st, t[0]);
      assert next.Some?;
      CurrencyLacksDollar(t[1..], next.value);
      assert t[0] != '$';
      assert forall j :: 1 <= j < |t| ==> t[j] == t[1..][j - 1];
    }
  }

  /** So a text ending in "$5" keeps that dollar sign as text. */
  lemma DollarAmountStaysText(n: nat)
    ensures SpansOf(InlinePieces("$" + NatToString(n))) == []
  {
    var d := NatToString(n);
    var s := "$" + d;
    WholeAmountIsCurrency(n);
    assert s[1..] == d;
    assert InlinePieces(s) == [Keep('$')] + InlinePieces(d);
    CurrencyLacksDollar(d, Lead);
    NoDollarInlines(d, InlineKind, 0);
    assert InlinePieces(s)[1..] == InlinePieces(d);
  }

  /** Any '$' with a later '$' and no '$' between is an inline span
      when more follows than an amount: the look-ahead cannot refuse a
      rest that holds a '$'. */
  lemma InlineSpanTaken(x: string, rest: string)
    requires Lacks(x, '$')
    ensures InlinePieces("$" + x + "$" + rest) == [Span("$" + x + "$")] + InlinePieces(rest)
  {
    var s := "$" + x + "$" + rest;
    var t := s[1..];
    assert t == x + "$" + rest;
    assert t[|x|] == '$';
    if IsCurrencyTail(t) {
      CurrencyLacksDollar(t, Lead);
    }
    assert IndexOf(t, '$') == |x|;
    assert s[..|x| + 2] == "$" + x + "$";
    assert s[|x| + 2..] == rest;
  }

  // ---------------------------------------------------------------------
  // The whole preprocessing

  /** `preprocessLaTeX` as written: the escape placeholders are put back
      before the block and inline placeholders. */
  function PreprocessLaTeX(content: string): (r: string)
  {
    var hidden := HideEscapes(content);
    var blocks := BlockPieces(hidden);
    var inlines := InlinePieces(Render(blocks, BlockKind, 0));
    var shown := ShowEscapes(Render(inlines, InlineKind, 0));
    RestoreAll(RestoreAll(shown, BlockKind, SpansOf(blocks)), InlineKind, SpansOf(inlines))
  }

  /** The same passes with the restores in the reverse order of the
      extractions: inline spans, then blocks, then escaped delimiters, so
      that what a span captured comes back the way it was written. */
  function PreprocessLaTeXInOrder(content: string): (r: string)
  {
    var hidden := HideEscapes(content);
    var blocks := BlockPieces(hidden);
    var inlines := InlinePieces(Render(blocks, BlockKind, 0));
    var withBlocks := RestoreAll(Render(inlines, InlineKind, 0), InlineKind, SpansOf(inlines));
    ShowEscapes(RestoreAll(withBlocks, BlockKind, SpansOf(blocks)))
  }

  /** Text with no '$', no escaped delimiter and no three underscores in a
      row comes back unchanged, in either order of restoring. */
  lemma LeftAloneWithoutMarkup(s: string)
    requires Lacks(s, '$') && HasNoEscapes(s) && !Contains(s, Underscores)
    ensures PreprocessLaTeX(s) == s
    ensures PreprocessLaTeXInOrder(s) == s
  {
    HideEscapesNoop(s);
    NoDollarBlocks(s, BlockKind, 0);
    NoDollarInlines(s, InlineKind, 0);
    ShowEscapesNoop(s);
    AbsentPrefix(s, PlaceholderHead(BlockKind), Underscores);
    AbsentPrefix(s, PlaceholderHead(InlineKind), Underscores);
    RestoreAllAbsent(s, BlockKind, []);
    RestoreAllAbsent(s, InlineKind, []);
  }

  // ---------------------------------------------------------------------
  // An escaped delimiter inside a block

  predicate LacksAll(s: string, c1: char, c2: char, c3: char)
  {
    Lacks(s, c1) && Lacks(s, c2) && Lacks(s, c3)
  }

  lemma LacksJoin(x: string, m: string, y: string, c: char)
    requires Lacks(x, c) && Lacks(m, c) && Lacks(y, c)
    ensures Lacks(x + m + y, c)
  {
    var s := x + m + y;
    forall j | 0 <= j < |s|
      ensures s[j] != c
    {
      if j < |x| {
        assert s[j] == x[j];
      } else if j < |x| + |m| {
        assert s[j] == m[j - |x|];
      } else {
        assert s[j] == y[j - |x| - |m|];
      }
    }
  }

  /** Concatenation regrouped, stated on opaque pieces. */
  lemma Regroup<T>(p: seq<T>, a: seq<T>, e: seq<T>, b: seq<T>, q: seq<T>)
    ensures p + a + e + b + q == (p + a) + e + (b + q)
    ensures (p + a) + e + (b + q) == p + (a + e + b) + q
  {
  }

  /** The one escaped delimiter "\[" between text without backslashes
      becomes its placeholder. */
  lemma HideOneEscape(x: string, y: string)
    requires Lacks(x, '\\') && Lacks(y, '\\')
    ensures HideEscapes(x + EscBlockOpen + y) == x + BlockOpen + y
  {
    var e := EscBlockOpen;
    assert e[0] == '\\';
    ReplaceAllPrefixFree(x, e + y, e, BlockOpen);
    ReplaceAllHead(y, e, BlockOpen);
    ReplaceAllLacking(y, e, BlockOpen);
    assert x + e + y == x + (e + y);
    assert x + (BlockOpen + y) == x + BlockOpen + y;
    var z := x + BlockOpen + y;
    assert Lacks(BlockOpen, '\\');
    LacksJoin(x, BlockOpen, y, '\\');
    assert EscBlockClose[0] == '\\' && EscInlineOpen[0] == '\\' && EscInlineClose[0] == '\\';
    ReplaceAllLacking(z, EscBlockClose, BlockClose);
    ReplaceAllLacking(z, EscInlineOpen, InlineOpen);
    ReplaceAllLacking(z, EscInlineClose, InlineClose);
  }

  /** "$$", text without '$', "$$" is one block. */
  lemma WholeBlock(x: string)
    requires Lacks(x, '$')
    ensures BlockPieces(Dollars + x + Dollars) == [Span(Dollars + x + Dollars)]
  {
    var s := Dollars + x + Dollars;
    var t := s[2..];
    assert t == x + Dollars;
    assert t[|x|] == '$' && t[|x| + 1] == '$';
    var k := FirstDouble(t);
    assert k == |x|;
    assert s[..k + 4] == s;
    assert s[k + 4..] == [];
  }

  /** The placeholder of the first block. */
  lemma FirstBlockPlaceholder()
    ensures Placeholder(BlockKind, 0) == "___LATEX_BLOCK_0___"
  {
    assert NatToString(0) == "0";
  }

  /** The first block's placeholder holds no '$', no escape placeholder
      and no inline placeholder. */
  lemma FirstBlockPlaceholderIsInert()
    ensures Lacks(Placeholder(BlockKind, 0), '$')
    ensures !Contains(Placeholder(BlockKind, 0), BlockOpen)
    ensures !Contains(Placeholder(BlockKind, 0), BlockClose)
    ensures !Contains(Placeholder(BlockKind, 0), InlineOpen)
    ensures !Contains(Placeholder(BlockKind, 0), InlineClose)
    ensures !Contains(Placeholder(BlockKind, 0), PlaceholderHead(InlineKind))
  {
    FirstBlockPlaceholder();
    var p := "___LATEX_BLOCK_0___";
    UnderscoresThenL(p, BlockOpen);
    UnderscoresThenL(p, BlockClose);
    UnderscoresThenL(p, InlineOpen);
    UnderscoresThenL(p, InlineClose);
    var h := PlaceholderHead(InlineKind);
    assert h == "___LATEX_INLINE_";
    forall k | 0 <= k <= |p| - |h|
      ensures !OccursAt(p, h, k)
    {
      if k == 0 {
        assert p[9] != h[9];
      } else {
        assert p[3] != h[3 - k];
      }
    }
  }

  /** A text whose fourth character is 'L' holds no pattern of the shape
      "___" and a letter other than 'L' that is at most four shorter. */
  lemma UnderscoresThenL(s: string, q: string)
    requires |s| >= 4 && s[3] == 'L' && |q| >= 4 && |s| < |q| + 4
    requires q[0] == '_' && q[1] == '_' && q[2] == '_' && q[3] != 'L'
    ensures !Contains(s, q)
  {
    forall k | 0 <= k <= |s| - |q|
      ensures !OccursAt(s, q, k)
    {
      assert q[3 - k] != s[3];
    }
  }

  /** Text around one escape placeholder, without underscores of its own,
      holds no block or inline placeholder. */
  lemma NoPlaceholderAround(x: string, y: string)
    requires Lacks(x, '_') && Lacks(y, '_')
    ensures !Contains(x + BlockOpen + y, PlaceholderStart)
  {
    var s := x + BlockOpen + y;
    var h := PlaceholderStart;
    forall k | 0 <= k <= |s| - |h|
      ensures !OccursAt(s, h, k)
    {
      if k < |x| {
        assert s[k] == x[k];
      } else if k + 8 >= |x| + |BlockOpen| {
        assert s[k + 8] == y[k + 8 - |x| - |BlockOpen|];
      } else {
        var o := k - |x|;
        assert s[k] == BlockOpen[o];
        if o < 3 {
          assert s[k + 3 - o] == BlockOpen[3] == 'B';
        } else {
          assert BlockOpen[o] != '_';
        }
      }
    }
  }

  /** As written, "$$a\[b$$" comes back as "$$a___BLOCK_OPEN___b$$": the
      escape inside the block was hidden before the block was taken out,
      and the escape placeholders were put back while the block was still
      out. */
  lemma EscapeInBlockLeaks(a: string, b: string)
    requires LacksAll(a, '$', '_', '\\') && LacksAll(b, '$', '_', '\\')
    ensures PreprocessLaTeX(Dollars + a + EscBlockOpen + b + Dollars) == Dollars + a + BlockOpen + b + Dollars
    ensures PreprocessLaTeX(Dollars + a + EscBlockOpen + b + Dollars) != Dollars + a + EscBlockOpen + b + Dollars
  {
    var input := Dollars + a + EscBlockOpen + b + Dollars;
    var hidden := EscapedBlockStages(a, b);
    var p0 := Placeholder(BlockKind, 0);
    FirstBlockPlaceholderIsInert();
    NoDollarInlines(p0, InlineKind, 0);
    ShowEscapesInert(p0);
    RestoreAtPlaceholder(BlockKind, 0, "", [hidden]);
    assert p0 + "" == p0 && hidden + "" == hidden;
    assert RestoreAll(p0, BlockKind, [hidden]) == hidden;
    var x, y := Dollars + a, b + Dollars;
    LacksJoin(Dollars, a, "", '_');
    LacksJoin(b, Dollars, "", '_');
    assert Dollars + a + "" == x && b + Dollars + "" == y;
    Regroup(Dollars, a, BlockOpen, b, Dollars);
    assert hidden == x + BlockOpen + y;
    NoPlaceholderAround(x, y);
    AbsentPrefix(hidden, PlaceholderHead(InlineKind), PlaceholderStart);
    RestoreAllAbsent(hidden, InlineKind, []);
    assert |hidden| != |input|;
  }

  /** Text holding no escape placeholder is left alone by their restore. */
  lemma ShowEscapesInert(s: string)
    requires !Contains(s, BlockOpen) && !Contains(s, BlockClose)
    requires !Contains(s, InlineOpen) && !Contains(s, InlineClose)
    ensures ShowEscapes(s) == s
  {
    ReplaceAllAbsent(s, BlockOpen, EscBlockOpen);
    ReplaceAllAbsent(s, BlockClose, EscBlockClose);
    ReplaceAllAbsent(s, InlineOpen, EscInlineOpen);
    ReplaceAllAbsent(s, InlineClose, EscInlineClose);
  }

  /** The first two passes on "$$a\[b$$": one block holding the escape
      placeholder. */
  lemma EscapedBlockStages(a: string, b: string) returns (hidden: string)
    requires LacksAll(a, '$', '_', '\\') && LacksAll(b, '$', '_', '\\')
    ensures hidden == Dollars + a + BlockOpen + b + Dollars
    ensures HideEscapes(Dollars + a + EscBlockOpen + b + Dollars) == hidden
    ensures BlockPieces(hidden) == [Span(hidden)]
    ensures Render(BlockPieces(hidden), BlockKind, 0) == Placeholder(BlockKind, 0)
    ensures SpansOf(BlockPieces(hidden)) == [hidden]
  {
    hidden := Dollars + a + BlockOpen + b + Dollars;
    Regroup(Dollars, a, EscBlockOpen, b, Dollars);
    Regroup(Dollars, a, BlockOpen, b, Dollars);
    LacksJoin(Dollars, a, "", '\\');
    LacksJoin(b, Dollars, "", '\\');
    assert Dollars + a + "" == Dollars + a && b + Dollars + "" == b + Dollars;
    HideOneEscape(Dollars + a, b + Dollars);
    assert Lacks(BlockOpen, '$');
    LacksJoin(a, BlockOpen, b, '$');
    WholeBlock(a + BlockOpen + b);
  }

  /** With the restores in reverse order, "$$a\[b$$" comes back as it was
      written. */
  lemma EscapeInBlockKept(a: string, b: string)
    requires LacksAll(a, '$', '_', '\\') && LacksAll(b, '$', '_', '\\')
    ensures PreprocessLaTeXInOrder(Dollars + a + EscBlockOpen + b + Dollars) == Dollars + a + EscBlockOpen + b + Dollars
  {
    var input := Dollars + a + EscBlockOpen + b + Dollars;
    var hidden := EscapedBlockStages(a, b);
    var p0 := Placeholder(BlockKind, 0);
    FirstBlockPlaceholderIsInert();
    NoDollarInlines(p0, InlineKind, 0);
    RestoreAllAbsent(p0, InlineKind, []);
    RestoreAtPlaceholder(BlockKind, 0, "", [hidden]);
    assert p0 + "" == p0 && hidden + "" == hidden;
    assert RestoreAll(p0, BlockKind, [hidden]) == hidden;
    var x, y := Dollars + a, b + Dollars;
    LacksJoin(Dollars, a, "", '_');
    LacksJoin(b, Dollars, "", '_');
    assert Dollars + a + "" == x && b + Dollars + "" == y;
    Regroup(Dollars, a, BlockOpen, b, Dollars);
    Regroup(Dollars, a, EscBlockOpen, b, Dollars);
    assert hidden == x + BlockOpen + y;
    ShowOneEscape(x, y);
    assert x + EscBlockOpen + y == input;
  }

  /** The placeholder of "\[" between text without underscores becomes
      "\[" again, and nothing else changes. */
  lemma ShowOneEscape(x: string, y: string)
    requires Lacks(x, '_') && Lacks(y, '_')
    ensures ShowEscapes(x + BlockOpen + y) == x + EscBlockOpen + y
  {
    var e := BlockOpen;
    ReplaceAllPrefixFree(x, e + y, e, EscBlockOpen);
    ReplaceAllHead(y, e, EscBlockOpen);
    ReplaceAllLacking(y, e, EscBlockOpen);
    assert x + e + y == x + (e + y);
    assert x + (EscBlockOpen + y) == x + EscBlockOpen + y;
    var z := x + EscBlockOpen + y;
    assert Lacks(EscBlockOpen, '_');
    LacksJoin(x, EscBlockOpen, y, '_');
    assert BlockClose[0] == '_' && InlineOpen[0] == '_' && InlineClose[0] == '_';
    ReplaceAllLacking(z, BlockClose, EscBlockClose);
    ReplaceAllLacking(z, InlineOpen, EscInlineOpen);
    ReplaceAllLacking(z, InlineClose, EscInlineClose);
  }
}
