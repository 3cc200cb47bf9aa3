// The whole of `preprocessLaTeX` (components/features/spaces/chat/markdown.tsx)
// with its restores in the reverse order of its extractions gives every
// text without an underscore back unchanged. The proof reads each global
// `replace` of the escaped delimiters as one left-to-right scan and shows
// that a placeholder can only be matched where a pass wrote one.

module MarkdownRoundTrip {
  import opened Opt
  import opened Strings
  import opened Markdown

  // ---------------------------------------------------------------------
  // Restoring when the characters left alone may be underscores

  predicate IsKind(kind: string)
  {
    kind == BlockKind || kind == InlineKind
  }

  /** No "X_" followed by `c` in `x`: the part of "LATEX_BLOCK" or
      "LATEX_INLINE" that tells the two heads apart. */
  predicate Unmarked(x: string, c: char)
  {
    forall j :: 0 <= j < |x| - 2 ==> !(x[j] == 'X' && x[j + 1] == '_' && x[j + 2] == c)
  }

  lemma UnmarkedTail(a: string, b: string, c: char)
    requires Unmarked(a + b, c)
    ensures Unmarked(b, c)
  {
    forall j | 0 <= j < |b| - 2
      ensures !(b[j] == 'X' && b[j + 1] == '_' && b[j + 2] == c)
    {
      assert (a + b)[|a| + j] == b[j] && (a + b)[|a| + j + 1] == b[j + 1] && (a + b)[|a| + j + 2] == b[j + 2];
    }
  }

  /** Two unmarked texts joined, the first ending in two characters other
      than 'X', are unmarked. */
  lemma UnmarkedJoin(a: string, b: string, c: char)
    requires Unmarked(a, c) && Unmarked(b, c)
    requires |a| >= 2 && a[|a| - 2] != 'X' && a[|a| - 1] != 'X'
    ensures Unmarked(a + b, c)
  {
    var s := a + b;
    forall j | 0 <= j < |s| - 2
      ensures !(s[j] == 'X' && s[j + 1] == '_' && s[j + 2] == c)
    {
      if j >= |a| {
        assert s[j] == b[j - |a|] && s[j + 1] == b[j - |a| + 1] && s[j + 2] == b[j - |a| + 2];
      } else if j + 2 < |a| {
        assert s[j] == a[j] && s[j + 1] == a[j + 1] && s[j + 2] == a[j + 2];
      } else {
        assert s[j] == a[j];
      }
    }
  }

  /** One character before an unmarked text whose start does not finish a
      mark with it. */
  lemma UnmarkedCons(x: char, w: string, c: char)
    requires Unmarked(w, c)
    requires !(x == 'X' && |w| >= 2 && w[0] == '_' && w[1] == c)
    ensures Unmarked([x] + w, c)
  {
    var s := [x] + w;
    forall j | 0 <= j < |s| - 2
      ensures !(s[j] == 'X' && s[j + 1] == '_' && s[j + 2] == c)
    {
      if j > 0 {
        assert s[j] == w[j - 1] && s[j + 1] == w[j] && s[j + 2] == w[j + 1];
      }
    }
  }

  /** The head's characters 1 to 9 hold no "___". */
  lemma HeadInner(kind: string, d: nat)
    requires IsKind(kind) && 1 <= d <= 9
    ensures d + 3 <= |PlaceholderHead(kind)|
    ensures PlaceholderHead(kind)[d..d + 3] != Underscores
  {
    var h := PlaceholderHead(kind);
    assert h[..10] == "___LATEX_" + [kind[0]];
    var w := h[d..d + 3];
    if d == 1 {
      assert w[2] == h[3];
    } else if d == 2 || d == 8 {
      assert w[1] == h[d + 1];
    } else {
      assert w[0] == h[d];
    }
  }

  /** A common first character does not decide a prefix. */
  lemma StartsWithCons(c: char, f: string, g: string)
    ensures StartsWith([c] + f, [c] + g) <==> StartsWith(f, g)
  {
    if |g| <= |f| {
      assert ([c] + f)[..1 + |g|] == [c] + f[..|g|];
      assert ([c] + f[..|g|])[1..] == f[..|g|] && ([c] + g)[1..] == g;
    }
  }

  /** A text starting with `q` starts with each prefix of `q`. */
  lemma StartsWithShorter(r: string, q: string, k: nat)
    requires k <= |q|
    ensures StartsWith(r, q) ==> StartsWith(r, q[..k])
  {
    if StartsWith(r, q) {
      assert r[..k] == r[..|q|][..k];
    }
  }

  /** Characters left alone that spell the head's characters from the
      `d`-th on, but not up to its tenth, cannot run on into a rendered
      placeholder: those begin with "___", which the head holds nowhere
      between its characters 1 and 9. */
  lemma {:induction false} NoTruncAt(ps: seq<Piece>, kind: string, n: nat, d: nat)
    requires IsKind(kind) && 1 <= d <= 9
    requires !StartsWith(Flatten(ps), PlaceholderHead(kind)[d..10])
    ensures !StartsWith(Render(ps, kind, n), PlaceholderHead(kind)[d..])
    decreases |ps|
  {
    var h := PlaceholderHead(kind);
    var r := Render(ps, kind, n);
    if |ps| > 0 {
      var rest := ps[1..];
      match ps[0]
      case Keep(c) =>
        assert r == [c] + Render(rest, kind, n);
        assert Flatten(ps) == [c] + Flatten(rest);
        assert Flatten(ps)[..1] == [c] && h[9..10] == [h[9]];
        if c == h[d] {
          assert h[d..10] == [c] + h[d + 1..10];
          StartsWithCons(c, Flatten(rest), h[d + 1..10]);
          NoTruncAt(rest, kind, n, d + 1);
          assert h[d..] == [c] + h[d + 1..];
          StartsWithCons(c, Render(rest, kind, n), h[d + 1..]);
        }
      case Span(_) =>
        NoTruncSpan(ps, kind, n, d);
    }
  }

  /** A rendered span starts with "___", which the head does not hold at
      any of its characters 1 to 9. */
  lemma NoTruncSpan(ps: seq<Piece>, kind: string, n: nat, d: nat)
    requires IsKind(kind) && 1 <= d <= 9 && |ps| > 0 && ps[0].Span?
    ensures !StartsWith(Render(ps, kind, n), PlaceholderHead(kind)[d..])
  {
    var h, r, p := PlaceholderHead(kind), Render(ps, kind, n), Placeholder(kind, n);
    assert r == p + Render(ps[1..], kind, n + 1);
    assert r[..3] == p[..3] == Underscores;
    HeadInner(kind, d);
    assert h[d..][..3] == h[d..d + 3];
    StartsWithShorter(r, h[d..], 3);
  }

  /** A character left alone is copied by the restore pass when the text
      it starts does not start with the placeholder head. */
  lemma RestoreKeepGen(c: char, w: string, kind: string, table: seq<string>)
    requires !StartsWith([c] + w, PlaceholderHead(kind))
    ensures RestoreAll([c] + w, kind, table) == [c] + RestoreAll(w, kind, table)
  {
    assert PlaceholderAt([c] + w, kind).None?;
    assert ([c] + w)[1..] == w;
  }

  /** Restoring a rendered pass gives back the text it was cut from,
      provided the text holds no "X_" followed by the kind's first
      letter: then the characters left alone never complete a
      placeholder head, even where they are underscores. */
  lemma {:induction false} RestoreRenderedMarked(ps: seq<Piece>, kind: string, n: nat, table: seq<string>)
    requires IsKind(kind)
    requires Unmarked(Flatten(ps), kind[0])
    requires TableFrom(table, n, SpansOf(ps))
    ensures RestoreAll(Render(ps, kind, n), kind, table) == Flatten(ps)
    decreases |ps|
  {
    if |ps| > 0 {
      var rest := ps[1..];
      var h := PlaceholderHead(kind);
      match ps[0]
      case Keep(c) =>
        var f := Flatten(rest);
        assert Flatten(ps) == [c] + f;
        UnmarkedTail([c], f, kind[0]);
        assert SpansOf(ps) == SpansOf(rest);
        RestoreRenderedMarked(rest, kind, n, table);
        var w := Render(rest, kind, n);
        KeptNotHead(c, rest, kind, n);
        RestoreKeepGen(c, w, kind, table);
      case Span(t) =>
        assert Flatten(ps) == t + Flatten(rest);
        UnmarkedTail(t, Flatten(rest), kind[0]);
        assert SpansOf(ps) == [t] + SpansOf(rest);
        TableTail(table, n, t, SpansOf(rest));
        RestoreRenderedMarked(rest, kind, n + 1, table);
        RestoreAtPlaceholder(kind, n, Render(rest, kind, n + 1), table);
    }
  }

  /** A kept character, followed by the rendering of the rest, does not
      start a placeholder head when the text holds no mark. */
  lemma KeptNotHead(c: char, rest: seq<Piece>, kind: string, n: nat)
    requires IsKind(kind)
    requires Unmarked([c] + Flatten(rest), kind[0])
    ensures !StartsWith([c] + Render(rest, kind, n), PlaceholderHead(kind))
  {
    var h, f, w := PlaceholderHead(kind), Flatten(rest), Render(rest, kind, n);
    if c == '_' {
      assert h[7] == 'X' && h[8] == '_' && h[9] == kind[0];
      if |f| >= 9 {
        assert ([c] + f)[7] == f[6] && ([c] + f)[8] == f[7] && ([c] + f)[9] == f[8];
        assert f[..9][6] == f[6] && f[..9][7] == f[7] && f[..9][8] == f[8];
        assert h[1..10][6] == h[7] && h[1..10][7] == h[8] && h[1..10][8] == h[9];
      }
      NoTruncAt(rest, kind, n, 1);
      assert h == [c] + h[1..];
      StartsWithCons(c, w, h[1..]);
    } else {
      assert h[0] == '_';
    }
  }

  /** A block placeholder holds "X_B" but no "X_I". */
  lemma BlockPlaceholderUnmarked(n: nat)
    ensures Unmarked(Placeholder(BlockKind, n), 'I')
  {
    var pre := "___LATEX_BLOCK_";
    var d := NatToString(n);
    var p := Placeholder(BlockKind, n);
    assert p == pre + d + Underscores;
    forall j | 0 <= j < |p| - 2
      ensures !(p[j] == 'X' && p[j + 1] == '_' && p[j + 2] == 'I')
    {
      if j < |pre| {
        assert p[j] == pre[j];
        if j == 7 {
          assert p[j + 2] == 'B';
        } else {
          assert pre[j] != 'X';
        }
      } else if j < |pre| + |d| {
        assert p[j] == d[j - |pre|];
      } else {
        assert p[j] == '_';
      }
    }
  }

  /** The block pass puts no "X_I" into a text that had none: its
      placeholders hold none, begin with "__" and end with "__". */
  lemma {:induction false} BlockRenderUnmarked(ps: seq<Piece>, n: nat)
    requires Unmarked(Flatten(ps), 'I')
    ensures Unmarked(Render(ps, BlockKind, n), 'I')
    decreases |ps|
  {
    if |ps| > 0 {
      var rest := ps[1..];
      match ps[0]
      case Keep(c) =>
        var f := Flatten(rest);
        var w := Render(rest, BlockKind, n);
        assert Flatten(ps) == [c] + f;
        UnmarkedTail([c], f, 'I');
        BlockRenderUnmarked(rest, n);
        if c == 'X' && |w| >= 2 && w[0] == '_' {
          match rest[0]
          case Span(_) =>
            assert w[..3] == Placeholder(BlockKind, n)[..3];
          case Keep(c1) =>
            var rest2 := rest[1..];
            assert w == [c1] + Render(rest2, BlockKind, n);
            assert f == [c1] + Flatten(rest2);
            match rest2[0]
            case Span(_) =>
              assert Render(rest2, BlockKind, n)[..3] == Placeholder(BlockKind, n)[..3];
            case Keep(c2) =>
              assert Render(rest2, BlockKind, n)[0] == c2;
              assert Flatten(rest2)[0] == c2;
              assert ([c] + f)[0] == 'X' && ([c] + f)[1] == '_' && ([c] + f)[2] == c2;
        }
        UnmarkedCons(c, w, 'I');
      case Span(_) =>
        var p := Placeholder(BlockKind, n);
        assert Flatten(ps) == ps[0].text + Flatten(rest);
        UnmarkedTail(ps[0].text, Flatten(rest), 'I');
        BlockRenderUnmarked(rest, n + 1);
        BlockPlaceholderUnmarked(n);
        assert p[|p| - 1] == '_' && p[|p| - 2] == '_';
        UnmarkedJoin(p, Render(rest, BlockKind, n + 1), 'I');
    }
  }

  /** The passes for blocks and inline spans and their restores, in
      reverse order, give back the text they started from when it holds
      neither "X_B" nor "X_I". */
  lemma SpansRoundTrip(h: string)
    requires Unmarked(h, 'B') && Unmarked(h, 'I')
    ensures var blocks := BlockPieces(h);
            var inlines := InlinePieces(Render(blocks, BlockKind, 0));
            RestoreAll(RestoreAll(Render(inlines, InlineKind, 0), InlineKind, SpansOf(inlines)),
                       BlockKind, SpansOf(blocks)) == h
  {
    var blocks := BlockPieces(h);
    var hb := Render(blocks, BlockKind, 0);
    var inlines := InlinePieces(hb);
    BlockRenderUnmarked(blocks, 0);
    RestoreOwnTable(inlines, InlineKind);
    RestoreOwnTable(blocks, BlockKind);
  }

  /** A pass restored with its own table gives back what it was cut from. */
  lemma RestoreOwnTable(ps: seq<Piece>, kind: string)
    requires IsKind(kind) && Unmarked(Flatten(ps), kind[0])
    ensures RestoreAll(Render(ps, kind, 0), kind, SpansOf(ps)) == Flatten(ps)
  {
    assert SpansOf(ps)[0..|SpansOf(ps)|] == SpansOf(ps);
    RestoreRenderedMarked(ps, kind, 0, SpansOf(ps));
  }

  // ---------------------------------------------------------------------
  // The four escape passes read as one scan

  function Bracket(i: nat): char
    requires i < 4
  {
    if i == 0 then '[' else if i == 1 then ']' else if i == 2 then '(' else ')'
  }

  /** The escaped delimiters by number: 0 "\[", 1 "\]", 2 "\(", 3 "\)". */
  function Esc(i: nat): (r: string)
    requires i < 4
    ensures |r| == 2 && r[0] == '\\' && r[1] == Bracket(i)
  {
    ['\\', Bracket(i)]
  }

  function Family(i: nat): (r: string)
    requires i < 4
    ensures |r| >= 5 && Lacks(r, '_') && Lacks(r, 'X') && Lacks(r, '\\')
  {
    if i < 2 then BlockKind else InlineKind
  }

  function Side(i: nat): (r: string)
    requires i < 4
    ensures |r| >= 4 && Lacks(r, '_') && Lacks(r, 'X') && Lacks(r, '\\')
  {
    if i % 2 == 0 then "OPEN" else "CLOSE"
  }

  /** The placeholders of the escaped delimiters, by the same numbers. */
  function Ph(i: nat): (r: string)
    requires i < 4
  {
    Underscores + Family(i) + "_" + Side(i) + Underscores
  }

  lemma EscapeTables()
    ensures Esc(0) == EscBlockOpen && Esc(1) == EscBlockClose
    ensures Esc(2) == EscInlineOpen && Esc(3) == EscInlineClose
    ensures Ph(0) == BlockOpen && Ph(1) == BlockClose
    ensures Ph(2) == InlineOpen && Ph(3) == InlineClose
  {
    EscTable();
    PhTable0();
    PhTable1();
    PhTable2();
    PhTable3();
  }

  lemma EscTable()
    ensures Esc(0) == EscBlockOpen && Esc(1) == EscBlockClose
    ensures Esc(2) == EscInlineOpen && Esc(3) == EscInlineClose
  {
  }

  lemma PhTable0()
    ensures Ph(0) == BlockOpen
  {
  }

  lemma PhTable1()
    ensures Ph(1) == BlockClose
  {
  }

  lemma PhTable2()
    ensures Ph(2) == InlineOpen
  {
  }

  lemma PhTable3()
    ensures Ph(3) == InlineClose
  {
  }

  /** A placeholder of an escaped delimiter is "___", letters, a single
      '_', letters and "___": it holds no 'X' and no backslash. */
  lemma PhShape(i: nat)
    requires i < 4
    ensures |Ph(i)| >= 15 && Ph(i)[..3] == Underscores
    ensures Ph(i)[3] == Family(i)[0] && Ph(i)[4 + |Family(i)|] == Side(i)[0]
    ensures Ph(i)[|Ph(i)| - 3..] == Underscores
    ensures Lacks(Ph(i), 'X') && Lacks(Ph(i), '\\')
  {
    var p, f, t := Ph(i), Family(i), Side(i);
    forall j | 0 <= j < |p|
      ensures p[j] != 'X' && p[j] != '\\'
    {
      if 3 <= j < 3 + |f| {
        assert p[j] == f[j - 3];
      } else if 4 + |f| <= j < 4 + |f| + |t| {
        assert p[j] == t[j - 4 - |f|];
      }
    }
  }

  /** Past its start, a placeholder holds "___" only as its last three
      characters. */
  lemma PhInner(i: nat, o: nat)
    requires i < 4 && 1 <= o <= |Ph(i)| - 4
    ensures Ph(i)[o..o + 3] != Underscores
  {
    var p, f, t := Ph(i), Family(i), Side(i);
    var w := p[o..o + 3];
    if o <= 2 {
      assert w[3 - o] == p[3] == f[0];
    } else if o < 3 + |f| {
      assert w[0] == p[o] == f[o - 3];
    } else if o == 3 + |f| {
      assert w[1] == p[o + 1] == t[0];
    } else {
      assert w[0] == p[o] == t[o - 4 - |f|];
    }
  }

  /** Two different placeholders differ within both. */
  lemma PhDistinct(i: nat, k: nat) returns (j: nat)
    requires i < 4 && k < 4 && i != k
    ensures j < |Ph(i)| && j < |Ph(k)| && Ph(i)[j] != Ph(k)[j]
  {
    PhShape(i);
    PhShape(k);
    if (i < 2) != (k < 2) {
      assert Family(i)[0] != Family(k)[0];
      j := 3;
    } else {
      assert Family(i) == Family(k) && i % 2 != k % 2;
      assert Side(i)[0] != Side(k)[0];
      j := 4 + |Family(i)|;
    }
  }

  /** The number of the escaped delimiter `s` starts with, if any. */
  function EscAt(s: string): (r: Option<nat>)
    ensures r.Some? ==> r.value < 4 && StartsWith(s, Esc(r.value))
  {
    if |s| < 2 || s[0] != '\\' then None
    else if s[1] == '[' then Some(0)
    else if s[1] == ']' then Some(1)
    else if s[1] == '(' then Some(2)
    else if s[1] == ')' then Some(3)
    else None
  }

  lemma EscAtOf(s: string, i: nat)
    requires i < 4
    ensures StartsWith(s, Esc(i)) ==> EscAt(s) == Some(i)
  {
  }

  /** The scan that hides the escaped delimiters numbered `lo` to
      `hi - 1` behind their placeholders and leaves every other
      character, read left to right. */
  function HideSome(s: string, lo: nat, hi: nat): (r: string)
    decreases |s|
  {
    if |s| == 0 then ""
    else match EscAt(s)
      case Some(i) =>
        if lo <= i < hi then Ph(i) + HideSome(s[2..], lo, hi)
        else [s[0]] + HideSome(s[1..], lo, hi)
      case None => [s[0]] + HideSome(s[1..], lo, hi)
  }

  /** Hiding no delimiter leaves the text as it is. */
  lemma {:induction false} HideNone(s: string, k: nat)
    ensures HideSome(s, k, k) == s
    decreases |s|
  {
    if |s| > 0 {
      HideNone(s[1..], k);
      assert [s[0]] + s[1..] == s;
    }
  }

  /** The scan starts with the text's first character or with "___". */
  lemma HideSomeHead(t: string, lo: nat, hi: nat)
    requires |t| > 0
    ensures |HideSome(t, lo, hi)| > 0
    ensures HideSome(t, lo, hi)[0] == t[0] || StartsWith(HideSome(t, lo, hi), Underscores)
  {
    match EscAt(t)
    case Some(i) =>
      if lo <= i < hi {
        PhShape(i);
        assert HideSome(t, lo, hi)[..3] == Ph(i)[..3];
      }
    case None =>
  }

  /** The scan over text that starts with an escaped delimiter it leaves:
      the delimiter's two characters, then the scan of the rest. */
  lemma HideSomeLeaves(s: string, lo: nat, hi: nat)
    requires EscAt(s).Some? && !(lo <= EscAt(s).value < hi)
    ensures HideSome(s, lo, hi) == Esc(EscAt(s).value) + HideSome(s[2..], lo, hi)
  {
    var t := s[1..];
    assert EscAt(t).None?;
    assert t[1..] == s[2..];
    assert HideSome(t, lo, hi) == [t[0]] + HideSome(s[2..], lo, hi);
  }

  /** A non-empty text that does not start with a match keeps its first
      character, and the scan goes on from the second. */
  lemma ScanKeep(s: string, p: string, r: string)
    requires |p| > 0 && |s| > 0 && !StartsWith(s, p)
    ensures ReplaceAll(s, p, r) == [s[0]] + ReplaceAll(s[1..], p, r)
  {
    if |s| < |p| {
      assert s == [s[0]] + s[1..];
    }
  }

  /** A text none of whose positions within `w` starts a match is copied
      up to the end of `w` before the scan goes on. */
  lemma {:induction false} ScanPast(w: string, y: string, p: string, r: string)
    requires |p| > 0
    requires forall o :: 0 <= o < |w| ==> !StartsWith(w[o..] + y, p)
    ensures ReplaceAll(w + y, p, r) == w + ReplaceAll(y, p, r)
    decreases |w|
  {
    if |w| > 0 {
      var s := w + y;
      assert w[0..] + y == s;
      ScanKeep(s, p, r);
      assert s[1..] == w[1..] + y;
      forall o | 0 <= o < |w[1..]|
        ensures !StartsWith(w[1..][o..] + y, p)
      {
        assert w[1..][o..] == w[o + 1..];
      }
      ScanPast(w[1..], y, p, r);
      ConsAssoc(w, ReplaceAll(y, p, r));
    } else {
      assert w + y == y;
    }
  }

  /** One escape pass over the scan that hid the delimiters before it
      hides the next one as well. */
  lemma {:induction false} HidePass(s: string, k: nat)
    requires k < 4
    ensures ReplaceAll(HideSome(s, 0, k), Esc(k), Ph(k)) == HideSome(s, 0, k + 1)
    decreases |s|
  {
    if |s| > 0 {
      var x := HideSome(s, 0, k);
      var e := EscAt(s);
      if e.Some? && e.value < k {
        var i := e.value;
        var y := HideSome(s[2..], 0, k);
        HidePass(s[2..], k);
        PhShape(i);
        ReplaceAllPrefixFree(Ph(i), y, Esc(k), Ph(k));
      } else if e.Some? && e.value == k {
        HideSomeLeaves(s, 0, k);
        HidePass(s[2..], k);
        ReplaceAllHead(HideSome(s[2..], 0, k), Esc(k), Ph(k));
      } else {
        var y := HideSome(s[1..], 0, k);
        assert x == [s[0]] + y;
        EscAtOf(s, k);
        if |s| >= 2 {
          HideSomeHead(s[1..], 0, k);
          assert s[..2] == [s[0], s[1]];
        }
        assert [s[0]][0..] + y == [s[0]] + y;
        ScanPast([s[0]], y, Esc(k), Ph(k));
        HidePass(s[1..], k);
      }
    }
  }

  /** The escape pass as written is the scan that hides all four. */
  lemma HideEscapesIsScan(s: string)
    ensures HideEscapes(s) == HideSome(s, 0, 4)
  {
    EscapeTables();
    HideNone(s, 0);
    HidePass(s, 0);
    var s1 := ReplaceAll(s, EscBlockOpen, BlockOpen);
    assert s1 == HideSome(s, 0, 1);
    HidePass(s, 1);
    var s2 := ReplaceAll(s1, EscBlockClose, BlockClose);
    assert s2 == HideSome(s, 0, 2);
    HidePass(s, 2);
    var s3 := ReplaceAll(s2, EscInlineOpen, InlineOpen);
    assert s3 == HideSome(s, 0, 3);
    HidePass(s, 3);
  }

  /** The scan of a text without '_' never starts with text without '_'
      followed by a single '_' and another character: its underscores
      come in the runs of three that open and close a placeholder. */
  lemma {:induction false} NoLoneUnderscore(t: string, lo: nat, hi: nat, w: string, c: char)
    requires Lacks(t, '_') && Lacks(w, '_') && c != '_'
    ensures !StartsWith(HideSome(t, lo, hi), w + ['_', c])
    decreases |t|
  {
    if |t| > 0 {
      var x := HideSome(t, lo, hi);
      var q := w + ['_', c];
      var e := EscAt(t);
      if e.Some? && lo <= e.value < hi {
        PhShape(e.value);
        assert x[0] == '_' && x[1] == '_';
      } else {
        var y := HideSome(t[1..], lo, hi);
        assert x == [t[0]] + y;
        assert x[0] == t[0] && t[0] != '_';
        assert q[0] == if |w| > 0 then w[0] else '_';
        if |w| > 0 && t[0] == w[0] {
          NoLoneUnderscore(t[1..], lo, hi, w[1..], c);
          assert q == [t[0]] + (w[1..] + ['_', c]);
          StartsWithCons(t[0], y, w[1..] + ['_', c]);
        }
      }
    }
  }

  /** A text starting with `u` followed by `y` starts with `q` only if
      `y` starts with what follows `u` in `q`. */
  lemma StartsWithAppend(u: string, y: string, q: string)
    requires |u| <= |q|
    ensures StartsWith(u + y, q) ==> StartsWith(y, q[|u|..])
  {
    if StartsWith(u + y, q) {
      assert y[..|q| - |u|] == (u + y)[..|q|][|u|..];
    }
  }

  /** A match of another placeholder cannot start at a placeholder's
      first character: the two differ within both. */
  lemma PhOffsetStart(i: nat, k: nat, y: string)
    requires i < 4 && k < 4 && i != k
    ensures !StartsWith(Ph(i) + y, Ph(k))
  {
    var p, q, z := Ph(i), Ph(k), Ph(i) + y;
    var j := PhDistinct(i, k);
    assert z[j] == p[j];
    StartsWithShorter(z, q, j + 1);
    assert q[..j + 1][j] == q[j];
  }

  /** Nor inside it, where it holds no "___". */
  lemma PhOffsetInner(i: nat, k: nat, y: string, o: nat)
    requires i < 4 && k < 4 && 1 <= o <= |Ph(i)| - 4
    ensures !StartsWith(Ph(i)[o..] + y, Ph(k))
  {
    var p, q := Ph(i), Ph(k);
    var z := p[o..] + y;
    PhShape(k);
    PhInner(i, o);
    assert z[..3] == p[o..o + 3];
    StartsWithShorter(z, q, 3);
  }

  /** What follows one, two and three of a placeholder's leading
      underscores. */
  lemma PhHead(k: nat)
    requires k < 4
    ensures Ph(k)[1..][..3] == ['_', '_', Family(k)[0]]
    ensures Ph(k)[2..][..2] == ['_', Family(k)[0]]
    ensures Ph(k)[3..][..|Family(k)| + 2] == Family(k) + ['_', Side(k)[0]]
  {
    var q, f := Ph(k), Family(k);
    var rest := "_" + (Side(k) + Underscores);
    assert q == Underscores + (f + rest);
    assert q[3..] == f + rest;
    assert (f + rest)[..|f| + 2] == f + rest[..2];
  }

  /** The scan of a text without '_' does not go on with the rest of a
      placeholder after one, two or three of its leading underscores. */
  lemma NoPhRest(k: nat, t: string, lo: nat, hi: nat, m: nat)
    requires k < 4 && Lacks(t, '_') && 1 <= m <= 3
    ensures !StartsWith(HideSome(t, lo, hi), Ph(k)[m..])
  {
    var y, q, f := HideSome(t, lo, hi), Ph(k), Family(k);
    PhHead(k);
    if m == 3 {
      NoLoneUnderscore(t, lo, hi, f, Side(k)[0]);
      StartsWithShorter(y, q[3..], |f| + 2);
    } else if m == 2 {
      NoLoneUnderscore(t, lo, hi, "", f[0]);
      assert "" + ['_', f[0]] == ['_', f[0]];
      StartsWithShorter(y, q[2..], 2);
    } else {
      if |t| > 0 {
        HideSomeHead(t, lo, hi);
      }
      StartsWithShorter(y, q[1..], 3);
    }
  }

  /** Nor in its closing "___", since the scan after it never goes on
      with "_" and the rest of a placeholder's head. */
  lemma PhOffsetEnd(i: nat, k: nat, t: string, lo: nat, hi: nat, o: nat)
    requires i < 4 && k < 4 && Lacks(t, '_') && |Ph(i)| - 3 <= o < |Ph(i)|
    ensures !StartsWith(Ph(i)[o..] + HideSome(t, lo, hi), Ph(k))
  {
    var p, q := Ph(i), Ph(k);
    var m := |p| - o;
    PhEndIs(i, o);
    PhStartIs(k, m);
    StartsWithAppend(p[o..], HideSome(t, lo, hi), q);
    NoPhRest(k, t, lo, hi, m);
  }

  /** The last one to three characters of a placeholder are underscores. */
  lemma PhEndIs(i: nat, o: nat)
    requires i < 4 && |Ph(i)| - 3 <= o < |Ph(i)|
    ensures Ph(i)[o..] == Underscores[..|Ph(i)| - o]
  {
    var p := Ph(i);
    PhShape(i);
    forall j | 0 <= j < |p| - o
      ensures p[o..][j] == Underscores[j]
    {
      assert p[o..][j] == p[|p| - 3..][o + j - (|p| - 3)];
    }
  }

  /** So are its first one to three. */
  lemma PhStartIs(k: nat, m: nat)
    requires k < 4 && 1 <= m <= 3
    ensures |Ph(k)| >= m && Ph(k)[..m] == Underscores[..m]
  {
    PhShape(k);
    assert Ph(k)[..m] == Ph(k)[..3][..m];
  }

  /** The restore pass of the `k`-th escaped delimiter scans past any
      other placeholder: no match starts inside one. */
  lemma PhPast(i: nat, k: nat, t: string, lo: nat, hi: nat)
    requires i < 4 && k < 4 && i != k && Lacks(t, '_')
    ensures var y := HideSome(t, lo, hi);
            ReplaceAll(Ph(i) + y, Ph(k), Esc(k)) == Ph(i) + ReplaceAll(y, Ph(k), Esc(k))
  {
    var y := HideSome(t, lo, hi);
    var p := Ph(i);
    forall o | 0 <= o < |p|
      ensures !StartsWith(p[o..] + y, Ph(k))
    {
      if o == 0 {
        assert p[o..] == p;
        PhOffsetStart(i, k, y);
      } else if o <= |p| - 4 {
        PhOffsetInner(i, k, y, o);
      } else {
        PhOffsetEnd(i, k, t, lo, hi, o);
      }
    }
    ScanPast(p, y, Ph(k), Esc(k));
  }

  /** One escape restore pass over the scan that hid the delimiters from
      the `k`-th on puts the `k`-th back: the scan then hides only those
      after it. */
  lemma {:induction false} ShowPass(s: string, k: nat)
    requires k < 4 && Lacks(s, '_')
    ensures ReplaceAll(HideSome(s, k, 4), Ph(k), Esc(k)) == HideSome(s, k + 1, 4)
    decreases |s|
  {
    if |s| > 0 {
      var x := HideSome(s, k, 4);
      var e := EscAt(s);
      PhShape(k);
      if e.Some? && e.value == k {
        HideSomeLeaves(s, k + 1, 4);
        ShowPass(s[2..], k);
        ReplaceAllHead(HideSome(s[2..], k, 4), Ph(k), Esc(k));
      } else if e.Some? && e.value > k {
        var i := e.value;
        ShowPass(s[2..], k);
        PhPast(i, k, s[2..], k, 4);
      } else {
        var y := HideSome(s[1..], k, 4);
        assert x == [s[0]] + y;
        ShowPass(s[1..], k);
        ReplaceAllPrefixFree([s[0]], y, Ph(k), Esc(k));
      }
    }
  }

  /** On text without '_' the escape restore undoes the escape pass. */
  lemma EscapesRoundTrip(s: string)
    requires Lacks(s, '_')
    ensures ShowEscapes(HideEscapes(s)) == s
  {
    HideEscapesIsScan(s);
    EscapeTables();
    ShowPass(s, 0);
    ShowPass(s, 1);
    ShowPass(s, 2);
    ShowPass(s, 3);
    HideNone(s, 4);
  }

  /** The escape pass puts no "X_" followed by a letter other than '_'
      into text without '_'. */
  lemma {:induction false} HideSomeUnmarked(t: string, lo: nat, hi: nat, c: char)
    requires Lacks(t, '_') && c != '_'
    ensures Unmarked(HideSome(t, lo, hi), c)
    decreases |t|
  {
    if |t| > 0 {
      var e := EscAt(t);
      if e.Some? && lo <= e.value < hi {
        var p := Ph(e.value);
        PhShape(e.value);
        HideSomeUnmarked(t[2..], lo, hi, c);
        assert p[|p| - 2] == '_' && p[|p| - 1] == '_';
        UnmarkedJoin(p, HideSome(t[2..], lo, hi), c);
      } else {
        var y := HideSome(t[1..], lo, hi);
        HideSomeUnmarked(t[1..], lo, hi, c);
        if |t| >= 2 {
          HideSomeHead(t[1..], lo, hi);
        }
        UnmarkedCons(t[0], y, c);
      }
    }
  }

  // ---------------------------------------------------------------------
  // The whole preprocessing

  /** With its restores in the reverse order of its extractions, the
      preprocessing gives back every text without an underscore: escaped
      delimiters, `$$` blocks and `$` spans, nested in any way. */
  lemma InOrderRoundTrip(s: string)
    requires Lacks(s, '_')
    ensures PreprocessLaTeXInOrder(s) == s
  {
    HideEscapesIsScan(s);
    HideSomeUnmarked(s, 0, 4, 'B');
    HideSomeUnmarked(s, 0, 4, 'I');
    SpansRoundTrip(HideEscapes(s));
    EscapesRoundTrip(s);
  }

  // ---------------------------------------------------------------------
  // A block inside an inline span, as written

  /** A character other than '$' starts no block. */
  lemma BlockKeep(s: string)
    requires |s| > 0 && !StartsWith(s, Dollars)
    ensures BlockPieces(s) == [Keep(s[0])] + BlockPieces(s[1..])
  {
  }

  /** A character left alone is rendered as itself and adds no span. */
  lemma RenderKeep(c: char, ps: seq<Piece>, kind: string, n: nat)
    ensures Render([Keep(c)] + ps, kind, n) == [c] + Render(ps, kind, n)
    ensures SpansOf([Keep(c)] + ps) == SpansOf(ps)
  {
    assert ([Keep(c)] + ps)[1..] == ps;
  }

  /** A span is rendered as the next placeholder and is the next span. */
  lemma RenderSpan(t: string, ps: seq<Piece>, kind: string, n: nat)
    ensures Render([Span(t)] + ps, kind, n) == Placeholder(kind, n) + Render(ps, kind, n + 1)
    ensures SpansOf([Span(t)] + ps) == [t] + SpansOf(ps)
  {
    assert ([Span(t)] + ps)[1..] == ps;
  }

  /** Characters without '$' ahead of the block pass's input are left
      alone. */
  lemma BlocksAfterPlain(x: string, rest: string, n: nat)
    requires Lacks(x, '$')
    ensures Render(BlockPieces(x + rest), BlockKind, n) == x + Render(BlockPieces(rest), BlockKind, n)
    ensures SpansOf(BlockPieces(x + rest)) == SpansOf(BlockPieces(rest))
  {
    PlainRendered(x, rest, n);
    PlainNoSpans(x, rest);
  }

  lemma {:induction false} PlainRendered(x: string, rest: string, n: nat)
    requires Lacks(x, '$')
    ensures Render(BlockPieces(x + rest), BlockKind, n) == x + Render(BlockPieces(rest), BlockKind, n)
    decreases |x|
  {
    if |x| > 0 {
      var s, y := x + rest, x[1..] + rest;
      assert s[0] == x[0] && s[1..] == y;
      assert s[..1] == [x[0]];
      BlockKeep(s);
      RenderKeep(x[0], BlockPieces(y), BlockKind, n);
      PlainRendered(x[1..], rest, n);
      ConsAssoc(x, Render(BlockPieces(rest), BlockKind, n));
    } else {
      assert x + rest == rest;
    }
  }

  lemma ConsAssoc(x: string, r: string)
    requires |x| > 0
    ensures [x[0]] + (x[1..] + r) == x + r
  {
    assert x == [x[0]] + x[1..];
  }

  lemma {:induction false} PlainNoSpans(x: string, rest: string)
    requires Lacks(x, '$')
    ensures SpansOf(BlockPieces(x + rest)) == SpansOf(BlockPieces(rest))
    decreases |x|
  {
    if |x| > 0 {
      var s, y := x + rest, x[1..] + rest;
      assert s[0] == x[0] && s[1..] == y;
      assert s[..1] == [x[0]];
      BlockKeep(s);
      RenderKeep(x[0], BlockPieces(y), BlockKind, 0);
      PlainNoSpans(x[1..], rest);
    } else {
      assert x + rest == rest;
    }
  }

  /** "$$", text without '$', "$$" at the start is the first block. */
  lemma BlockAtStart(b: string, rest: string)
    requires Lacks(b, '$')
    ensures BlockPieces(Dollars + b + Dollars + rest) == [Span(Dollars + b + Dollars)] + BlockPieces(rest)
  {
    var s := Dollars + b + Dollars + rest;
    var t := s[2..];
    assert t == b + Dollars + rest;
    assert t[|b|] == '$' && t[|b| + 1] == '$';
    var k := FirstDouble(t);
    assert k == |b|;
    assert s[..k + 4] == Dollars + b + Dollars;
    assert s[k + 4..] == rest;
  }

  /** The first inline placeholder holds no escape placeholder and no
      block placeholder head. */
  lemma FirstInlinePlaceholderIsInert()
    ensures Placeholder(InlineKind, 0) == "___LATEX_INLINE_0___"
    ensures ShowEscapes(Placeholder(InlineKind, 0)) == Placeholder(InlineKind, 0)
    ensures !Contains(Placeholder(InlineKind, 0), PlaceholderHead(BlockKind))
  {
    FirstInlineSpelled();
    FirstInlineShown();
    NotInFirstInline(PlaceholderHead(BlockKind));
  }

  lemma FirstInlineSpelled()
    ensures Placeholder(InlineKind, 0) == "___LATEX_INLINE_0___"
  {
    assert NatToString(0) == "0";
  }

  lemma FirstInlineShown()
    ensures ShowEscapes("___LATEX_INLINE_0___") == "___LATEX_INLINE_0___"
  {
    NotInFirstInline(BlockOpen);
    NotInFirstInline(BlockClose);
    NotInFirstInline(InlineOpen);
    NotInFirstInline(InlineClose);
    ShowEscapesInert("___LATEX_INLINE_0___");
  }

  /** A pattern of at least 15 characters starting with "___" and not
      with "___L" or not with "___LATEX_I" is not in the first inline
      placeholder. */
  lemma NotInFirstInline(q: string)
    requires |q| >= 15 && q[..3] == Underscores && (q[3] != 'L' || q[9] != 'I')
    ensures !Contains("___LATEX_INLINE_0___", q)
  {
    var p := "___LATEX_INLINE_0___";
    forall k | 0 <= k <= |p| - |q|
      ensures !OccursAt(p, q, k)
    {
      var w := p[k..k + |q|];
      if k == 0 {
        assert w[3] == p[3] && w[9] == p[9];
      } else if k <= 3 {
        assert w[3 - k] == p[3] && q[3 - k] == q[..3][3 - k];
      } else {
        assert w[0] == p[k] && q[0] == q[..3][0];
      }
    }
  }

  /** The block pass on "$a$$b$$c$": '$', a, one block, c, '$'. */
  lemma NestedBlockPass(a: string, b: string, c: string, s: string)
    requires |a| > 0 && Lacks(a, '$') && Lacks(b, '$') && Lacks(c, '$')
    requires s == "$" + a + Dollars + b + Dollars + c + "$"
    ensures Render(BlockPieces(s), BlockKind, 0) == "$" + (a + Placeholder(BlockKind, 0) + c) + "$"
    ensures SpansOf(BlockPieces(s)) == [Dollars + b + Dollars]
  {
    var block := Dollars + b + Dollars;
    var p0 := Placeholder(BlockKind, 0);
    var t := a + (block + (c + "$"));
    assert s == "$" + t;
    assert s[1..] == t && s[..2] == ['$', a[0]];
    BlockKeep(s);
    RenderKeep('$', BlockPieces(t), BlockKind, 0);
    BlocksAfterPlain(a, block + (c + "$"), 0);
    BlockAtStart(b, c + "$");
    RenderSpan(block, BlockPieces(c + "$"), BlockKind, 0);
    BlocksAfterPlain(c, "$", 1);
    assert BlockPieces("$") == [Keep('$')] + BlockPieces("");
    RenderKeep('$', [], BlockKind, 1);
    Regroup4("$", a, p0, c);
  }

  /** Concatenations regrouped, stated on opaque pieces. */
  lemma Regroup4<T>(d: seq<T>, a: seq<T>, p: seq<T>, c: seq<T>)
    ensures d + (a + (p + (c + d))) == d + (a + p + c) + d
    ensures d + (a + p + c) + d == d + a + p + c + d
  {
  }

  /** The inline pass on '$', text without '$', '$': one span. */
  lemma WholeInlinePass(x: string, hb: string)
    requires Lacks(x, '$') && hb == "$" + x + "$"
    ensures Render(InlinePieces(hb), InlineKind, 0) == Placeholder(InlineKind, 0)
    ensures SpansOf(InlinePieces(hb)) == [hb]
  {
    InlineSpanTaken(x, "");
    assert hb + "" == hb;
    RenderSpan(hb, [], InlineKind, 0);
    assert Placeholder(InlineKind, 0) + "" == Placeholder(InlineKind, 0);
  }

  /** As written, "$a$$b$$c$" comes back as "$a___LATEX_BLOCK_0___c$":
      the inline span from the first '$' to the last captured the block's
      placeholder, and the blocks were put back before the inline span
      that held one. Restoring in reverse order gives the text back. */
  lemma NestedBlockLeaks(a: string, b: string, c: string)
    requires |a| > 0
    requires LacksAll(a, '$', '_', '\\') && LacksAll(b, '$', '_', '\\') && LacksAll(c, '$', '_', '\\')
    ensures PreprocessLaTeX("$" + a + Dollars + b + Dollars + c + "$")
            == "$" + a + Placeholder(BlockKind, 0) + c + "$"
    ensures PreprocessLaTeX("$" + a + Dollars + b + Dollars + c + "$")
            != "$" + a + Dollars + b + Dollars + c + "$"
    ensures PreprocessLaTeXInOrder("$" + a + Dollars + b + Dollars + c + "$")
            == "$" + a + Dollars + b + Dollars + c + "$"
  {
    var s := "$" + a + Dollars + b + Dollars + c + "$";
    var out := "$" + a + Placeholder(BlockKind, 0) + c + "$";
    NestedAsWritten(a, b, c);
    assert s[1 + |a|] == '$';
    assert out[1 + |a|] == Placeholder(BlockKind, 0)[0] == '_';
    LacksJoin("$", a, Dollars, '_');
    LacksJoin("$" + a + Dollars, b, Dollars, '_');
    LacksJoin("$" + a + Dollars + b + Dollars, c, "$", '_');
    InOrderRoundTrip(s);
  }

  /** The as-written pipeline on an inline span around a block. */
  lemma NestedAsWritten(a: string, b: string, c: string)
    requires |a| > 0
    requires LacksAll(a, '$', '_', '\\') && LacksAll(b, '$', '_', '\\') && LacksAll(c, '$', '_', '\\')
    ensures PreprocessLaTeX("$" + a + Dollars + b + Dollars + c + "$")
            == "$" + a + Placeholder(BlockKind, 0) + c + "$"
  {
    var s := "$" + a + Dollars + b + Dollars + c + "$";
    var block := Dollars + b + Dollars;
    var p0 := Placeholder(BlockKind, 0);
    var q0 := Placeholder(InlineKind, 0);
    LacksJoin("$", a, Dollars, '\\');
    LacksJoin("$" + a + Dollars, b, Dollars, '\\');
    LacksJoin("$" + a + Dollars + b + Dollars, c, "$", '\\');
    HideEscapesIsScan(s);
    HideNoBackslash(s, 0, 4);
    NestedBlockPass(a, b, c, s);
    var hb := "$" + (a + p0 + c) + "$";
    FirstBlockPlaceholderIsInert();
    LacksJoin(a, p0, c, '$');
    WholeInlinePass(a + p0 + c, hb);
    FirstInlinePlaceholderIsInert();
    RestoreAllAbsent(q0, BlockKind, [block]);
    RestoreAtPlaceholder(InlineKind, 0, "", [hb]);
    assert q0 + "" == q0 && hb + "" == hb;
    Regroup4("$", a, p0, c);
  }

  /** The scan leaves text without a backslash as it is. */
  lemma {:induction false} HideNoBackslash(s: string, lo: nat, hi: nat)
    requires Lacks(s, '\\')
    ensures HideSome(s, lo, hi) == s
    decreases |s|
  {
    if |s| > 0 {
      HideNoBackslash(s[1..], lo, hi);
      assert [s[0]] + s[1..] == s;
    }
  }
}
