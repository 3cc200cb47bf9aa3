// The typewriter effect of components/message-typing.tsx: after the
// initial delay, each timer tick reveals up to `speed` more code units of
// the content, and a final tick marks the animation complete and calls
// `onComplete`. Timers are modelled as explicit calls to `Tick`.
//
// A JavaScript string is a sequence of UTF-16 code units, and `length`
// and `substring` count code units, not characters. The content is
// therefore modelled as a sequence of code units; `Utf16` relates it to
// the characters of a Dafny string.

module MessageTyping {
  import opened Opt

  /** The `speed` default of both TypewriterEffect and TypingMessage. */
  const DefaultSpeed: int := 10
  /** The `delay` default of TypewriterEffect. */
  const DefaultDelay: int := 0

  // ---------------------------------------------------------------------
  // JavaScript strings

  /** A UTF-16 code unit. */
  newtype CodeUnit = x: int | 0 <= x < 0x1_0000

  /** A JavaScript string: `length` is the number of code units, and
      `substring(0, n)` keeps the first `n` of them. */
  type JsString = seq<CodeUnit>

  predicate IsHighSurrogate(u: CodeUnit) { 0xD800 <= u < 0xDC00 }
  predicate IsLowSurrogate(u: CodeUnit) { 0xDC00 <= u < 0xE000 }

  /** A character outside the Basic Multilingual Plane. */
  predicate IsAstral(c: char) { c as int >= 0x1_0000 }

  /** The UTF-16 encoding of one character: itself when it is in the
      Basic Multilingual Plane, otherwise a high and a low surrogate. */
  function CharUnits(c: char): (r: JsString)
    ensures |r| == if IsAstral(c) then 2 else 1
    ensures |r| == 1 ==> r[0] as int == c as int && !IsHighSurrogate(r[0]) && !IsLowSurrogate(r[0])
    ensures |r| == 2 ==> IsHighSurrogate(r[0]) && IsLowSurrogate(r[1])
  {
    var n := c as int;
    if n < 0x1_0000 then [n as CodeUnit]
    else [(0xD800 + (n - 0x1_0000) / 0x400) as CodeUnit, (0xDC00 + (n - 0x1_0000) % 0x400) as CodeUnit]
  }

  /** The JavaScript string holding a text: its characters' encodings, in
      order. */
  function Utf16(s: string): (r: JsString)
    ensures |r| >= |s|
    decreases |s|
  {
    if s == [] then []
    else
      var n := |s| - 1;
      Utf16(s[..n]) + CharUnits(s[n])
  }

  /** A text's JavaScript `length` exceeds its number of characters
      exactly when it holds a character outside the Basic Multilingual
      Plane. */
  lemma {:induction false} LengthCountsAstral(s: string)
    ensures |Utf16(s)| > |s| <==> exists i :: 0 <= i < |s| && IsAstral(s[i])
    decreases |s|
  {
    if s != [] {
      var n := |s| - 1;
      LengthCountsAstral(s[..n]);
      assert forall i :: 0 <= i < n ==> s[..n][i] == s[i];
      if exists i :: 0 <= i < n && IsAstral(s[i]) {
        var i :| 0 <= i < n && IsAstral(s[i]);
        assert IsAstral(s[..n][i]);
      }
    }
  }

  /** The encoding of a text never ends with a high surrogate. */
  lemma {:induction false} NoTrailingHigh(s: string)
    ensures |Utf16(s)| > 0 ==> !IsHighSurrogate(Utf16(s)[|Utf16(s)| - 1])
  {
    if s != [] {
      var n := |s| - 1;
      var u := CharUnits(s[n]);
      assert Utf16(s)[|Utf16(s)| - 1] == u[|u| - 1];
    }
  }

  /** A chunk boundary that falls inside a character outside the Basic
      Multilingual Plane shows half of its surrogate pair: the code units
      shown are the encoding of no text at all. */
  lemma HalfPairShown(before: string, c: char)
    requires IsAstral(c)
    ensures var shown := Utf16(before + [c])[..|Utf16(before)| + 1];
            shown[|shown| - 1] == CharUnits(c)[0]
            && forall t: string :: Utf16(t) != shown
  {
    var s := before + [c];
    assert s[..|s| - 1] == before;
    var shown := Utf16(s)[..|Utf16(before)| + 1];
    assert shown[|shown| - 1] == CharUnits(c)[0];
    forall t: string
      ensures Utf16(t) != shown
    {
      NoTrailingHigh(t);
    }
  }

  // ---------------------------------------------------------------------
  // The component

  class Typewriter {
    var content: JsString
    var speed: int
    var delay: int
    /** `displayedContent`. */
    var displayed: JsString
    var isComplete: bool
    /** `currentPos` of the running animation. */
    var pos: nat
    /** How many chunks were shown, and how often `onComplete` fired. */
    var chunks: nat
    var completions: nat

    ghost predicate Valid()
      reads this
    {
      speed > 0 && pos <= |content| && displayed == content[..pos]
      && (isComplete ==> pos == |content|)
      && (|content| == 0 ==> chunks == 0)
      && (chunks > 0 ==> (chunks - 1) * speed < pos)
      && (pos < |content| ==> pos == chunks * speed)
      && pos <= chunks * speed
    }

    /** The component mounts: nothing is shown yet. A missing `speed`
        prop is 10 and a missing `delay` prop is 0. */
    constructor(c: JsString, speedProp: Option<int>, delayProp: Option<int>)
      requires speedProp.None? || speedProp.value > 0
      ensures Valid()
      ensures content == c && speed == speedProp.GetOr(DefaultSpeed) && delay == delayProp.GetOr(DefaultDelay)
      ensures displayed == [] && !isComplete && pos == 0 && chunks == 0 && completions == 0
    {
      content := c;
      speed := speedProp.GetOr(DefaultSpeed);
      delay := delayProp.GetOr(DefaultDelay);
      displayed := [];
      isComplete := false;
      pos := 0;
      chunks := 0;
      completions := 0;
    }

    /** The component renders with new props: when `content`, `speed` or
        `delay` differs from the last render, the effect starts over with
        nothing shown; otherwise the running animation goes on. */
    method SetProps(c: JsString, speedProp: Option<int>, delayProp: Option<int>)
      requires Valid()
      requires speedProp.None? || speedProp.value > 0
      modifies this`content, this`speed, this`delay, this`displayed, this`isComplete, this`pos, this`chunks
      ensures Valid()
      ensures content == c && speed == speedProp.GetOr(DefaultSpeed) && delay == delayProp.GetOr(DefaultDelay)
      ensures (c, speed, delay) != old((content, speed, delay)) ==>
                displayed == [] && !isComplete && pos == 0 && chunks == 0
      ensures (c, speed, delay) == old((content, speed, delay)) ==>
                displayed == old(displayed) && isComplete == old(isComplete) && pos == old(pos) && chunks == old(chunks)
    {
      var s := speedProp.GetOr(DefaultSpeed);
      var d := delayProp.GetOr(DefaultDelay);
      if (c, s, d) != (content, speed, delay) {
        content, speed, delay := c, s, d;
        displayed := [];
        isComplete := false;
        pos := 0;
        chunks := 0;
      }
    }

    /** One call of `processNextChunk`: either the next `min(speed,
        remaining)` code units appear, or, with nothing left, the
        animation completes and `onComplete` fires. */
    method Tick()
      requires Valid() && !isComplete
      modifies this`displayed, this`isComplete, this`pos, this`chunks, this`completions
      ensures Valid()
      ensures old(pos) < |content| ==>
                pos == old(pos) + (if speed < |content| - old(pos) then speed else |content| - old(pos))
                && |displayed| > |old(displayed)| && displayed[..|old(displayed)|] == old(displayed)
                && !isComplete && chunks == old(chunks) + 1 && completions == old(completions)
      ensures old(pos) == |content| ==>
                isComplete && displayed == content && chunks == old(chunks)
                && completions == old(completions) + 1
    {
      if pos < |content| {
        var chunk := if speed < |content| - pos then speed else |content| - pos;
        assert (chunks + 1) * speed == chunks * speed + speed;
        displayed := content[..pos + chunk];
        pos := pos + chunk;
        chunks := chunks + 1;
      } else {
        isComplete := true;
        completions := completions + 1;
      }
    }

    /** The whole animation from the start: it ends showing the full
        content after `ceil(length / speed)` chunks, the length counted in
        code units, and `onComplete` fires exactly once. */
    method Run()
      requires Valid() && pos == 0 && !isComplete
      modifies this`displayed, this`isComplete, this`pos, this`chunks, this`completions
      ensures Valid()
      ensures isComplete && displayed == content
      ensures completions == old(completions) + 1
      ensures |content| == 0 ==> chunks == 0
      ensures |content| > 0 ==> (chunks - 1) * speed < |content| <= chunks * speed
    {
      var start := completions;
      while !isComplete
        invariant Valid()
        invariant isComplete ==> completions == start + 1
        invariant !isComplete ==> completions == start
        decreases |content| - pos, if isComplete then 0 else 1
      {
        Tick();
      }
    }
  }
}
