// The command-line rules the terminal-style inputs share: when the
// command suggestions show, how a submission is recorded in the command
// history, how ArrowUp/ArrowDown walk that history, how Tab completes a
// command, and which word a command dispatches on.

module CommandLine {
  import opened Strings
  import Seqs

  /** The keys the terminal inputs react to; every other key is `OtherKey`. */
  datatype Key = Enter(shift: bool) | ArrowUp | ArrowDown | Tab | Escape | OtherKey

  /** A command of a suggestion list: its name and what it does. */
  datatype Command = Command(name: string, description: string)

  /** The suggestion list shows for a '/'-prefixed input without a space. */
  predicate ShowsSuggestions(v: string)
  {
    StartsWith(v, "/") && Lacks(v, ' ')
  }

  // ---------------------------------------------------------------------
  // History recording

  /** The history after submitting `v`: `v` is appended unless it repeats
      the newest entry. */
  function Record(h: seq<string>, v: string): (r: seq<string>)
    ensures |r| > 0 && r[|r| - 1] == v
    ensures h <= r && |r| <= |h| + 1
    ensures |r| == |h| <==> |h| > 0 && h[|h| - 1] == v
  {
    if |h| == 0 || h[|h| - 1] != v then h + [v] else h
  }

  /** No entry repeats the one before it. */
  predicate NoRepeats(h: seq<string>)
  {
    forall i :: 1 <= i < |h| ==> h[i] != h[i - 1]
  }

  /** Recording keeps the history free of immediate repeats. */
  lemma RecordNoRepeats(h: seq<string>, v: string)
    requires NoRepeats(h)
    ensures NoRepeats(Record(h, v))
  {
    var r := Record(h, v);
    forall i | 1 <= i < |r|
      ensures r[i] != r[i - 1]
    {
      if i < |h| {
        assert r[i] == h[i] && r[i - 1] == h[i - 1];
      }
    }
  }

  /** Every entry is non-blank. */
  predicate AllNonBlank(h: seq<string>)
  {
    forall i :: 0 <= i < |h| ==> !IsBlank(h[i])
  }

  /** Recording a non-blank submission keeps every entry non-blank. */
  lemma RecordNonBlank(h: seq<string>, v: string)
    requires AllNonBlank(h) && !IsBlank(v)
    ensures AllNonBlank(Record(h, v))
  {
  }

  // ---------------------------------------------------------------------
  // History navigation

  /** The input text together with the history index: -1 is the live
      input, `i >= 0` the entry `i` places back from the newest. */
  datatype Nav = Nav(input: string, index: int)

  predicate NavIn(h: seq<string>, n: Nav)
  {
    -1 <= n.index < |h|
  }

  /** The text shown for history index `i`: the empty live input at -1. */
  function Recall(h: seq<string>, i: int): string
    requires -1 <= i < |h|
  {
    if i == -1 then "" else h[|h| - 1 - i]
  }

  /** ArrowUp as written: only with an empty input and a non-empty
      history; the index grows by one up to the oldest entry. */
  function PressUpAsWritten(h: seq<string>, n: Nav): (r: Nav)
    requires NavIn(h, n)
    ensures NavIn(h, r)
  {
    if |h| > 0 && n.input == "" then
      var i := if n.index + 1 < |h| - 1 then n.index + 1 else |h| - 1;
      Nav(Recall(h, i), i)
    else n
  }

  /** ArrowUp as intended: also while already walking the history. */
  function PressUp(h: seq<string>, n: Nav): (r: Nav)
    requires NavIn(h, n)
    ensures NavIn(h, r)
  {
    if |h| > 0 && (n.input == "" || n.index > -1) then
      var i := if n.index + 1 < |h| - 1 then n.index + 1 else |h| - 1;
      Nav(Recall(h, i), i)
    else n
  }

  /** ArrowDown: only while walking the history; the index drops by one
      and the live input comes back empty at -1. */
  function PressDown(h: seq<string>, n: Nav): (r: Nav)
    requires NavIn(h, n)
    ensures NavIn(h, r)
    ensures n.index > -1 ==> r.index == n.index - 1 && r.input == Recall(h, r.index)
    ensures n.index == -1 ==> r == n
  {
    if n.index > -1 then Nav(Recall(h, n.index - 1), n.index - 1) else n
  }

  /** ArrowDown undoes an ArrowUp that moved. */
  lemma DownUndoesUp(h: seq<string>, n: Nav)
    requires NavIn(h, n) && n.index < |h| - 1 && n.input == Recall(h, n.index)
    requires n.input == "" || n.index > -1
    ensures PressDown(h, PressUp(h, n)) == n
  {
  }

  /** `k` ArrowUp presses in a row. */
  function UpTimes(h: seq<string>, n: Nav, k: nat): (r: Nav)
    requires NavIn(h, n)
    ensures NavIn(h, r)
  {
    if k == 0 then n else PressUp(h, UpTimes(h, n, k - 1))
  }

  function UpTimesAsWritten(h: seq<string>, n: Nav, k: nat): (r: Nav)
    requires NavIn(h, n)
    ensures NavIn(h, r)
  {
    if k == 0 then n else PressUpAsWritten(h, UpTimesAsWritten(h, n, k - 1))
  }

  /** From the empty live input, `k >= 1` presses of ArrowUp show the entry
      `min(k - 1, |h| - 1)` places back from the newest: the presses walk
      the history newest first and stop at the oldest entry. */
  lemma {:induction false} UpWalksBack(h: seq<string>, k: nat)
    requires |h| > 0 && k >= 1
    ensures var m := if k - 1 < |h| - 1 then k - 1 else |h| - 1;
            UpTimes(h, Nav("", -1), k) == Nav(h[|h| - 1 - m], m)
  {
    if k > 1 {
      UpWalksBack(h, k - 1);
    }
  }

  /** Every entry can be brought back with ArrowUp. */
  lemma EveryEntryRecalled(h: seq<string>, j: nat)
    requires j < |h|
    ensures UpTimes(h, Nav("", -1), j + 1).input == h[|h| - 1 - j]
  {
    UpWalksBack(h, j + 1);
  }

  /** As written, the first ArrowUp fills the input with the newest entry,
      which is not empty, and every further press is ignored: the index
      never passes 0. */
  lemma {:induction false} UpAsWrittenStuck(h: seq<string>, k: nat)
    requires |h| > 0 && h[|h| - 1] != "" && k >= 1
    ensures UpTimesAsWritten(h, Nav("", -1), k) == Nav(h[|h| - 1], 0)
  {
    if k > 1 {
      UpAsWrittenStuck(h, k - 1);
    }
  }

  /** With two or more entries, the entry before the newest is never
      recalled as written, while two presses as intended recall it. */
  lemma UpAsWrittenMissesOlder(h: seq<string>, k: nat)
    requires |h| >= 2 && h[|h| - 1] != "" && k >= 1 && h[|h| - 2] != h[|h| - 1]
    ensures UpTimesAsWritten(h, Nav("", -1), k).input != h[|h| - 2]
    ensures UpTimes(h, Nav("", -1), 2).input == h[|h| - 2]
  {
    UpAsWrittenStuck(h, k);
    UpWalksBack(h, 2);
  }

  // ---------------------------------------------------------------------
  // Tab completion and dispatch

  /** The command names starting with the typed text. */
  function Matching(names: seq<string>, v: string): (r: seq<string>)
    ensures forall x :: x in r <==> x in names && StartsWith(x, v)
  {
    Seqs.Filter((x: string) => StartsWith(x, v), names)
  }

  /** Tab: the one matching command followed by a space, when exactly one
      command starts with the typed text; the typed text otherwise. */
  function Complete(names: seq<string>, v: string): (r: string)
  {
    var m := Matching(names, v);
    if |m| == 1 then m[0] + " " else v
  }

  /** Tab replaces the text only by a unique matching command plus a space,
      after which the suggestions hide. */
  lemma CompleteIsUniqueMatch(names: seq<string>, v: string)
    requires ShowsSuggestions(v)
    ensures var r := Complete(names, v);
            r != v <==> |Matching(names, v)| == 1
    ensures var r := Complete(names, v);
            r != v ==> r[..|r| - 1] in names && StartsWith(r, v) && r[|r| - 1] == ' '
                       && !ShowsSuggestions(r)
  {
    var m := Matching(names, v);
    if |m| == 1 {
      var r := m[0] + " ";
      assert m[0] in m;
      assert r[..|r| - 1] == m[0];
      assert r[|r| - 1] == ' ';
      assert r != v by {
        assert !Lacks(r, ' ');
      }
      assert r[..|v|] == m[0][..|v|];
    }
  }

  /** `command.split(" ")[0].toLowerCase()`: the lower-cased first word. */
  function CommandWord(v: string): (w: string)
    ensures Lacks(w, ' ')
  {
    SplitPartsLackSep(v, ' ');
    Lower(Split(v, ' ')[0])
  }

  /** The command word is the lower-cased text before the first space. */
  lemma CommandWordBeforeSpace(head: string, rest: string)
    requires Lacks(head, ' ')
    ensures CommandWord(head + " " + rest) == Lower(head)
    ensures CommandWord(head) == Lower(head)
  {
    var s := head + " " + rest;
    assert s[|head|] == ' ';
    assert IndexOf(s, ' ') == |head| by {
      assert forall j :: 0 <= j < |head| ==> s[j] == head[j];
    }
    SplitFirst(s, ' ');
    assert s[..|head|] == head;
    SplitFirst(head, ' ');
  }
}
