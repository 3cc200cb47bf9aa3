// The keyboard pickers of the terminal chat: the command panel
// (terminal-chat/components/command-panel.tsx), the history panel
// (terminal-chat/components/history-panel.tsx), and the two search
// selectors, for providers (terminal-chat/components/provider-selector.tsx)
// and for models (backup/terminal-chat-backup/components/model-selector.tsx).
// Each moves its highlighted row with `(i + 1) % n` and
// `(i - 1 + n) % n`, JavaScript's `%`, which gives NaN for `n == 0`.

module Pickers {
  import opened Strings
  import opened CommandLine
  import Seqs
  import opened Arith

  // ---------------------------------------------------------------------
  // Cyclic selection with JavaScript arithmetic

  /** A selection index as JavaScript holds it: a number, or NaN once a
      remainder by zero has produced it. */
  datatype Sel = Idx(i: int) | NaN

  function Abs(x: int): nat
  {
    if x < 0 then -x else x
  }

  /** JavaScript's `a % n`: NaN for `n == 0`, otherwise the remainder
      truncated toward zero, with the sign of `a`. */
  function JsRem(a: int, n: int): (r: Sel)
    ensures r.NaN? <==> n == 0
    ensures n > 0 && a >= 0 ==> r == Idx(a % n)
    ensures n != 0 && a < 0 ==> r.Idx? && r.i <= 0 && -r.i < Abs(n)
  {
    if n == 0 then NaN
    else if a >= 0 then Idx(a % Abs(n))
    else Idx(-(Abs(a) % Abs(n)))
  }

  /** ArrowDown: `(prev + 1) % n`; NaN stays NaN. */
  function Next(s: Sel, n: int): Sel
  {
    match s
    case NaN => NaN
    case Idx(i) => JsRem(i + 1, n)
  }

  /** ArrowUp: `(prev - 1 + n) % n`; NaN stays NaN. */
  function Prev(s: Sel, n: int): Sel
  {
    match s
    case NaN => NaN
    case Idx(i) => JsRem(i - 1 + n, n)
  }

  /** In a non-empty list both keys keep the index in range: ArrowDown
      moves one row on and wraps from the last row to the first, ArrowUp
      moves one row back and wraps from the first row to the last. */
  lemma StepsWrap(i: int, n: int)
    requires 0 <= i < n
    ensures Next(Idx(i), n) == Idx(if i + 1 < n then i + 1 else 0)
    ensures Prev(Idx(i), n) == Idx(if i > 0 then i - 1 else n - 1)
  {
    if i + 1 < n {
      ModUnique(i + 1, n, 0, i + 1);
    } else {
      ModUnique(i + 1, n, 1, 0);
    }
    if i > 0 {
      ModUnique(i - 1 + n, n, 1, i - 1);
    } else {
      ModUnique(i - 1 + n, n, 0, n - 1);
    }
  }

  /** ArrowUp undoes ArrowDown, and ArrowDown undoes ArrowUp. */
  lemma PrevUndoesNext(i: int, n: int)
    requires 0 <= i < n
    ensures Prev(Next(Idx(i), n), n) == Idx(i)
    ensures Next(Prev(Idx(i), n), n) == Idx(i)
  {
    StepsWrap(i, n);
    var j := if i + 1 < n then i + 1 else 0;
    StepsWrap(j, n);
    var k := if i > 0 then i - 1 else n - 1;
    StepsWrap(k, n);
  }

  /** In an empty list either key turns the index into NaN, and NaN never
      becomes a number again through the keys. */
  lemma EmptyListGivesNaN(s: Sel, n: int)
    ensures Next(s, 0) == NaN && Prev(s, 0) == NaN
    ensures Next(NaN, n) == NaN && Prev(NaN, n) == NaN
  {
  }

  /** `k` presses of ArrowDown. */
  function NextTimes(s: Sel, n: int, k: nat): Sel
  {
    if k == 0 then s else Next(NextTimes(s, n, k - 1), n)
  }

  /** `k` presses of ArrowDown from row `i` land on row `(i + k) mod n`;
      in particular `n` presses come back to the start. */
  lemma {:induction false} NextTimesCycles(i: int, n: int, k: nat)
    requires 0 <= i < n
    ensures NextTimes(Idx(i), n, k) == Idx((i + k) % n)
  {
    if k > 0 {
      NextTimesCycles(i, n, k - 1);
      var j := (i + k - 1) % n;
      StepsWrap(j, n);
      ModSucc(i + k - 1, n);
    }
  }

  /** A selection that may be read as a row of a list of `n` rows. */
  predicate InRange(s: Sel, n: int)
  {
    s.Idx? && 0 <= s.i < n
  }

  // ---------------------------------------------------------------------
  // Command panel

  /** The commands whose lower-cased name starts with the lower-cased
      filter, in list order. */
  function PrefixMatches(commands: seq<Command>, filter: string): (r: seq<Command>)
    ensures forall c :: c in r <==> c in commands && StartsWith(Lower(c.name), Lower(filter))
  {
    Seqs.Filter((c: Command) => StartsWith(Lower(c.name), Lower(filter)), commands)
  }

  class CommandPanel {
    const commands: seq<Command>
    var filter: string
    var filtered: seq<Command>
    var selected: Sel
    /** The texts passed to `onSelect`, oldest first. */
    var selections: seq<string>

    ghost predicate Valid()
      reads this
    {
      filtered == PrefixMatches(commands, filter)
      && (InRange(selected, |filtered|) || (filtered == [] && selected == Idx(0)))
    }

    /** The panel mounts; its filtering effect runs once. */
    constructor(cs: seq<Command>, f: string)
      ensures Valid()
      ensures commands == cs && filter == f && selected == Idx(0) && selections == []
    {
      commands := cs;
      filter := f;
      filtered := PrefixMatches(cs, f);
      selected := Idx(0);
      selections := [];
    }

    /** A new `filter` prop: the list is filtered again and the highlight
        returns to the first row when the filter changed. */
    method SetFilter(f: string)
      requires Valid()
      modifies this`filter, this`filtered, this`selected
      ensures Valid() && filter == f
      ensures f != old(filter) ==> selected == Idx(0)
      ensures f == old(filter) ==> selected == old(selected)
    {
      if f != filter {
        filter := f;
        filtered := PrefixMatches(commands, f);
        selected := Idx(0);
      }
    }

    /** The window key handler: nothing with an empty list; the arrows
        move the highlight cyclically; Enter selects the highlighted
        command's name; Escape selects the filter text itself. */
    method HandleKey(key: Key)
      requires Valid()
      modifies this`selected, this`selections
      ensures Valid()
      ensures old(filtered) == [] || !(key.ArrowDown? || key.ArrowUp? || key.Enter? || key.Escape?) ==>
                selected == old(selected) && selections == old(selections)
      ensures filtered != [] && key.ArrowDown? ==>
                selected == Idx((old(selected).i + 1) % |filtered|) && selections == old(selections)
      ensures filtered != [] && key.ArrowUp? ==>
                selected == Idx((old(selected).i - 1 + |filtered|) % |filtered|) && selections == old(selections)
      ensures filtered != [] && key.Enter? ==>
                selections == old(selections) + [filtered[selected.i].name] && selected == old(selected)
      ensures filtered != [] && key.Escape? ==>
                selections == old(selections) + [filter] && selected == old(selected)
    {
      if |filtered| == 0 {
        return;
      }
      StepsWrap(selected.i, |filtered|);
      match key {
        case ArrowDown =>
          selected := Next(selected, |filtered|);
        case ArrowUp =>
          selected := Prev(selected, |filtered|);
        case Enter(_) =>
          selections := selections + [filtered[selected.i].name];
        case Escape =>
          selections := selections + [filter];
        case _ =>
      }
    }
  }

  // ---------------------------------------------------------------------
  // History panel

  /** The history as the panel lists it: newest first. */
  function NewestFirst(history: seq<string>): (r: seq<string>)
    ensures |r| == |history|
    ensures forall i :: 0 <= i < |r| ==> r[i] == history[|history| - 1 - i]
  {
    Seqs.Reverse(history)
  }

  class HistoryPanel {
    const history: seq<string>
    var selected: Sel
    /** The entries passed to `onSelect`, oldest first. */
    var selections: seq<string>
    /** How often `onClose` was called. */
    var closeRequests: nat

    ghost predicate Valid()
      reads this
    {
      |history| > 0 ==> InRange(selected, |history|)
    }

    constructor(h: seq<string>)
      ensures Valid()
      ensures history == h && selected == Idx(0) && selections == [] && closeRequests == 0
    {
      history := h;
      selected := Idx(0);
      selections := [];
      closeRequests := 0;
    }

    /** The window key handler: Escape closes; the arrows move the
        highlight cyclically, into NaN for an empty history; Enter selects
        the highlighted entry of the newest-first list when there is one. */
    method HandleKey(key: Key)
      requires Valid()
      modifies this`selected, this`selections, this`closeRequests
      ensures Valid()
      ensures key.Escape? ==>
                closeRequests == old(closeRequests) + 1 && selected == old(selected) && selections == old(selections)
      ensures !key.Escape? ==> closeRequests == old(closeRequests)
      ensures key.ArrowDown? || key.ArrowUp? ==> selections == old(selections)
      ensures history == [] && (key.ArrowDown? || key.ArrowUp?) ==> selected == NaN
      ensures history != [] && key.ArrowDown? ==>
                selected == Idx((old(selected).i + 1) % |history|)
      ensures history != [] && key.ArrowUp? ==>
                selected == Idx((old(selected).i - 1 + |history|) % |history|)
      ensures key.Enter? ==>
                selected == old(selected)
                && selections == old(selections) + (if history == [] then [] else [history[|history| - 1 - selected.i]])
      ensures key.Tab? || key.OtherKey? ==> selected == old(selected) && selections == old(selections)
    {
      var n := |history|;
      if n > 0 {
        StepsWrap(selected.i, n);
      }
      match key {
        case Escape =>
          closeRequests := closeRequests + 1;
        case ArrowDown =>
          selected := Next(selected, n);
        case ArrowUp =>
          selected := Prev(selected, n);
        case Enter(_) =>
          if n > 0 {
            selections := selections + [NewestFirst(history)[selected.i]];
          }
        case _ =>
      }
    }
  }

  // ---------------------------------------------------------------------
  // Search selectors

  datatype Item = Item(id: string, name: string)

  const Providers: seq<Item> := [
    Item("openai", "OpenAI"),
    Item("anthropic", "Anthropic"),
    Item("google", "Google AI"),
    Item("mistral", "Mistral AI"),
    Item("cohere", "Cohere"),
    Item("local", "Local Models")
  ]

  const Models: seq<Item> := [
    Item("c4-mini-2025-04-16", "c4-mini-2025-04-16"),
    Item("babbage-002", "babbage-002"),
    Item("chatgpt-4o-latest", "chatgpt-4o-latest"),
    Item("dall-e-2", "dall-e-2"),
    Item("dall-e-3", "dall-e-3"),
    Item("davinci-002", "davinci-002"),
    Item("gpt-3.5-turbo", "gpt-3.5-turbo"),
    Item("gpt-3.5-turbo-0125", "gpt-3.5-turbo-0125"),
    Item("gpt-3.5-turbo-1106", "gpt-3.5-turbo-1106"),
    Item("gpt-3.5-turbo-16k", "gpt-3.5-turbo-16k")
  ]

  /** The items whose name contains the search term, ignoring case, in
      list order. */
  function Matches(items: seq<Item>, term: string): (r: seq<Item>)
    ensures forall x :: x in r <==> x in items && ContainsIgnoreCase(x.name, term)
  {
    Seqs.Filter((x: Item) => ContainsIgnoreCase(x.name, term), items)
  }

  /** An empty search term lists every item. */
  lemma EmptyTermListsAll(items: seq<Item>)
    ensures Matches(items, "") == items
  {
    forall i | 0 <= i < |items|
      ensures ContainsIgnoreCase(items[i].name, "")
    {
      EmptyContained(Lower(items[i].name));
    }
    Seqs.FilterAll((x: Item) => ContainsIgnoreCase(x.name, ""), items);
  }

  /** A searchable list with a highlighted row: the provider selector
      (Tab closes it) and the model selector (Tab does nothing). */
  class SearchSelector {
    const items: seq<Item>
    const tabCloses: bool
    var searchTerm: string
    var selected: Sel
    /** The ids passed to `onSelect`, oldest first. */
    var choices: seq<string>
    /** How often `onClose` was called. */
    var closeRequests: nat

    function Filtered(): seq<Item>
      reads this
    {
      Matches(items, searchTerm)
    }

    ghost predicate Valid()
      reads this
    {
      |Filtered()| > 0 ==> InRange(selected, |Filtered()|)
    }

    constructor(xs: seq<Item>, tab: bool)
      ensures Valid()
      ensures items == xs && tabCloses == tab && searchTerm == "" && selected == Idx(0)
      ensures choices == [] && closeRequests == 0
    {
      items := xs;
      tabCloses := tab;
      searchTerm := "";
      selected := Idx(0);
      choices := [];
      closeRequests := 0;
    }

    /** The search box's `onChange`: a new term, and the highlight back on
        the first row. */
    method SetSearchTerm(term: string)
      modifies this`searchTerm, this`selected
      ensures Valid()
      ensures searchTerm == term && selected == Idx(0)
    {
      searchTerm := term;
      selected := Idx(0);
    }

    /** The window key handler: Escape closes, and so does Tab in the
        provider selector; the arrows move the highlight cyclically over
        the filtered list; Enter selects the highlighted id when the list
        is non-empty. */
    method HandleKey(key: Key)
      requires Valid()
      modifies this`selected, this`choices, this`closeRequests
      ensures Valid()
      ensures closeRequests == old(closeRequests) + (if key.Escape? || (key.Tab? && tabCloses) then 1 else 0)
      ensures key.ArrowDown? || key.ArrowUp? ==> choices == old(choices)
      ensures Filtered() == [] && (key.ArrowDown? || key.ArrowUp?) ==> selected == NaN
      ensures Filtered() != [] && key.ArrowDown? ==>
                selected == Idx((old(selected).i + 1) % |Filtered()|)
      ensures Filtered() != [] && key.ArrowUp? ==>
                selected == Idx((old(selected).i - 1 + |Filtered()|) % |Filtered()|)
      ensures key.Enter? ==>
                selected == old(selected)
                && choices == old(choices) + (if Filtered() == [] then [] else [Filtered()[selected.i].id])
      ensures key.Escape? || key.Tab? || key.OtherKey? ==> selected == old(selected) && choices == old(choices)
    {
      var filtered := Filtered();
      var n := |filtered|;
      if n > 0 {
        StepsWrap(selected.i, n);
      }
      match key {
        case Escape =>
          closeRequests := closeRequests + 1;
        case ArrowDown =>
          selected := Next(selected, n);
        case ArrowUp =>
          selected := Prev(selected, n);
        case Enter(_) =>
          if n > 0 {
            choices := choices + [filtered[selected.i].id];
          }
        case Tab =>
          if tabCloses {
            closeRequests := closeRequests + 1;
          }
        case OtherKey =>
      }
    }
  }
}
