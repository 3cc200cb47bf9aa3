// The two study-framework pickers: StudyFrameworkPicker
// (components/features/study/study-framework-picker.tsx), which listens on
// its own focused container and moves the hover with the keyboard, and
// FrameworkSelector (components/features/study/framework-selector.tsx),
// which listens on the window and leaves the hover to the mouse. Both show
// the four frameworks numbered 1 to 4.

module FrameworkPickers {
  import opened Opt
  import opened Types
  import Pickers

  /** The frameworks in the order both pickers show them. */
  const Frameworks: seq<StudyFramework> := [MemoryPalace, FeynmanTechnique, SpacedRepetition, ExtremeMode]

  /** Every framework is offered, exactly once. */
  lemma FrameworksListsEach(f: StudyFramework)
    ensures f in Frameworks
    ensures forall i, j :: 0 <= i < j < |Frameworks| ==> Frameworks[i] != Frameworks[j]
  {
  }

  datatype Direction = PrevDir | NextDir

  /** `calculateNewIndex`: one row back or on, wrapping at both ends of
      the list. */
  function CalculateNewIndex(i: int, d: Direction): (r: int)
    ensures 0 <= i < |Frameworks| ==> 0 <= r < |Frameworks|
  {
    match d
    case PrevDir => if i > 0 then i - 1 else |Frameworks| - 1
    case NextDir => if i < |Frameworks| - 1 then i + 1 else 0
  }

  /** A step back undoes a step on and the other way round. */
  lemma PrevUndoesNext(i: int)
    requires 0 <= i < |Frameworks|
    ensures CalculateNewIndex(CalculateNewIndex(i, NextDir), PrevDir) == i
    ensures CalculateNewIndex(CalculateNewIndex(i, PrevDir), NextDir) == i
  {
  }

  /** On these four rows the explicit wrap agrees with the terminal
      pickers' `(i + 1) % n` and `(i - 1 + n) % n`. */
  lemma AgreesWithRemainderSteps(i: int)
    requires 0 <= i < |Frameworks|
    ensures Pickers.Next(Pickers.Idx(i), |Frameworks|) == Pickers.Idx(CalculateNewIndex(i, NextDir))
    ensures Pickers.Prev(Pickers.Idx(i), |Frameworks|) == Pickers.Idx(CalculateNewIndex(i, PrevDir))
  {
    Pickers.StepsWrap(i, |Frameworks|);
  }

  /** The keys the pickers tell apart; `Digit` carries any one-character
      key. */
  datatype FrameworkKey =
    | Digit(c: char)
    | ArrowUp | ArrowLeft | ArrowDown | ArrowRight
    | Enter | Escape
    | OtherKey

  /** The framework a digit key picks: keys '1' to '4' pick the card shown
      with that number; other characters pick nothing. */
  function DigitChoice(c: char): (r: Option<StudyFramework>)
    ensures r.Some? <==> '1' <= c <= '4'
    ensures r.Some? ==> r.value == Frameworks[c as int - '1' as int]
  {
    if '1' <= c <= '4' then Some(Frameworks[c as int - '1' as int]) else None
  }

  /** Each framework has its own digit. */
  lemma DigitsReachEachFramework(i: int)
    requires 0 <= i < |Frameworks|
    ensures DigitChoice(('1' as int + i) as char) == Some(Frameworks[i])
  {
  }

  /** A framework picker; `arrowsHover` tells the study picker, whose
      arrow keys also set the hovered card, from the selector, whose hover
      follows the mouse only. */
  class FrameworkPicker {
    const arrowsHover: bool
    var selected: int
    var hovered: Option<int>
    /** The frameworks passed to `onSelect`, oldest first. */
    var selections: seq<StudyFramework>
    /** How often `onClose` was called. */
    var closeRequests: nat

    ghost predicate Valid()
      reads this
    {
      0 <= selected < |Frameworks|
      && (hovered.Some? ==> 0 <= hovered.value < |Frameworks|)
    }

    constructor(hoverWithArrows: bool)
      ensures Valid()
      ensures arrowsHover == hoverWithArrows && selected == 0 && hovered == None
      ensures selections == [] && closeRequests == 0
    {
      arrowsHover := hoverWithArrows;
      selected := 0;
      hovered := None;
      selections := [];
      closeRequests := 0;
    }

    /** Moves the highlight; in the study picker the hover follows it. */
    method Move(d: Direction)
      requires Valid()
      modifies this`selected, this`hovered
      ensures Valid()
      ensures selected == CalculateNewIndex(old(selected), d)
      ensures hovered == if arrowsHover then Some(selected) else old(hovered)
    {
      selected := CalculateNewIndex(selected, d);
      if arrowsHover {
        hovered := Some(selected);
      }
    }

    /** The key handler: a digit from 1 to 4 selects the card with that
        number, Up/Left and Down/Right move the highlight with wrap-around,
        Enter selects the highlighted card and Escape closes. */
    method HandleKey(key: FrameworkKey)
      requires Valid()
      modifies this`selected, this`hovered, this`selections, this`closeRequests
      ensures Valid()
      ensures key.Digit? ==>
                selections == old(selections) + (if DigitChoice(key.c).Some? then [DigitChoice(key.c).value] else [])
      ensures key.Enter? ==> selections == old(selections) + [Frameworks[old(selected)]]
      ensures !key.Digit? && !key.Enter? ==> selections == old(selections)
      ensures key.ArrowUp? || key.ArrowLeft? ==>
                selected == CalculateNewIndex(old(selected), PrevDir)
                && hovered == (if arrowsHover then Some(selected) else old(hovered))
      ensures key.ArrowDown? || key.ArrowRight? ==>
                selected == CalculateNewIndex(old(selected), NextDir)
                && hovered == (if arrowsHover then Some(selected) else old(hovered))
      ensures key.Digit? || key.Enter? || key.Escape? || key.OtherKey? ==>
                selected == old(selected) && hovered == old(hovered)
      ensures closeRequests == old(closeRequests) + (if key.Escape? then 1 else 0)
    {
      match key {
        case Digit(c) =>
          var choice := DigitChoice(c);
          if choice.Some? {
            selections := selections + [choice.value];
          }
        case ArrowUp =>
          Move(PrevDir);
        case ArrowLeft =>
          Move(PrevDir);
        case ArrowDown =>
          Move(NextDir);
        case ArrowRight =>
          Move(NextDir);
        case Enter =>
          selections := selections + [Frameworks[selected]];
        case Escape =>
          closeRequests := closeRequests + 1;
        case OtherKey =>
      }
    }

    /** A click on card `i` selects its framework. */
    method Click(i: int)
      requires 0 <= i < |Frameworks|
      modifies this`selections
      ensures selections == old(selections) + [Frameworks[i]]
    {
      selections := selections + [Frameworks[i]];
    }

    /** The mouse enters card `i`. */
    method MouseEnter(i: int)
      requires Valid() && 0 <= i < |Frameworks|
      modifies this`hovered
      ensures Valid() && hovered == Some(i)
    {
      hovered := Some(i);
    }

    /** The mouse leaves a card. */
    method MouseLeave()
      requires Valid()
      modifies this`hovered
      ensures Valid() && hovered == None
    {
      hovered := None;
    }
  }
}
