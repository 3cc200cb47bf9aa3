// The terminal chat's input (terminal-chat/components/terminal-input.tsx):
// the component owns its input text, the suggestion flag, one of six
// panels and the command history. The effect on the input text runs
// after each handler's state updates.

module TerminalChatInput {
  import opened Opt
  import opened Strings
  import opened CommandLine

  datatype Panel = ModelPanel | ProviderPanel | HelpPanel | ClearPanel | CompactPanel | HistoryPanel

  const CommandNames: seq<string> := ["/model", "/provider", "/clear", "/compact", "/history", "/help"]

  function PanelCommand(p: Panel): string
  {
    match p
    case ModelPanel => "/model"
    case ProviderPanel => "/provider"
    case HelpPanel => "/help"
    case ClearPanel => "/clear"
    case CompactPanel => "/compact"
    case HistoryPanel => "/history"
  }

  /** The panel the input opens: the one whose command it equals, if any. */
  function PanelFor(v: string): (p: Option<Panel>)
    ensures p.Some? ==> PanelCommand(p.value) == v
    ensures p.None? ==> forall q: Panel :: PanelCommand(q) != v
  {
    if v == "/model" then Some(ModelPanel)
    else if v == "/provider" then Some(ProviderPanel)
    else if v == "/help" then Some(HelpPanel)
    else if v == "/clear" then Some(ClearPanel)
    else if v == "/compact" then Some(CompactPanel)
    else if v == "/history" then Some(HistoryPanel)
    else None
  }

  /** Every command of the list opens its own panel. */
  lemma EveryCommandHasPanel(i: nat)
    requires i < |CommandNames|
    ensures PanelFor(CommandNames[i]).Some?
  {
  }

  /** A command is known when its lower-cased first word names a panel. */
  predicate KnownCommand(cmd: string)
  {
    PanelFor(CommandWord(cmd)).Some?
  }

  class TerminalInput {
    var input: string
    var showCommands: bool
    var activeInterface: Option<Panel>
    var commandHistory: seq<string>
    var historyIndex: int
    /** The plain messages submitted, oldest first. */
    var submissions: seq<string>
    /** The panel actions performed (`handleAction`), oldest first. */
    var actions: seq<string>

    ghost predicate Valid()
      reads this
    {
      -1 <= historyIndex < |commandHistory| && AllNonBlank(commandHistory)
    }

    constructor()
      ensures Valid()
      ensures input == "" && !showCommands && activeInterface == None
      ensures commandHistory == [] && historyIndex == -1 && submissions == [] && actions == []
    {
      input := "";
      showCommands := false;
      activeInterface := None;
      commandHistory := [];
      historyIndex := -1;
      submissions := [];
      actions := [];
    }

    /** The effect on `input`: when the text differs from `before`, the
        suggestions and the panel follow it. */
    method Settle(before: string)
      modifies this`showCommands, this`activeInterface
      ensures input != before ==> showCommands == ShowsSuggestions(input) && activeInterface == PanelFor(input)
      ensures input == before ==> showCommands == old(showCommands) && activeInterface == old(activeInterface)
    {
      if input != before {
        showCommands := ShowsSuggestions(input);
        activeInterface := PanelFor(input);
      }
    }

    /** `handleInputChange`. */
    method Type(v: string)
      modifies this`input, this`showCommands, this`activeInterface
      ensures input == v
      ensures v != old(input) ==> showCommands == ShowsSuggestions(v) && activeInterface == PanelFor(v)
      ensures v == old(input) ==> showCommands == old(showCommands) && activeInterface == old(activeInterface)
    {
      var before := input;
      input := v;
      Settle(before);
    }

    /** A submission enters the history and ends the history walk. */
    method RecordInput()
      requires Valid() && !IsBlank(input)
      modifies this`commandHistory, this`historyIndex
      ensures Valid()
      ensures commandHistory == Record(old(commandHistory), input) && historyIndex == -1
    {
      RecordNonBlank(commandHistory, input);
      commandHistory := Record(commandHistory, input);
      historyIndex := -1;
    }

    /** The submitted text is acted on: a known command keeps its panel, an
        unknown one clears the input and closes the panel, and a plain
        message is submitted and clears the input. */
    method ActOnInput()
      requires input != ""
      modifies this`input, this`showCommands, this`activeInterface, this`submissions
      ensures StartsWith(old(input), "/") ==> submissions == old(submissions)
      ensures !StartsWith(old(input), "/") ==> submissions == old(submissions) + [old(input)]
      ensures StartsWith(old(input), "/") && KnownCommand(old(input)) ==>
                input == old(input) && showCommands == old(showCommands) && activeInterface == old(activeInterface)
      ensures !(StartsWith(old(input), "/") && KnownCommand(old(input))) ==>
                input == "" && !showCommands && activeInterface == None
    {
      var before := input;
      if StartsWith(input, "/") {
        if !KnownCommand(input) {
          input := "";
          activeInterface := None;
        }
      } else {
        submissions := submissions + [input];
        input := "";
      }
      assert !ShowsSuggestions("") && PanelFor("") == None;
      Settle(before);
    }

    /** `handleSubmit`: a blank input is ignored; otherwise it is recorded
        in the history and acted on. */
    method HandleSubmit()
      requires Valid()
      modifies this`input, this`showCommands, this`activeInterface, this`commandHistory,
               this`historyIndex, this`submissions
      ensures Valid()
      ensures IsBlank(old(input)) ==>
                input == old(input) && showCommands == old(showCommands) && activeInterface == old(activeInterface)
                && commandHistory == old(commandHistory) && historyIndex == old(historyIndex)
                && submissions == old(submissions)
      ensures !IsBlank(old(input)) ==>
                commandHistory == Record(old(commandHistory), old(input)) && historyIndex == -1
      ensures !IsBlank(old(input)) && !StartsWith(old(input), "/") ==>
                submissions == old(submissions) + [old(input)] && input == "" && !showCommands && activeInterface == None
      ensures !IsBlank(old(input)) && StartsWith(old(input), "/") ==> submissions == old(submissions)
      ensures !IsBlank(old(input)) && StartsWith(old(input), "/") && KnownCommand(old(input)) ==>
                input == old(input) && showCommands == old(showCommands) && activeInterface == old(activeInterface)
      ensures !IsBlank(old(input)) && StartsWith(old(input), "/") && !KnownCommand(old(input)) ==>
                input == "" && !showCommands && activeInterface == None
    {
      if IsBlank(input) {
        return;
      }
      RecordInput();
      ActOnInput();
    }

    /** `handleKeyDown`: Enter without Shift submits; the arrows walk the
        history; Tab completes a unique command; Escape closes the panel. */
    method HandleKeyDown(key: Key)
      requires Valid()
      modifies this`input, this`showCommands, this`activeInterface, this`commandHistory,
               this`historyIndex, this`submissions
      ensures Valid()
      ensures !key.Enter? ==> commandHistory == old(commandHistory) && submissions == old(submissions)
      ensures key.ArrowUp? || key.ArrowDown? ==>
                var n := Nav(old(input), old(historyIndex));
                var r := if key.ArrowUp? then PressUpAsWritten(commandHistory, n) else PressDown(commandHistory, n);
                input == r.input && historyIndex == r.index
      ensures key.Tab? ==>
                input == (if ShowsSuggestions(old(input)) then Complete(CommandNames, old(input)) else old(input))
                && historyIndex == old(historyIndex)
      ensures key.Escape? ==> activeInterface == None && input == old(input) && historyIndex == old(historyIndex)
      ensures key.OtherKey? || key == Enter(true) ==>
                input == old(input) && showCommands == old(showCommands) && activeInterface == old(activeInterface)
                && commandHistory == old(commandHistory) && historyIndex == old(historyIndex)
    {
      var before := input;
      match key {
        case Enter(shift) =>
          if !shift {
            HandleSubmit();
          }
        case ArrowUp =>
          var r := PressUpAsWritten(commandHistory, Nav(input, historyIndex));
          input, historyIndex := r.input, r.index;
          Settle(before);
        case ArrowDown =>
          var r := PressDown(commandHistory, Nav(input, historyIndex));
          input, historyIndex := r.input, r.index;
          Settle(before);
        case Tab =>
          if ShowsSuggestions(input) {
            input := Complete(CommandNames, input);
            Settle(before);
          }
        case Escape =>
          activeInterface := None;
        case OtherKey =>
      }
    }

    /** `selectCommand`: a suggestion is put into the input. */
    method SelectCommand(command: string)
      modifies this`input, this`showCommands, this`activeInterface
      ensures input == command
      ensures command != old(input) ==> showCommands == ShowsSuggestions(command) && activeInterface == PanelFor(command)
      ensures command == old(input) ==> !showCommands && activeInterface == old(activeInterface)
    {
      var before := input;
      input := command;
      showCommands := false;
      Settle(before);
    }

    /** `closeInterface`: the panel closes and the input empties. */
    method CloseInterface()
      modifies this`input, this`showCommands, this`activeInterface
      ensures input == "" && activeInterface == None
      ensures old(input) != "" ==> !showCommands
      ensures old(input) == "" ==> showCommands == old(showCommands)
    {
      var before := input;
      activeInterface := None;
      input := "";
      Settle(before);
    }

    /** `handleAction`: a panel's choice is performed and the panel closes. */
    method HandleAction(action: string)
      modifies this`input, this`showCommands, this`activeInterface, this`actions
      ensures actions == old(actions) + [action]
      ensures input == "" && activeInterface == None
    {
      actions := actions + [action];
      CloseInterface();
    }

    /** The history panel's `onSelect`: the entry is put into the input, but
        the `closeInterface` call in the same handler empties it again, so
        the chosen entry never reaches the input. */
    method ChooseHistoryEntry(entry: string)
      modifies this`input, this`showCommands, this`activeInterface
      ensures input == "" && activeInterface == None
      ensures old(input) != "" ==> !showCommands
      ensures old(input) == "" ==> showCommands == old(showCommands)
    {
      var before := input;
      input := entry;
      activeInterface := None;
      input := "";
      Settle(before);
    }
  }
}
