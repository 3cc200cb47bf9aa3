// The command input of the study terminal (components/terminal/terminal-input.tsx).
// The input text is owned by the parent and changed through `onChange`;
// the component keeps the suggestion flag, the open panel and the command
// history. The effect on the input text (suggestions and panel follow a
// changed text) runs after each handler's state updates.

module StudyTerminal {
  import opened Opt
  import opened Strings
  import opened Types
  import opened CommandLine

  /** The panels that open when the input is exactly their command. */
  datatype Panel = ModelPanel | FrameworksPanel | HelpPanel | ClearPanel

  const CommandNames: seq<string> := ["/model", "/frameworks", "/extreme", "/tools", "/rules", "/clear", "/help"]

  function PanelCommand(p: Panel): string
  {
    match p
    case ModelPanel => "/model"
    case FrameworksPanel => "/frameworks"
    case HelpPanel => "/help"
    case ClearPanel => "/clear"
  }

  /** The panel the input opens: the one whose command it equals, if any. */
  function PanelFor(v: string): (p: Option<Panel>)
    ensures p.Some? ==> PanelCommand(p.value) == v
    ensures p.None? ==> forall q: Panel :: PanelCommand(q) != v
  {
    if v == "/model" then Some(ModelPanel)
    else if v == "/frameworks" then Some(FrameworksPanel)
    else if v == "/help" then Some(HelpPanel)
    else if v == "/clear" then Some(ClearPanel)
    else None
  }

  /** What a submitted command does, by its lower-cased first word. */
  datatype Outcome =
    | PanelKept    // '/model', '/frameworks', '/help', '/clear': the panel handles it
    | Extreme      // '/extreme': extreme mode, input cleared
    | ComingSoon   // '/tools', '/rules': a notice, input cleared
    | Unknown      // anything else: a notice, input cleared

  function Dispatch(cmd: string): (o: Outcome)
    ensures o == PanelKept <==> exists p: Panel :: PanelCommand(p) == CommandWord(cmd)
    ensures o == Extreme <==> CommandWord(cmd) == "/extreme"
  {
    var w := CommandWord(cmd);
    if w == "/model" || w == "/frameworks" || w == "/help" || w == "/clear" then
      assert PanelCommand(ModelPanel) == "/model" && PanelCommand(FrameworksPanel) == "/frameworks";
      assert PanelCommand(HelpPanel) == "/help" && PanelCommand(ClearPanel) == "/clear";
      PanelKept
    else if w == "/extreme" then Extreme
    else if w == "/tools" || w == "/rules" then ComingSoon
    else Unknown
  }

  /** The commands are dispatched case-insensitively on their first word:
      '/EXTREME now' selects extreme mode. */
  lemma DispatchFirstWord(head: string, rest: string)
    requires Lacks(head, ' ')
    ensures Dispatch(head + " " + rest) == Dispatch(head)
  {
    CommandWordBeforeSpace(head, rest);
  }

  class TerminalInput {
    /** The parent's input text. */
    var value: string
    var showCommands: bool
    var activeInterface: Option<Panel>
    var commandHistory: seq<string>
    var historyIndex: int
    /** The number of attachments the parent holds. */
    var attachments: nat
    var selectedModel: string
    /** Whether the parent passed `onFrameworkSelect`. */
    const canSelectFramework: bool
    /** The values handed on through `onSubmit`, oldest first. */
    var submissions: seq<string>
    /** The framework values handed on through `onFrameworkSelect`. */
    var frameworkRequests: seq<string>

    ghost predicate Valid()
      reads this
    {
      -1 <= historyIndex < |commandHistory| && AllNonBlank(commandHistory)
    }

    /** Mounting runs the effect once on the initial text. */
    constructor(value: string, attachments: nat, selectedModel: string, canSelectFramework: bool)
      ensures Valid()
      ensures this.value == value && this.attachments == attachments
      ensures this.selectedModel == selectedModel && this.canSelectFramework == canSelectFramework
      ensures showCommands == ShowsSuggestions(value) && activeInterface == PanelFor(value)
      ensures commandHistory == [] && historyIndex == -1
      ensures submissions == [] && frameworkRequests == []
    {
      this.value := value;
      this.attachments := attachments;
      this.selectedModel := selectedModel;
      this.canSelectFramework := canSelectFramework;
      showCommands := ShowsSuggestions(value);
      activeInterface := PanelFor(value);
      commandHistory := [];
      historyIndex := -1;
      submissions := [];
      frameworkRequests := [];
    }

    /** The effect on `value`: when the text differs from `before`, the
        suggestions and the panel follow it. */
    method Settle(before: string)
      modifies this`showCommands, this`activeInterface
      ensures value != before ==> showCommands == ShowsSuggestions(value) && activeInterface == PanelFor(value)
      ensures value == before ==> showCommands == old(showCommands) && activeInterface == old(activeInterface)
    {
      if value != before {
        showCommands := ShowsSuggestions(value);
        activeInterface := PanelFor(value);
      }
    }

    /** `onChange` from the text field. */
    method Type(v: string)
      modifies this`value, this`showCommands, this`activeInterface
      ensures value == v
      ensures v != old(value) ==> showCommands == ShowsSuggestions(v) && activeInterface == PanelFor(v)
      ensures v == old(value) ==> showCommands == old(showCommands) && activeInterface == old(activeInterface)
    {
      var before := value;
      value := v;
      Settle(before);
    }

    /** `handleKeyDown` for ArrowUp and ArrowDown: the history walk. */
    method Navigate(up: bool)
      requires Valid()
      modifies this`value, this`historyIndex, this`showCommands, this`activeInterface
      ensures Valid()
      ensures var n := Nav(old(value), old(historyIndex));
              var r := if up then PressUpAsWritten(commandHistory, n) else PressDown(commandHistory, n);
              value == r.input && historyIndex == r.index
      ensures value != old(value) ==> showCommands == ShowsSuggestions(value) && activeInterface == PanelFor(value)
      ensures value == old(value) ==> showCommands == old(showCommands) && activeInterface == old(activeInterface)
    {
      var before := value;
      var n := Nav(value, historyIndex);
      var r := if up then PressUpAsWritten(commandHistory, n) else PressDown(commandHistory, n);
      value := r.input;
      historyIndex := r.index;
      Settle(before);
    }

    /** `handleKeyDown` for Tab: complete a '/'-prefixed, space-free text
        to the one command it starts. */
    method TabKey()
      modifies this`value, this`showCommands, this`activeInterface
      ensures value == (if ShowsSuggestions(old(value)) then Complete(CommandNames, old(value)) else old(value))
      ensures value != old(value) ==> showCommands == ShowsSuggestions(value) && activeInterface == PanelFor(value)
      ensures value == old(value) ==> showCommands == old(showCommands) && activeInterface == old(activeInterface)
    {
      if ShowsSuggestions(value) {
        var before := value;
        value := Complete(CommandNames, value);
        Settle(before);
      }
    }

    /** `handleKeyDown` for Escape: close an open panel. */
    method EscapeKey()
      modifies this`activeInterface
      ensures activeInterface == None
    {
      if activeInterface.Some? {
        activeInterface := None;
      }
    }

    /** `handleCommand`: dispatch on the lower-cased first word. */
    method HandleCommand(command: string)
      modifies this`value, this`showCommands, this`activeInterface, this`frameworkRequests
      ensures Dispatch(command) == PanelKept ==>
                value == old(value) && showCommands == old(showCommands)
                && activeInterface == old(activeInterface) && frameworkRequests == old(frameworkRequests)
      ensures Dispatch(command) != PanelKept ==> value == "" && activeInterface == None
      ensures Dispatch(command) != PanelKept && old(value) != "" ==> !showCommands
      ensures Dispatch(command) != PanelKept && old(value) == "" ==> showCommands == old(showCommands)
      ensures frameworkRequests ==
                if Dispatch(command) == Extreme && canSelectFramework
                then old(frameworkRequests) + [FrameworkValue(ExtremeMode)] else old(frameworkRequests)
    {
      var before := value;
      match Dispatch(command) {
        case PanelKept =>
        case Extreme =>
          if canSelectFramework {
            frameworkRequests := frameworkRequests + [FrameworkValue(ExtremeMode)];
          }
          value := "";
          activeInterface := None;
        case ComingSoon =>
          value := "";
          activeInterface := None;
        case Unknown =>
          value := "";
          activeInterface := None;
      }
      assert !ShowsSuggestions("");
      Settle(before);
    }

    /** The history part of `handleSubmit`: a non-blank text is recorded
        and the walk through the history ends. */
    method EndHistoryWalk()
      requires Valid()
      modifies this`commandHistory, this`historyIndex
      ensures Valid()
      ensures commandHistory == (if IsBlank(value) then old(commandHistory) else Record(old(commandHistory), value))
      ensures historyIndex == -1
    {
      if !IsBlank(value) {
        RecordNonBlank(commandHistory, value);
        commandHistory := Record(commandHistory, value);
      }
      historyIndex := -1;
    }

    /** `handleSubmit` past its guard: a non-blank text is recorded in the
        history, the history walk ends, and a '/' text is dispatched as a
        command instead of being submitted. */
    method SubmitPastGuard()
      requires Valid() && !(IsBlank(value) && attachments == 0)
      modifies this`value, this`showCommands, this`activeInterface, this`frameworkRequests,
               this`commandHistory, this`historyIndex, this`submissions
      ensures Valid()
      ensures commandHistory == (if IsBlank(old(value)) then old(commandHistory) else Record(old(commandHistory), old(value)))
      ensures historyIndex == -1
      ensures !StartsWith(old(value), "/") ==>
                submissions == old(submissions) + [old(value)] && value == old(value)
                && showCommands == old(showCommands) && activeInterface == old(activeInterface)
                && frameworkRequests == old(frameworkRequests)
      ensures StartsWith(old(value), "/") ==> submissions == old(submissions)
      ensures StartsWith(old(value), "/") && Dispatch(old(value)) == PanelKept ==>
                value == old(value) && activeInterface == old(activeInterface)
      ensures StartsWith(old(value), "/") && Dispatch(old(value)) != PanelKept ==>
                value == "" && activeInterface == None && !showCommands
      ensures frameworkRequests ==
                if StartsWith(old(value), "/") && Dispatch(old(value)) == Extreme && canSelectFramework
                then old(frameworkRequests) + [FrameworkValue(ExtremeMode)] else old(frameworkRequests)
    {
      EndHistoryWalk();
      if StartsWith(value, "/") {
        assert value != "";
        HandleCommand(value);
        return;
      }
      submissions := submissions + [value];
    }

    /** `handleSubmit`: nothing for a blank text without attachments;
        otherwise as `SubmitPastGuard`. */
    method HandleSubmit()
      requires Valid()
      modifies this`value, this`showCommands, this`activeInterface, this`frameworkRequests,
               this`commandHistory, this`historyIndex, this`submissions
      ensures Valid()
      ensures IsBlank(old(value)) && attachments == 0 ==>
                value == old(value) && showCommands == old(showCommands) && activeInterface == old(activeInterface)
                && commandHistory == old(commandHistory) && historyIndex == old(historyIndex)
                && submissions == old(submissions) && frameworkRequests == old(frameworkRequests)
      ensures !(IsBlank(old(value)) && attachments == 0) ==>
                && commandHistory == (if IsBlank(old(value)) then old(commandHistory) else Record(old(commandHistory), old(value)))
                && historyIndex == -1
      ensures !(IsBlank(old(value)) && attachments == 0) && !StartsWith(old(value), "/") ==>
                submissions == old(submissions) + [old(value)] && value == old(value)
                && showCommands == old(showCommands) && activeInterface == old(activeInterface)
                && frameworkRequests == old(frameworkRequests)
      ensures !(IsBlank(old(value)) && attachments == 0) && StartsWith(old(value), "/") ==> submissions == old(submissions)
      ensures !(IsBlank(old(value)) && attachments == 0) && StartsWith(old(value), "/") && Dispatch(old(value)) == PanelKept ==>
                value == old(value) && activeInterface == old(activeInterface)
      ensures !(IsBlank(old(value)) && attachments == 0) && StartsWith(old(value), "/") && Dispatch(old(value)) != PanelKept ==>
                value == "" && activeInterface == None && !showCommands
      ensures frameworkRequests ==
                if !(IsBlank(old(value)) && attachments == 0) && StartsWith(old(value), "/")
                   && Dispatch(old(value)) == Extreme && canSelectFramework
                then old(frameworkRequests) + [FrameworkValue(ExtremeMode)] else old(frameworkRequests)
    {
      if IsBlank(value) && attachments == 0 {
        return;
      }
      SubmitPastGuard();
    }

    /** `handleKeyDown`: Enter without Shift submits; the arrows walk the
        history; Tab completes; Escape closes the panel. */
    method HandleKeyDown(key: Key)
      requires Valid()
      modifies this`value, this`showCommands, this`activeInterface, this`frameworkRequests,
               this`commandHistory, this`historyIndex, this`submissions
      ensures Valid()
      ensures key.OtherKey? || key == Enter(true) ==>
                value == old(value) && showCommands == old(showCommands) && activeInterface == old(activeInterface)
                && commandHistory == old(commandHistory) && historyIndex == old(historyIndex)
                && submissions == old(submissions) && frameworkRequests == old(frameworkRequests)
      ensures !key.Enter? ==> commandHistory == old(commandHistory) && submissions == old(submissions)
                              && frameworkRequests == old(frameworkRequests)
      ensures key.ArrowUp? || key.ArrowDown? ==>
                var n := Nav(old(value), old(historyIndex));
                var r := if key.ArrowUp? then PressUpAsWritten(commandHistory, n) else PressDown(commandHistory, n);
                value == r.input && historyIndex == r.index
      ensures key.Tab? ==>
                value == (if ShowsSuggestions(old(value)) then Complete(CommandNames, old(value)) else old(value))
      ensures key.Escape? ==> activeInterface == None && value == old(value)
    {
      match key
      case Enter(shift) =>
        if !shift {
          HandleSubmit();
        }
      case ArrowUp => Navigate(true);
      case ArrowDown => Navigate(false);
      case Tab => TabKey();
      case Escape => EscapeKey();
      case OtherKey =>
    }

    /** `selectCommand`: a suggestion is put into the input. */
    method SelectCommand(command: string)
      modifies this`value, this`showCommands, this`activeInterface
      ensures value == command
      ensures command != old(value) ==> showCommands == ShowsSuggestions(command) && activeInterface == PanelFor(command)
      ensures command == old(value) ==> !showCommands && activeInterface == old(activeInterface)
    {
      var before := value;
      value := command;
      showCommands := false;
      Settle(before);
    }

    /** `closeInterface`: the panel closes and the input empties. */
    method CloseInterface()
      modifies this`value, this`showCommands, this`activeInterface
      ensures value == "" && activeInterface == None
      ensures old(value) != "" ==> !showCommands
      ensures old(value) == "" ==> showCommands == old(showCommands)
    {
      var before := value;
      activeInterface := None;
      value := "";
      Settle(before);
    }

    /** `handleModelSelect`. */
    method HandleModelSelect(model: string)
      modifies this`value, this`showCommands, this`activeInterface, this`selectedModel
      ensures selectedModel == model && value == "" && activeInterface == None
    {
      selectedModel := model;
      CloseInterface();
    }

    /** `handleFrameworkSelect`: the framework is handed on, if the parent
        listens, and the panel closes. */
    method HandleFrameworkSelect(f: StudyFramework)
      modifies this`value, this`showCommands, this`activeInterface, this`frameworkRequests
      ensures frameworkRequests == old(frameworkRequests) + (if canSelectFramework then [FrameworkValue(f)] else [])
      ensures value == "" && activeInterface == None
    {
      if canSelectFramework {
        frameworkRequests := frameworkRequests + [FrameworkValue(f)];
      }
      CloseInterface();
    }
  }
}
