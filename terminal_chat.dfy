// The terminal chat kept under backup/terminal-chat-backup
// (components/terminal-chat.tsx): one component owns the message list, the
// input text, the suggestion flag and the command history. A submission
// enters the history and the list; a command is answered at once, a plain
// message by a simulated reply a timer delivers later.

module TerminalChat {
  import opened Strings
  import opened CommandLine
  import Seqs

  datatype Role = User | Assistant

  datatype Message = Message(id: string, content: string, role: Role)

  /** The one message the chat starts with. */
  const Welcome: Message :=
    Message("welcome", "Welcome to Terminal AI. Type /help to see available commands.", Assistant)

  const Commands: seq<Command> := [
    Command("/clear", "Clear conversation history and free up context"),
    Command("/model", "Open model selection panel"),
    Command("/provider", "Change AI provider"),
    Command("/history", "View command history"),
    Command("/help", "List available commands and their descriptions"),
    Command("/compact", "Clear conversation history but keep a summary")
  ]

  /** The names of the command list, in order. */
  const CommandNames: seq<string> := ["/clear", "/model", "/provider", "/history", "/help", "/compact"]

  lemma CommandNamesInOrder()
    ensures |CommandNames| == |Commands|
    ensures forall i :: 0 <= i < |Commands| ==> CommandNames[i] == Commands[i].name
  {
  }

  // ---------------------------------------------------------------------
  // The replies to commands

  function HelpLine(c: Command): string
  {
    c.name + " - " + c.description
  }

  /** The `/help` reply for the command list `cs`: its help lines joined by
      newlines. */
  function HelpText(cs: seq<Command>): string
  {
    Join(Seqs.Map(HelpLine, cs), "\n")
  }

  /** The `/help` reply has one line per command, `<name> - <description>`,
      in the order of the list, when no name or description holds a line
      break. */
  lemma HelpListsEveryCommand(cs: seq<Command>)
    requires |cs| > 0
    requires forall k :: 0 <= k < |cs| ==> Lacks(cs[k].name, '\n') && Lacks(cs[k].description, '\n')
    ensures |Split(HelpText(cs), '\n')| == |cs|
    ensures forall i :: 0 <= i < |cs| ==> Split(HelpText(cs), '\n')[i] == cs[i].name + " - " + cs[i].description
  {
    var lines := Seqs.Map(HelpLine, cs);
    forall k | 0 <= k < |lines|
      ensures Lacks(lines[k], '\n')
    {
      var line := HelpLine(cs[k]);
      assert line == cs[k].name + " - " + cs[k].description;
      forall j | 0 <= j < |line|
        ensures line[j] != '\n'
      {
        if j < |cs[k].name| {
          assert line[j] == cs[k].name[j];
        } else if j >= |cs[k].name| + 3 {
          assert line[j] == cs[k].description[j - |cs[k].name| - 3];
        }
      }
    }
    SplitJoin(lines, '\n');
  }

  /** The `/history` reply for the history `h`. */
  function HistoryText(h: seq<string>): string
  {
    if |h| > 0 then "Command history:\n" + Join(h, "\n") else "No command history available."
  }

  /** A non-empty history is listed under a heading line, one entry per
      line, oldest first, when no entry holds a line break. */
  lemma HistoryListsEveryEntry(h: seq<string>)
    requires |h| > 0
    requires forall k :: 0 <= k < |h| ==> Lacks(h[k], '\n')
    ensures Split(HistoryText(h), '\n') == ["Command history:"] + h
  {
    var parts := ["Command history:"] + h;
    JoinCons("Command history:", h, "\n");
    assert HistoryText(h) == Join(parts, "\n");
    forall k | 0 <= k < |parts|
      ensures Lacks(parts[k], '\n')
    {
      if k > 0 {
        assert parts[k] == h[k - 1];
      }
    }
    SplitJoin(parts, '\n');
  }

  /** What a command word is answered with. */
  datatype Answer = Cleared | Help | History | NotImplemented(cmd: string) | Unknown(cmd: string)

  /** The `switch` of `handleCommand`. */
  function AnswerTo(cmd: string): (a: Answer)
    ensures a.Cleared? <==> cmd == "/clear"
    ensures a.Help? <==> cmd == "/help"
    ensures a.History? <==> cmd == "/history"
    ensures a.NotImplemented? <==> cmd in ["/model", "/provider", "/compact"]
    ensures a.Unknown? <==> cmd !in CommandNames
    ensures a.NotImplemented? || a.Unknown? ==> a.cmd == cmd
  {
    if cmd == "/clear" then Cleared
    else if cmd == "/help" then Help
    else if cmd == "/history" then History
    else if cmd == "/model" || cmd == "/provider" || cmd == "/compact" then NotImplemented(cmd)
    else Unknown(cmd)
  }

  /** The text of an answer other than `Cleared`, given the history as it
      was before the submission. */
  function AnswerText(a: Answer, h: seq<string>): string
    requires !a.Cleared?
  {
    match a
    case Help => HelpText(Commands)
    case History => HistoryText(h)
    case NotImplemented(cmd) => "Command '" + cmd + "' functionality is not implemented in this demo."
    case Unknown(cmd) => "Unknown command: " + cmd + ". Type /help to see available commands."
  }

  /** The message list after the command word `cmd`: `/clear` empties it,
      every other word adds one assistant message with its answer. */
  function AfterCommand(ms: seq<Message>, cmd: string, h: seq<string>, id: string): (r: seq<Message>)
    ensures cmd == "/clear" ==> r == []
    ensures cmd != "/clear" ==> r == ms + [Message(id, AnswerText(AnswerTo(cmd), h), Assistant)]
  {
    var a := AnswerTo(cmd);
    if a.Cleared? then [] else ms + [Message(id, AnswerText(a, h), Assistant)]
  }

  /** The simulated reply to a plain message. */
  function SimulatedReply(content: string): string
  {
    "This is a simulated response to: \"" + content + "\""
  }

  // ---------------------------------------------------------------------
  // The component

  class TerminalChat {
    var input: string
    var messages: seq<Message>
    var showCommands: bool
    var isProcessing: bool
    var commandHistory: seq<string>
    var historyIndex: int
    /** The plain messages whose simulated reply is still on its timer,
        oldest first. */
    var pending: seq<string>

    ghost predicate Valid()
      reads this
    {
      -1 <= historyIndex < |commandHistory| && AllNonBlank(commandHistory)
    }

    constructor()
      ensures Valid()
      ensures messages == [Welcome]
      ensures input == "" && !showCommands && !isProcessing
      ensures commandHistory == [] && historyIndex == -1 && pending == []
    {
      input := "";
      messages := [Welcome];
      showCommands := false;
      isProcessing := false;
      commandHistory := [];
      historyIndex := -1;
      pending := [];
    }

    /** The effect on `input`: when the text differs from `before`, the
        suggestion flag follows it. */
    method Settle(before: string)
      modifies this`showCommands
      ensures input != before ==> showCommands == ShowsSuggestions(input)
      ensures input == before ==> showCommands == old(showCommands)
    {
      if input != before {
        showCommands := ShowsSuggestions(input);
      }
    }

    /** `handleInputChange`. */
    method Type(v: string)
      modifies this`input, this`showCommands
      ensures input == v
      ensures v != old(input) ==> showCommands == ShowsSuggestions(v)
      ensures v == old(input) ==> showCommands == old(showCommands)
    {
      var before := input;
      input := v;
      Settle(before);
    }

    /** `handleCommand`: dispatch on the lower-cased first word. The history
        it lists is `h`, the one before the submission, since the handler
        reads the state of the render it was created in. */
    method HandleCommand(command: string, h: seq<string>, now: nat)
      modifies this`messages
      ensures messages == AfterCommand(old(messages), CommandWord(command), h, NatToString(now))
    {
      var answer := AnswerTo(CommandWord(command));
      if answer.Cleared? {
        messages := [];
      } else {
        messages := messages + [Message(NatToString(now), AnswerText(answer, h), Assistant)];
      }
    }

    /** A submission enters the history and ends the history walk. */
    method RecordInput()
      requires Valid() && !IsBlank(input)
      modifies this`commandHistory, this`historyIndex
      ensures Valid()
      ensures commandHistory == Record(old(commandHistory), input) && historyIndex == -1
    {
      RecordNonBlank(commandHistory, input);
      commandHistory := Record(commandHistory, input);
      historyIndex := -1;
    }

    /** The submitted text `v` becomes a user message and the input
        empties; a command is answered against the earlier history `h`, a
        plain message waits for its simulated reply. */
    method PostInput(v: string, h: seq<string>, now: nat)
      requires input == v && v != ""
      modifies this`input, this`showCommands, this`messages, this`isProcessing, this`pending
      ensures input == "" && !showCommands
      ensures !StartsWith(v, "/") ==>
                messages == old(messages) + [Message(NatToString(now), v, User)]
                && pending == old(pending) + [v] && isProcessing
      ensures StartsWith(v, "/") ==>
                messages == AfterCommand(old(messages) + [Message(NatToString(now), v, User)],
                                         CommandWord(v), h, NatToString(now))
                && pending == old(pending) && isProcessing == old(isProcessing)
    {
      messages := messages + [Message(NatToString(now), v, User)];
      input := "";
      if StartsWith(v, "/") {
        HandleCommand(v, h, now);
      } else {
        isProcessing := true;
        pending := pending + [v];
      }
      Settle(v);
    }

    /** `handleSubmit` at time `now`: a blank input is ignored; otherwise it
        enters the history and the list as a user message and the input
        empties; a command is answered at once, a plain message is queued
        for its simulated reply. */
    method HandleSubmit(now: nat)
      requires Valid()
      modifies this`input, this`showCommands, this`messages, this`isProcessing,
               this`commandHistory, this`historyIndex, this`pending
      ensures Valid()
      ensures IsBlank(old(input)) ==>
                input == old(input) && showCommands == old(showCommands) && messages == old(messages)
                && isProcessing == old(isProcessing) && commandHistory == old(commandHistory)
                && historyIndex == old(historyIndex) && pending == old(pending)
      ensures !IsBlank(old(input)) ==>
                commandHistory == Record(old(commandHistory), old(input)) && historyIndex == -1
                && input == "" && !showCommands
      ensures !IsBlank(old(input)) && !StartsWith(old(input), "/") ==>
                messages == old(messages) + [Message(NatToString(now), old(input), User)]
                && pending == old(pending) + [old(input)] && isProcessing
      ensures !IsBlank(old(input)) && StartsWith(old(input), "/") ==>
                messages == AfterCommand(old(messages) + [Message(NatToString(now), old(input), User)],
                                         CommandWord(old(input)), old(commandHistory), NatToString(now))
                && pending == old(pending) && isProcessing == old(isProcessing)
    {
      if IsBlank(input) {
        return;
      }
      var v, h := input, commandHistory;
      NonBlankNonEmpty(v);
      RecordInput();
      PostInput(v, h, now);
    }

    /** The timer of the oldest pending message fires at time `now`: its
        simulated reply is added and the busy flag clears. */
    method Respond(now: nat)
      requires |pending| > 0
      modifies this`messages, this`pending, this`isProcessing
      ensures messages == old(messages) + [Message(NatToString(now + 1), SimulatedReply(old(pending)[0]), Assistant)]
      ensures pending == old(pending)[1..] && !isProcessing
    {
      messages := messages + [Message(NatToString(now + 1), SimulatedReply(pending[0]), Assistant)];
      pending := pending[1..];
      isProcessing := false;
    }

    /** `handleKeyDown` at time `now`: Enter without Shift submits; the
        arrows walk the history; Tab completes a unique command. */
    method HandleKeyDown(key: Key, now: nat)
      requires Valid()
      modifies this`input, this`showCommands, this`messages, this`isProcessing,
               this`commandHistory, this`historyIndex, this`pending
      ensures Valid()
      ensures !key.Enter? ==>
                commandHistory == old(commandHistory) && messages == old(messages) && pending == old(pending)
      ensures key.ArrowUp? || key.ArrowDown? ==>
                var n := Nav(old(input), old(historyIndex));
                var r := if key.ArrowUp? then PressUpAsWritten(commandHistory, n) else PressDown(commandHistory, n);
                input == r.input && historyIndex == r.index
      ensures key.Tab? ==>
                input == (if ShowsSuggestions(old(input)) then Complete(CommandNames, old(input)) else old(input))
                && historyIndex == old(historyIndex)
      ensures key.Escape? || key.OtherKey? || key == Enter(true) ==>
                input == old(input) && showCommands == old(showCommands) && historyIndex == old(historyIndex)
    {
      var before := input;
      match key {
        case Enter(shift) =>
          if !shift {
            HandleSubmit(now);
          }
        case ArrowUp =>
          var r := PressUpAsWritten(commandHistory, Nav(input, historyIndex));
          input, historyIndex := r.input, r.index;
          Settle(before);
        case ArrowDown =>
          var r := PressDown(commandHistory, Nav(input, historyIndex));
          input, historyIndex := r.input, r.index;
          Settle(before);
        case Tab =>
          if ShowsSuggestions(input) {
            input := Complete(CommandNames, input);
            Settle(before);
          }
        case Escape =>
        case OtherKey =>
      }
    }

    /** `selectCommand`: the chosen command and a space fill the input, and
        the suggestions hide. */
    method SelectCommand(command: string)
      modifies this`input, this`showCommands
      ensures input == command + " " && !showCommands
    {
      var before := input;
      input := command + " ";
      showCommands := false;
      assert input[|input| - 1] == ' ';
      Settle(before);
    }
  }
}
