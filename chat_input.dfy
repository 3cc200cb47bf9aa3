// The spaces chat input (components/features/spaces/input/input-content-box.tsx):
// a text box controlled by its parent, with '/'-commands, a suggestion list,
// one of three menus, the search group and the attachments. The parent's
// setters (`onChange`, `onGroupChange`, `onModelChange`,
// `onAttachmentsChange`) are taken to apply their argument at once, so the
// values they set are fields here; the callbacks that only notify are
// recorded in order.

module SpacesChatInput {
  import opened Opt
  import opened Strings
  import opened Types
  import opened CommandLine
  import Seqs

  /** `SearchGroupId`. */
  datatype Group = ChatGroup | ExtremeGroup

  datatype Menu = ModelMenu | FrameworksMenu | CompactMenu

  datatype ChatCommand = ChatCommand(id: string, caption: string)

  datatype Attachment = Attachment(name: string, contentType: string, url: string, size: nat)

  /** The command derived from a framework: '/' and the lower-cased part
      of the framework's value before its first '-'. */
  function FrameworkCommand(f: StudyFramework): string
  {
    "/" + Lower(Split(FrameworkValue(f), '-')[0])
  }

  /** `EXTREME_COMMAND`. */
  function ExtremeCommand(): string
  {
    FrameworkCommand(ExtremeMode)
  }

  /** A framework whose value is `head` + '-' + `rest`, with `head` free of
      '-' and of capitals, has the command '/' + `head`. */
  lemma FrameworkCommandIsHead(f: StudyFramework, head: string, rest: string, cmd: string)
    requires FrameworkValue(f) == head + ['-'] + rest
    requires Lacks(head, '-') && forall i :: 0 <= i < |head| ==> !IsUpperAscii(head[i])
    requires cmd == "/" + head
    ensures FrameworkCommand(f) == cmd
  {
    SplitFirstPiece(head, '-', rest);
    assert Lower(head) == head;
  }

  /** `extreme` has no '-' and no capitals. */
  lemma ExtremeHeadPlain()
    ensures Lacks("extreme", '-') && forall i :: 0 <= i < |"extreme"| ==> !IsUpperAscii("extreme"[i])
  {
    var e := "extreme";
    forall i | 0 <= i < |e|
      ensures e[i] != '-' && !IsUpperAscii(e[i])
    {
      assert e[i] in e;
    }
  }

  /** The Extreme command is `/extreme`. */
  lemma ExtremeCommandIsExtreme()
    ensures ExtremeCommand() == "/extreme"
  {
    ExtremeHeadPlain();
    assert FrameworkValue(ExtremeMode) == "extreme" + ['-'] + "mode";
    FrameworkCommandIsHead(ExtremeMode, "extreme", "mode", "/extreme");
  }

  const BaseCommands: seq<ChatCommand> := [
    ChatCommand("/model", "AI model"),
    ChatCommand("/frameworks", "Study frameworks"),
    ChatCommand("/extreme", "Extreme mode")
  ]

  /** `COMMANDS`: the base commands, and `/compact` after them only when
      compacting is available. */
  function Commands(compactAvailable: bool): (r: seq<ChatCommand>)
    ensures |r| >= |BaseCommands| && r[..|BaseCommands|] == BaseCommands
  {
    if compactAvailable then BaseCommands + [ChatCommand("/compact", "Compact conversation")] else BaseCommands
  }

  /** `/compact` is offered exactly when compacting is available. */
  lemma CompactOfferedIff(compactAvailable: bool)
    ensures (exists i :: 0 <= i < |Commands(compactAvailable)| && Commands(compactAvailable)[i].id == "/compact")
            <==> compactAvailable
  {
    var r := Commands(compactAvailable);
    if compactAvailable {
      assert r[3].id == "/compact";
    } else {
      forall i | 0 <= i < |r| ensures r[i].id != "/compact" {
      }
    }
  }

  /** The suggestions for the text `v`: the commands whose id starts with
      the lower-cased text, in list order. */
  function Suggestions(commands: seq<ChatCommand>, v: string): (r: seq<ChatCommand>)
    ensures forall c :: c in r <==> c in commands && StartsWith(c.id, Lower(v))
  {
    Seqs.Filter((c: ChatCommand) => StartsWith(c.id, Lower(v)), commands)
  }

  /** The suggestion filter ignores case. */
  lemma SuggestionsIgnoreCase(commands: seq<ChatCommand>, v: string)
    ensures Suggestions(commands, v) == Suggestions(commands, Lower(v))
  {
    LowerIdempotent(v);
  }

  /** The menu a complete command opens. */
  function MenuFor(v: string): (m: Option<Menu>)
    ensures m == Some(ModelMenu) <==> v == "/model"
    ensures m == Some(FrameworksMenu) <==> v == "/frameworks"
    ensures m == Some(CompactMenu) <==> v == "/compact"
  {
    if v == "/model" then Some(ModelMenu)
    else if v == "/frameworks" then Some(FrameworksMenu)
    else if v == "/compact" then Some(CompactMenu)
    else None
  }

  /** `attachments.filter((_, i) => i !== index)`. */
  function WithoutIndex<T>(s: seq<T>, index: int): (r: seq<T>)
    ensures 0 <= index < |s| ==> r == s[..index] + s[index + 1..]
    ensures !(0 <= index < |s|) ==> r == s
    decreases |s|
  {
    if |s| == 0 then []
    else (if index == 0 then [] else [s[0]]) + WithoutIndex(s[1..], index - 1)
  }

  /** The group a chosen framework puts the chat in. */
  function GroupFor(f: StudyFramework): (g: Group)
    ensures g == ExtremeGroup <==> f == ExtremeMode
  {
    if f == ExtremeMode then ExtremeGroup else ChatGroup
  }

  class ChatInput {
    var value: string
    var activeMenu: Option<Menu>
    var showSuggestions: bool
    var selectedModel: string
    var selectedGroup: Group
    var attachments: seq<Attachment>
    /** `currentSpaceId`, when given. */
    const currentSpaceId: Option<string>
    /** Whether `onCompactSpace` is given. */
    const hasCompactSpace: bool
    /** Whether `onFrameworkSelect` is given. */
    const hasFrameworkSelect: bool
    /** The texts passed on through `onSubmit`, oldest first. */
    var submissions: seq<string>
    /** The framework values passed to `onFrameworkSelect`, oldest first. */
    var frameworkRequests: seq<string>
    /** The space ids passed to `onCompactSpace`, oldest first. */
    var compactRequests: seq<string>

    /** `currentSpaceId && onCompactSpace`: both given, the id non-empty. */
    predicate CompactAvailable()
      reads this
    {
      currentSpaceId.Some? && currentSpaceId.value != "" && hasCompactSpace
    }

    /** The component mounts and its effect runs once on `value0`. */
    constructor(value0: string, model: string, group: Group, attached: seq<Attachment>,
                spaceId: Option<string>, compactSpace: bool, frameworkSelect: bool)
      ensures value == value0 && selectedModel == model && selectedGroup == group && attachments == attached
      ensures currentSpaceId == spaceId && hasCompactSpace == compactSpace && hasFrameworkSelect == frameworkSelect
      ensures showSuggestions == ShowsSuggestions(value0) && activeMenu == MenuFor(value0)
      ensures submissions == [] && frameworkRequests == [] && compactRequests == []
    {
      value := value0;
      selectedModel := model;
      selectedGroup := group;
      attachments := attached;
      currentSpaceId := spaceId;
      hasCompactSpace := compactSpace;
      hasFrameworkSelect := frameworkSelect;
      submissions := [];
      frameworkRequests := [];
      compactRequests := [];
      showSuggestions := ShowsSuggestions(value0);
      activeMenu := MenuFor(value0);
    }

    /** The effect on `value`: when the text differs from `before`, the
        suggestion flag and the menu follow it. */
    method Settle(before: string)
      modifies this`showSuggestions, this`activeMenu
      ensures value != before ==> showSuggestions == ShowsSuggestions(value) && activeMenu == MenuFor(value)
      ensures value == before ==> showSuggestions == old(showSuggestions) && activeMenu == old(activeMenu)
    {
      if value != before {
        showSuggestions := ShowsSuggestions(value);
        activeMenu := MenuFor(value);
      }
    }

    /** The parent's `onChange` followed by the effect. */
    method Change(v: string)
      modifies this`value, this`showSuggestions, this`activeMenu
      ensures value == v
      ensures v != old(value) ==> showSuggestions == ShowsSuggestions(v) && activeMenu == MenuFor(v)
      ensures v == old(value) ==> showSuggestions == old(showSuggestions) && activeMenu == old(activeMenu)
    {
      var before := value;
      value := v;
      Settle(before);
    }

    /** `handleCommand` on the lower-cased text `cmd`: the Extreme command
        switches the group and requests the Extreme framework; `/model`,
        `/frameworks` and an available `/compact` are left to their menus;
        everything else clears the input. */
    method HandleCommand(cmd: string)
      requires value != ""
      modifies this`value, this`showSuggestions, this`activeMenu, this`selectedGroup, this`frameworkRequests
      ensures cmd == "/extreme" ==> selectedGroup == ExtremeGroup
      ensures cmd != "/extreme" ==> selectedGroup == old(selectedGroup)
      ensures frameworkRequests ==
                if cmd == "/extreme" && hasFrameworkSelect
                then old(frameworkRequests) + [FrameworkValue(ExtremeMode)] else old(frameworkRequests)
      ensures cmd == "/model" || cmd == "/frameworks" || (cmd == "/compact" && CompactAvailable()) ==>
                value == old(value) && showSuggestions == old(showSuggestions) && activeMenu == old(activeMenu)
      ensures !(cmd == "/model" || cmd == "/frameworks" || (cmd == "/compact" && CompactAvailable())) ==>
                value == "" && activeMenu == None
    {
      var extreme := ExtremeCommand();
      ExtremeCommandIsExtreme();
      if cmd == extreme {
        selectedGroup := ExtremeGroup;
        if hasFrameworkSelect {
          frameworkRequests := frameworkRequests + [FrameworkValue(ExtremeMode)];
        }
        Change("");
      } else if cmd == "/model" || cmd == "/frameworks" {
      } else if cmd == "/compact" {
        if !CompactAvailable() {
          Change("");
        }
      } else {
        Change("");
      }
    }

    /** `handleSubmit`: nothing for a blank text without attachments; a
        '/'-text is handled as a lower-cased command and never submitted;
        anything else goes to `onSubmit`. */
    method HandleSubmit()
      modifies this`value, this`showSuggestions, this`activeMenu, this`selectedGroup,
               this`frameworkRequests, this`submissions
      ensures IsBlank(old(value)) && |attachments| == 0 ==>
                value == old(value) && activeMenu == old(activeMenu) && showSuggestions == old(showSuggestions)
                && selectedGroup == old(selectedGroup) && frameworkRequests == old(frameworkRequests)
                && submissions == old(submissions)
      ensures !(IsBlank(old(value)) && |attachments| == 0) && !StartsWith(old(value), "/") ==>
                submissions == old(submissions) + [old(value)] && value == old(value)
                && activeMenu == old(activeMenu) && selectedGroup == old(selectedGroup)
      ensures !(IsBlank(old(value)) && |attachments| == 0) && StartsWith(old(value), "/") ==>
                submissions == old(submissions)
      ensures !(IsBlank(old(value)) && |attachments| == 0) && StartsWith(old(value), "/")
              && Lower(old(value)) == "/extreme" ==>
                selectedGroup == ExtremeGroup && value == ""
                && frameworkRequests == old(frameworkRequests) + (if hasFrameworkSelect then [FrameworkValue(ExtremeMode)] else [])
      ensures !(!(IsBlank(old(value)) && |attachments| == 0) && StartsWith(old(value), "/")
                && Lower(old(value)) == "/extreme") ==>
                selectedGroup == old(selectedGroup) && frameworkRequests == old(frameworkRequests)
      ensures !(IsBlank(old(value)) && |attachments| == 0) && StartsWith(old(value), "/")
              && !(Lower(old(value)) in ["/model", "/frameworks"] || (Lower(old(value)) == "/compact" && CompactAvailable())) ==>
                value == "" && activeMenu == None
    {
      if IsBlank(value) && |attachments| == 0 {
        return;
      }
      if StartsWith(value, "/") {
        HandleCommand(Lower(value));
        return;
      }
      submissions := submissions + [value];
    }

    /** `closeMenu`: the menu closes and the input empties. */
    method CloseMenu()
      modifies this`value, this`showSuggestions, this`activeMenu
      ensures value == "" && activeMenu == None
      ensures old(value) != "" ==> !showSuggestions
      ensures old(value) == "" ==> showSuggestions == old(showSuggestions)
    {
      activeMenu := None;
      Change("");
    }

    /** `handleKeyDown`: Enter without Shift submits; Escape closes an open
        menu. */
    method HandleKeyDown(key: Key)
      modifies this`value, this`showSuggestions, this`activeMenu, this`selectedGroup,
               this`frameworkRequests, this`submissions
      ensures key.Escape? && old(activeMenu).Some? ==> value == "" && activeMenu == None
      ensures !key.Enter? ==> submissions == old(submissions) && selectedGroup == old(selectedGroup)
      ensures (key.Escape? && old(activeMenu).None?) || key == Enter(true) || key.ArrowUp? || key.ArrowDown? || key.Tab? || key.OtherKey? ==>
                value == old(value) && activeMenu == old(activeMenu) && showSuggestions == old(showSuggestions)
    {
      match key {
        case Enter(shift) =>
          if !shift {
            HandleSubmit();
          }
        case Escape =>
          if activeMenu.Some? {
            CloseMenu();
          }
        case _ =>
      }
    }

    /** `selectSuggestion`: the chosen command fills the input; the effect
        then shows the suggestions again for it when the text changed. */
    method SelectSuggestion(command: string)
      modifies this`value, this`showSuggestions, this`activeMenu
      ensures value == command
      ensures command != old(value) ==> showSuggestions == ShowsSuggestions(command) && activeMenu == MenuFor(command)
      ensures command == old(value) ==> !showSuggestions && activeMenu == old(activeMenu)
    {
      var before := value;
      value := command;
      showSuggestions := false;
      Settle(before);
    }

    /** `handleModelSelect`. */
    method HandleModelSelect(model: string)
      modifies this`value, this`showSuggestions, this`activeMenu, this`selectedModel
      ensures selectedModel == model && value == "" && activeMenu == None
    {
      selectedModel := model;
      CloseMenu();
    }

    /** `handleFrameworkSelect`: Extreme selects the Extreme group, any other
        framework the chat group; the framework is passed on and the menu
        closes. */
    method HandleFrameworkSelect(f: StudyFramework)
      modifies this`value, this`showSuggestions, this`activeMenu, this`selectedGroup, this`frameworkRequests
      ensures selectedGroup == GroupFor(f)
      ensures frameworkRequests == if hasFrameworkSelect then old(frameworkRequests) + [FrameworkValue(f)]
                                   else old(frameworkRequests)
      ensures value == "" && activeMenu == None
    {
      selectedGroup := GroupFor(f);
      if hasFrameworkSelect {
        frameworkRequests := frameworkRequests + [FrameworkValue(f)];
      }
      CloseMenu();
    }

    /** `handleCompactChat`: the current space is compacted only when
        compacting is available; the menu closes either way. */
    method HandleCompactChat()
      modifies this`value, this`showSuggestions, this`activeMenu, this`compactRequests
      ensures compactRequests == if CompactAvailable() then old(compactRequests) + [currentSpaceId.value]
                                 else old(compactRequests)
      ensures value == "" && activeMenu == None
    {
      if CompactAvailable() {
        compactRequests := compactRequests + [currentSpaceId.value];
      }
      CloseMenu();
    }

    /** `removeAttachment`. */
    method RemoveAttachment(index: int)
      modifies this`attachments
      ensures attachments == WithoutIndex(old(attachments), index)
    {
      attachments := WithoutIndex(attachments, index);
    }
  }
}
