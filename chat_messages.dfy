// The decision helpers of the spaces message list
// (components/features/spaces/chat/messages.tsx): which messages are
// shown, when a reasoning part counts as complete, which text parts are
// suppressed, what retry and regenerate do to the message list, the
// loading caption, and the streaming progress bar.

module ChatMessages {
  import opened Opt
  import opened Strings
  import Seqs
  import opened Arith

  datatype Role = UserRole | AssistantRole | SystemRole | DataRole

  /** The message parts the list tells apart; other part kinds (sources,
      files, step markers) are `OtherPart`. */
  datatype Part =
    | TextPart(text: string)
    | ReasoningPart(reasoning: string)
    | ToolInvocationPart(toolName: string)
    | OtherPart

  /** A chat message; `parts` may be missing. */
  datatype UIMessage = UIMessage(role: Role, content: string, parts: Option<seq<Part>>)

  predicate IsToolPart(p: Part) { p.ToolInvocationPart? }

  predicate IsTextPart(p: Part) { p.TextPart? }

  /** `message.parts?.some(pred)`: false when the parts are missing. */
  predicate SomePart(parts: Option<seq<Part>>, pred: Part -> bool)
  {
    parts.Some? && exists i :: 0 <= i < |parts.value| && pred(parts.value[i])
  }

  // ---------------------------------------------------------------------
  // Display filter

  /** The filter of `memoizedMessages` as written, branch by branch. */
  predicate KeptForDisplay(m: UIMessage)
  {
    if m.role == UserRole then true
    else if m.role == AssistantRole then
      if SomePart(m.parts, IsToolPart) then true
      else if SomePart(m.parts, IsTextPart) || !SomePart(m.parts, IsToolPart) then true
      else false
    else false
  }

  function DisplayedMessages(messages: seq<UIMessage>): (r: seq<UIMessage>)
    ensures forall m :: m in r <==> m in messages && KeptForDisplay(m)
  {
    Seqs.Filter(KeptForDisplay, messages)
  }

  /** The assistant branch always keeps the message: the list shows exactly
      the user and assistant messages, in their order, and drops every
      other role. */
  lemma DisplayKeepsUserAndAssistant(messages: seq<UIMessage>)
    ensures forall m :: m in DisplayedMessages(messages) <==>
              m in messages && (m.role == UserRole || m.role == AssistantRole)
    ensures DisplayedMessages(messages)
            == Seqs.Filter((m: UIMessage) => m.role == UserRole || m.role == AssistantRole, messages)
  {
    forall m: UIMessage
      ensures KeptForDisplay(m) <==> m.role == UserRole || m.role == AssistantRole
    {
      if m.role == AssistantRole && !SomePart(m.parts, IsToolPart) {
        assert !SomePart(m.parts, IsToolPart);
      }
    }
    SameFilter(messages);
  }

  lemma {:induction false} SameFilter(messages: seq<UIMessage>)
    requires forall m: UIMessage :: KeptForDisplay(m) <==> m.role == UserRole || m.role == AssistantRole
    ensures Seqs.Filter(KeptForDisplay, messages)
            == Seqs.Filter((m: UIMessage) => m.role == UserRole || m.role == AssistantRole, messages)
  {
    if |messages| > 0 {
      SameFilter(messages[1..]);
    }
  }

  // ---------------------------------------------------------------------
  // Reasoning parts

  /** The render's `isComplete`: some later part of the message is text
      or a tool invocation. */
  predicate ReasoningComplete(parts: seq<Part>, index: int)
  {
    exists i :: 0 <= i < |parts| && index < i && (parts[i].TextPart? || parts[i].ToolInvocationPart?)
  }

  /** The timing effect's `isComplete`: the very next part is text. */
  predicate ReasoningCompleteInEffect(parts: seq<Part>, index: int)
  {
    0 <= index + 1 < |parts| && parts[index + 1].TextPart?
  }

  /** The effect's test is the stricter one: whenever it holds, the
      render's holds too. */
  lemma EffectCompleteImpliesRenderComplete(parts: seq<Part>, index: int)
    requires ReasoningCompleteInEffect(parts, index)
    ensures ReasoningComplete(parts, index)
  {
    assert parts[index + 1].TextPart?;
  }

  /** A reasoning part followed directly by a tool call is complete for the
      render but not for the timing effect, so the effect records no end
      time for it. */
  lemma ToolAfterReasoningDisagrees(r: string, tool: string)
    ensures ReasoningComplete([ReasoningPart(r), ToolInvocationPart(tool)], 0)
    ensures !ReasoningCompleteInEffect([ReasoningPart(r), ToolInvocationPart(tool)], 0)
  {
    assert [ReasoningPart(r), ToolInvocationPart(tool)][1].ToolInvocationPart?;
  }

  /** `reasoningVisibilityMap[key] ?? !isComplete`: a section nobody has
      toggled is open exactly while its reasoning is incomplete. */
  function ExpandedByDefault(toggled: Option<bool>, complete: bool): (r: bool)
    ensures toggled.None? ==> (r <==> !complete)
    ensures toggled.Some? ==> r == toggled.value
  {
    if toggled.Some? then toggled.value else !complete
  }

  // ---------------------------------------------------------------------
  // Text parts

  /** Whether the text part at `index` is rendered: not when it is blank,
      and not when it is the first part of a message holding any tool
      invocation. */
  function TextPartShown(parts: seq<Part>, index: int): (r: bool)
    requires 0 <= index < |parts| && parts[index].TextPart?
    ensures r <==> !IsBlank(parts[index].text)
                   && (index != 0 || forall i :: 0 <= i < |parts| ==> !parts[i].ToolInvocationPart?)
  {
    if IsBlank(parts[index].text) then false
    else
      var hasTool := Seqs.FindIndex(IsToolPart, parts) >= 0;
      !(index == 0 && hasTool)
  }

  /** A later text part is suppressed only when it is blank. */
  lemma LaterTextShownUnlessBlank(parts: seq<Part>, index: int)
    requires 0 < index < |parts| && parts[index].TextPart?
    ensures TextPartShown(parts, index) <==> !IsBlank(parts[index].text)
  {
  }

  // ---------------------------------------------------------------------
  // Retry and regenerate

  /** Whether some message is the user's (`findLast` found one). */
  predicate HasUserMessage(messages: seq<UIMessage>)
  {
    exists i :: 0 <= i < |messages| && messages[i].role == UserRole
  }

  /** `handleRetry`'s new message list: `None` (nothing happens) without a
      user message; otherwise the list without its last message when that
      one is the assistant's. */
  function Retry(messages: seq<UIMessage>): (r: Option<seq<UIMessage>>)
    ensures r.None? <==> !HasUserMessage(messages)
    ensures r.Some? && messages[|messages| - 1].role == AssistantRole ==> r.value == messages[..|messages| - 1]
    ensures r.Some? && messages[|messages| - 1].role != AssistantRole ==> r.value == messages
  {
    if !HasUserMessage(messages) then None
    else if messages[|messages| - 1].role == AssistantRole then Some(messages[..|messages| - 1])
    else Some(messages)
  }

  /** The regenerate button's new message list: the last message goes,
      whatever its role. */
  function Regenerate(messages: seq<UIMessage>): (r: Option<seq<UIMessage>>)
    ensures r.None? <==> !HasUserMessage(messages)
    ensures r.Some? ==> r.value == messages[..|messages| - 1]
  {
    if !HasUserMessage(messages) then None else Some(messages[..|messages| - 1])
  }

  /** Retry keeps every user message, so the question to resubmit is
      still there. */
  lemma RetryKeepsUserMessages(messages: seq<UIMessage>)
    requires Retry(messages).Some?
    ensures HasUserMessage(Retry(messages).value)
    ensures forall m :: m in messages && m.role == UserRole ==> m in Retry(messages).value
  {
    var r := Retry(messages).value;
    var n := |messages|;
    forall m | m in messages && m.role == UserRole
      ensures m in r
    {
      var k :| 0 <= k < n && messages[k] == m;
      if messages[n - 1].role == AssistantRole {
        assert k < n - 1;
        assert r[k] == m;
      }
    }
    var k :| 0 <= k < n && messages[k].role == UserRole;
    assert messages[k] in r;
  }

  /** Regenerate after a user message (no answer yet) removes the user's
      own question, which retry would keep. */
  lemma RegenerateDropsTrailingQuestion(messages: seq<UIMessage>)
    requires |messages| > 0 && messages[|messages| - 1].role == UserRole
    ensures Regenerate(messages) == Some(messages[..|messages| - 1])
    ensures Retry(messages) == Some(messages)
  {
    assert HasUserMessage(messages) by {
      assert messages[|messages| - 1].role == UserRole;
    }
  }

  // ---------------------------------------------------------------------
  // Loading caption and progress

  const ThinkingText := "Thinking..."
  const AnalyzingText := "Analyzing your request..."
  const ProcessingText := "Processing information..."
  const GatheringText := "Gathering relevant details..."
  const LongWaitText := "This is taking longer than usual..."

  /** Which of the five captions `getLoadingText` picks after `seconds`
      of thinking, from 0 to 4. */
  function LoadingStage(seconds: int): (r: nat)
    ensures r <= 4
    ensures r == 0 <==> seconds <= 3
    ensures r == 4 <==> seconds > 25
  {
    if seconds <= 3 then 0
    else if seconds <= 8 then 1
    else if seconds <= 15 then 2
    else if seconds <= 25 then 3
    else 4
  }

  function LoadingText(seconds: int): string
  {
    [ThinkingText, AnalyzingText, ProcessingText, GatheringText, LongWaitText][LoadingStage(seconds)]
  }

  /** The caption never steps back while the thinking time grows. */
  lemma LoadingStageMonotone(s: int, t: int)
    requires s <= t
    ensures LoadingStage(s) <= LoadingStage(t)
  {
  }

  /** Whole seconds of thinking: `floor((now - start) / 1000)`. */
  function ThinkingSeconds(start: int, now: int): (r: int)
    ensures now >= start ==> r >= 0 && r * 1000 <= now - start < (r + 1) * 1000
  {
    (now - start) / 1000
  }

  /** The estimated generation time the progress bar is scaled to. */
  const EstimatedStreamMillis := 15000

  /** The streaming progress after `elapsed` milliseconds:
      `min(95, floor(elapsed / 15000 * 100))`. */
  function StreamingProgress(elapsed: int): (r: int)
    ensures r <= 95
    ensures elapsed >= 0 ==> r >= 0
    ensures elapsed >= 14250 ==> r == 95
  {
    var p := (elapsed * 100) / EstimatedStreamMillis;
    if p < 95 then p else 95
  }

  /** Progress never decreases while the stream runs. */
  lemma StreamingProgressMonotone(e1: int, e2: int)
    requires e1 <= e2
    ensures StreamingProgress(e1) <= StreamingProgress(e2)
  {
    DivMonotone(e1 * 100, e2 * 100, EstimatedStreamMillis);
  }

  datatype Status = Submitted | Streaming | Ready | Error

  /** The progress bar of the message list. */
  class StreamProgress {
    var progress: int
    /** `streamStartTime`. */
    var start: Option<int>

    ghost predicate Valid()
      reads this
    {
      progress <= 100
    }

    constructor()
      ensures Valid() && progress == 0 && start == None
    {
      progress := 0;
      start := None;
    }

    /** The effect on `status`: streaming starts the timer at 5 %, and
        `ready` fills the bar. */
    method OnStatus(status: Status, now: int)
      requires Valid()
      modifies this
      ensures Valid()
      ensures status == Streaming && old(start).None? ==> start == Some(now) && progress == 5
      ensures status == Streaming && old(start).Some? ==> start == old(start) && progress == old(progress)
      ensures status == Ready ==> progress == 100 && start == old(start)
      ensures status == Submitted || status == Error ==> progress == old(progress) && start == old(start)
    {
      if status == Streaming {
        if start.None? {
          start := Some(now);
          progress := 5;
        }
      } else if status == Ready {
        progress := 100;
      }
    }

    /** One 300 ms interval tick while streaming. */
    method Interval(now: int)
      requires Valid()
      modifies this`progress
      ensures Valid()
      ensures old(start).Some? ==> progress == StreamingProgress(now - start.value)
      ensures old(start).None? ==> progress == old(progress)
    {
      if start.Some? {
        progress := StreamingProgress(now - start.value);
      }
    }

    /** The reset one second after completion. */
    method ResetAfterAnimation()
      modifies this
      ensures Valid() && progress == 0 && start == None
    {
      start := None;
      progress := 0;
    }
  }
}
