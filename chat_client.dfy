// The chat page's glue between the chat hook and the spaces store
// (app/ChatClient.tsx): user messages are stored in the current space
// before they are sent, finished assistant answers are stored when they
// ended normally, switching space loads the stored messages in time order,
// and the index of the last user message is found by a backward scan.

module ChatClient {
  import opened Opt
  import Seqs
  import Spaces
  import ChatMessages

  /** Why the model stopped, as the chat hook reports it. */
  datatype FinishReason = Stop | Length | ContentFilter | ToolCalls | ErrorReason | OtherReason | Unknown

  /** Whether `onFinish` stores the answer: it has content and the model
      stopped of its own accord or at the length limit. */
  predicate StoresAnswer(content: string, reason: FinishReason)
  {
    content != "" && (reason == Stop || reason == Length)
  }

  /** `lastUserMessageIndex`: the largest index holding a user message,
      -1 when there is none. */
  method LastUserMessageIndex(messages: seq<Spaces.ChatMessage>) returns (r: int)
    ensures -1 <= r < |messages|
    ensures r >= 0 ==> messages[r].role == Spaces.User
    ensures forall j :: r < j < |messages| ==> messages[j].role != Spaces.User
  {
    var i := |messages| - 1;
    while i >= 0
      invariant -1 <= i < |messages|
      invariant forall j :: i < j < |messages| ==> messages[j].role != Spaces.User
    {
      if messages[i].role == Spaces.User {
        return i;
      }
      i := i - 1;
    }
    return -1;
  }

  predicate EarlierOrSame(a: Spaces.ChatMessage, b: Spaces.ChatMessage)
  {
    a.timestamp <= b.timestamp
  }

  lemma TimeOrderIsTotal()
    ensures Seqs.Total(EarlierOrSame) && Seqs.Transitive(EarlierOrSame)
  {
  }

  /** `[...messages].sort((a, b) => a.timestamp - b.timestamp)`. */
  function ByTimestamp(messages: seq<Spaces.ChatMessage>): (r: seq<Spaces.ChatMessage>)
    ensures multiset(r) == multiset(messages)
    ensures forall i, j :: 0 <= i < j < |r| ==> r[i].timestamp <= r[j].timestamp
  {
    TimeOrderIsTotal();
    var r := Seqs.Sort(EarlierOrSame, messages);
    forall i, j | 0 <= i < j < |r|
      ensures r[i].timestamp <= r[j].timestamp
    {
      Seqs.SortedPairwise(EarlierOrSame, r, i, j);
    }
    r
  }

  const DateTimeQuestion := "What's the current date and time?"

  /** The chat page: the chat hook's message list and status, with the
      spaces store it writes through. */
  class ChatPage {
    const store: Spaces.SpacesProvider
    /** The chat hook's `messages`. */
    var messages: seq<Spaces.ChatMessage>
    var status: ChatMessages.Status
    /** `lastSubmittedQueryRef`. */
    var lastSubmittedQuery: string
    /** The (question, answer) pairs sent to `suggestQuestions`. */
    var suggestionRequests: seq<(string, string)>
    /** `initializedRef`. */
    var initialized: bool

    constructor(s: Spaces.SpacesProvider)
      ensures store == s && messages == [] && status == ChatMessages.Ready && lastSubmittedQuery == ""
      ensures suggestionRequests == [] && !initialized
    {
      store := s;
      messages := [];
      status := ChatMessages.Ready;
      lastSubmittedQuery := "";
      suggestionRequests := [];
      initialized := false;
    }

    /** `appendWithPersist`: a user message is first stored in the current
        space (with `storedId` and `now`), then appended to the chat (with
        `chatId` and `now`); other roles are only appended. */
    method AppendWithPersist(role: Spaces.Role, content: string, storedId: string, chatId: string, now: int)
      modifies store, this`messages
      ensures messages == old(messages) + [Spaces.ChatMessage(chatId, role, content, now)]
      ensures store.currentSpaceId == old(store.currentSpaceId) && |store.spaces| == |old(store.spaces)|
      ensures forall i :: 0 <= i < |store.spaces| ==>
                store.spaces[i] == if role == Spaces.User && old(store.spaces)[i].id == store.currentSpaceId
                                   then Spaces.WithMessage(old(store.spaces)[i], role, content, storedId, now)
                                   else old(store.spaces)[i]
    {
      if role == Spaces.User {
        store.AddMessage(role, content, storedId, now);
      }
      messages := messages + [Spaces.ChatMessage(chatId, role, content, now)];
    }

    /** `onFinish`: the answer is stored in the current space and sent with
        the last question for follow-up suggestions only when it has
        content and finished with `stop` or `length`. */
    method OnFinish(content: string, reason: FinishReason, storedId: string, now: int)
      modifies store, this`suggestionRequests
      ensures !StoresAnswer(content, reason) ==>
                store.spaces == old(store.spaces) && suggestionRequests == old(suggestionRequests)
      ensures StoresAnswer(content, reason) ==>
                suggestionRequests == old(suggestionRequests) + [(lastSubmittedQuery, content)]
                && |store.spaces| == |old(store.spaces)|
                && forall i :: 0 <= i < |store.spaces| ==>
                     store.spaces[i] == if old(store.spaces)[i].id == store.currentSpaceId
                                        then Spaces.WithMessage(old(store.spaces)[i], Spaces.Assistant, content, storedId, now)
                                        else old(store.spaces)[i]
      ensures store.currentSpaceId == old(store.currentSpaceId)
    {
      if StoresAnswer(content, reason) {
        store.AddMessage(Spaces.Assistant, content, storedId, now);
        suggestionRequests := suggestionRequests + [(lastSubmittedQuery, content)];
      }
    }

    /** The effect on `currentSpaceId`: the chat shows the current space's
        stored messages in time order; without a current space the chat is
        left as it is. */
    method SyncOnSpaceSwitch()
      modifies this`messages
      ensures store.CurrentSpace().None? ==> messages == old(messages)
      ensures store.CurrentSpace().Some? ==>
                multiset(messages) == multiset(store.CurrentSpace().value.messages)
                && forall i, j :: 0 <= i < j < |messages| ==> messages[i].timestamp <= messages[j].timestamp
    {
      var current := store.CurrentSpace();
      if current.Some? {
        messages := ByTimestamp(current.value.messages);
      }
    }

    /** The initial-query effect: the page's `query` is sent once, as a
        user message, when the chat is still empty. */
    method SendInitialQuery(query: string, storedId: string, chatId: string, now: int)
      modifies store, this`messages, this`initialized
      ensures old(initialized) || query == "" || old(messages) != [] ==>
                messages == old(messages) && initialized == old(initialized) && store.spaces == old(store.spaces)
      ensures !old(initialized) && query != "" && old(messages) == [] ==>
                initialized && messages == [Spaces.ChatMessage(chatId, Spaces.User, query, now)]
      ensures store.currentSpaceId == old(store.currentSpaceId)
    {
      if !initialized && query != "" && |messages| == 0 {
        initialized := true;
        AppendWithPersist(Spaces.User, query, storedId, chatId, now);
      }
    }

    /** The date and time widget: only when the chat is `ready`, it asks
        for the current date and time and remembers that question. */
    method DateTimeClick(storedId: string, chatId: string, now: int)
      modifies store, this`messages, this`lastSubmittedQuery
      ensures old(status) != ChatMessages.Ready ==>
                messages == old(messages) && lastSubmittedQuery == old(lastSubmittedQuery)
                && store.spaces == old(store.spaces)
      ensures old(status) == ChatMessages.Ready ==>
                messages == old(messages) + [Spaces.ChatMessage(chatId, Spaces.User, DateTimeQuestion, now)]
                && lastSubmittedQuery == DateTimeQuestion
      ensures store.currentSpaceId == old(store.currentSpaceId)
    {
      if status != ChatMessages.Ready {
        return;
      }
      AppendWithPersist(Spaces.User, DateTimeQuestion, storedId, chatId, now);
      lastSubmittedQuery := DateTimeQuestion;
    }
  }
}
