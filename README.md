# openbook in Dafny

A verified model of the core of openbook, a Next.js note-taking and AI-chat
application: its client-side stores, its request guards, its small
persistent state machines, the bookkeeping of its research search, and its
terminal-style command inputs and chat helpers. Each source file of the core
has one Dafny module (two copies of the same code share one module). Code
that updates React state or a mutable map step by step is a `class` whose
fields are that state, with methods that say the whole new state in their
`ensures`. Code made of expressions is a set of functions with lemmas about
them.

The modules, by part of the application:

- **Stores.** `Spaces` (contexts/SpacesContext.tsx) holds the chat spaces and
  the current one. `Notebooks` (contexts/NotebookContext.tsx) holds the
  notebooks. `Journal` (hooks/useJournal.ts) holds the journal entries under
  the free-plan limit of three entries per notebook. `Editor`
  (components/features/journal/editor/editor.tsx) is the journal's block
  editor. The record types are in `Types` (lib/types.ts).
- **Sidebar.** `Sidebar` (components/sidebar.tsx) parses the open page from
  the pathname and runs the search. `SidebarNotebook`
  (components/SidebarNotebook.tsx) lists a notebook's entries and spaces in
  display order and handles the rename fields.
- **Request guards.**
  - `RateLimit` (middleware.ts) is the fixed-window rate limiter of 60
    requests per minute per client address.
  - `Proxy` covers app/api/media/proxy/route.ts and its copy
    app/api/media/proxy/proxy-image/route.ts. It models the host filter
    (loopback names, the private blocks of section 3 of RFC 1918,
    link-local and loopback ranges, DNS answers, the allow-list), the GET
    decision order, the 5 MiB streaming limit and HEAD.
  - `Auth` (lib/auth.ts) reads bearer tokens in the header form of section
    2.1 of RFC 6750.
  - `Upload` covers app/api/media/upload/route.ts and its copy
    app/api/upload/route.ts. `UploadZone` is
    components/features/journal/editor/file-upload-zone.tsx.
- **Persistent state.** `WebStorage` is the browser's localStorage, a
  `map<string, string>` inside a class, together with `parseInt` and
  number-to-text conversion. On top of it:
  - `Streak` (hooks/useStreak.ts);
  - `StreakBadge` (components/features/spaces/Streak.tsx);
  - `StorageKeys` (lib/storageKeys.ts);
  - `Ids` (lib/utils.ts).
- **Research search.**
  - `ResearchPlan` expands a plan into steps.
  - `ResearchRun` runs the search and analysis loops of
    app/api/lib/ai/tools/reason-search-advanced.ts.
  - `RouteSearch` is the academic tool and the reasoned search with its
    follow-up queries in app/api/search/route.ts.
  - `Exa`, `Tavily` and `AcademicSearch` clean and deduplicate search
    results.
  - `Providers` (app/api/lib/ai/providers.ts) holds the per-model settings.
- **Command inputs and pickers.** `CommandLine` holds the rules the
  terminal-style inputs share: suggestions, the de-duplicated history, the
  history walk, Tab completion and first-word dispatch. The inputs built on
  it are:
  - `StudyTerminal` (components/terminal/terminal-input.tsx);
  - `TerminalChatInput` (terminal-chat/components/terminal-input.tsx);
  - `TerminalChat` (backup/terminal-chat-backup/components/terminal-chat.tsx);
  - `SpacesChatInput` (components/features/spaces/input/input-content-box.tsx).

  `Pickers` covers the command panel, the history panel and the two search
  selectors, with JavaScript's `%` (NaN for an empty list). `FrameworkPickers`
  covers the two study-framework pickers.
- **Chat helpers.**
  - `Markdown` is `preprocessLaTeX` of
    components/features/spaces/chat/markdown.tsx. `MarkdownRoundTrip`
    proves the whole preprocessing with its restores in reverse order, and
    the as-written order's leak of a block nested in an inline span.
    `PreprocessLaTeX` (as written) and `PreprocessLaTeXInOrder` (restores
    reversed) only compute. What they do is stated by
    `Markdown.LeftAloneWithoutMarkup`, `Markdown.EscapeInBlockLeaks`,
    `MarkdownRoundTrip.NestedBlockLeaks` and
    `MarkdownRoundTrip.InOrderRoundTrip`.
  - `ChatMessages` (components/features/spaces/chat/messages.tsx) covers
    the display filter, reasoning completeness, retry and regenerate, the
    loading text and progress.
  - `ChatClient` (app/ChatClient.tsx) covers persistence before append, the
    space switch and the last user message.
  - `AddToJournal` covers both add-to-journal buttons.
  - `MessageTyping` (components/message-typing.tsx) is the typewriter
    effect.
- **Shared helpers.** `Strings`, `Seqs`, `Opt` and `Arith` give the
  JavaScript string and array methods the application relies on. A Dafny
  `string` is a sequence of Unicode characters, so their lengths and indices
  count characters (code points), not the UTF-16 code units JavaScript
  counts. The two agree on text inside the Basic Multilingual Plane.
  `MessageTyping`, where a length drives the behaviour, works on UTF-16 code
  units instead.

The model has no access to clocks, random numbers, ids, DNS answers, search
clients or language-model outputs. Each of these is a parameter of the
operation that uses it. Timers are explicit calls. Integers are unbounded.

## Model

| member | source | states |
|---|---|---|
| AcademicSearch.ToolRequest | app/api/lib/ai/tools/academic-search.ts:30-33 | the tool asks the academic search for twenty research papers with summaries |
| AcademicSearch.Execute | app/api/lib/ai/tools/academic-search.ts:15-56 | without a key: no results and the "unavailable" error; a thrown error becomes an error result with "Academic search failed: " and the message (or "Unknown error"); otherwise the papers with a summary, with the total and filtered counts; the query is always echoed |
| AcademicSearch.ExecuteCounts | app/api/lib/ai/tools/academic-search.ts:36-54 | counts are present together and filtered ≤ total; every returned paper has a summary; an error result carries no papers; no error exactly when a key exists and the search returned |
| AcademicSearch.ErrorIdentifiesCause | app/api/lib/ai/tools/academic-search.ts:22-52 | the result carries the missing-key message exactly when no key is configured, and an error starting "Academic search failed: " exactly when the configured service threw |
| AcademicSearch.UnsummarisedDropped | app/api/lib/ai/tools/academic-search.ts:36-44 | a paper returned without a summary is counted in the total but not returned |
| AddToJournal.ConversationBlocks | components/features/spaces/add-to-journal-button.tsx:37-56 | the strip is exactly three unfocused blocks: a quote "**Question:** " + question, a text block with the answer, an empty divider, carrying the three given ids |
| AddToJournal.LegacyIds | components/spaces/add-to-journal-button.tsx:31-50 | the older button's ids are the decimal texts of three clock readings t0, t1 + 1 and t2 + 2; two of them agree exactly when their numbers do, so readings that never go backwards give three distinct ids |
| AddToJournal.UntitledIsKept | components/features/spaces/add-to-journal-button.tsx:74-76 | the title "Untitled" survives the store's trim-or-default rule unchanged |
| AddToJournal.TodayEntryIndex | components/features/spaces/add-to-journal-button.tsx:59-60 | `entries.find` by calendar day: the index of the FIRST entry created today, or -1 exactly when no entry was created today |
| AddToJournal.AddToJournalButton.constructor | components/features/spaces/add-to-journal-button.tsx:27-28 | the button starts neither adding nor added, with no navigation |
| AddToJournal.AddToJournalButton.ResetAdded | components/features/spaces/add-to-journal-button.tsx:92 | when the 2-second timer fires, the "added" mark is cleared |
| AddToJournal.AddToJournalButton.AddStrip | components/features/spaces/add-to-journal-button.tsx:58-97 | today's entry gets its blocks followed by the strip, or a new entry is created and gets the strip; every other entry is unchanged; the router goes to "/journal/" + that entry's id; the button ends added and not adding |
| AddToJournal.AddToJournalButton.HandleAddToJournal | components/features/spaces/add-to-journal-button.tsx:32-98 | the current button: the strip from generated ids is appended to today's entry, or to a new entry titled "Untitled"; the new entry is stamped with createEntry's clock reading and the blocks with updateEntry's |
| AddToJournal.AddToJournalButton.HandleAddToJournalLegacy | components/spaces/add-to-journal-button.tsx:26-84 | the older button: the strip with ids from three separate clock readings is appended to today's entry, or to a new entry titled "Journal - " + the local date; createEntry and updateEntry stamp with readings of their own |
| Auth.Token | lib/auth.ts:8-14 | a token exists exactly when the header is present and starts with "Bearer ", and the header is then "Bearer " followed by the token |
| Auth.UserId | lib/auth.ts:25-36 | no user id exactly when the bearer header is missing; otherwise a prefix of the token of length min(8, token length) |
| Auth.AuthenticatedIff | lib/auth.ts:7-19 | a request is authenticated exactly when its header is "Bearer " followed by a non-empty token, and exactly when its user id is non-empty |
| Auth.TokenAccepted | lib/auth.ts:14-18 | the token is never validated: "Bearer " followed by any non-empty token is accepted |
| Auth.SameUserIdFromPrefix | lib/auth.ts:33-35 | tokens of at least eight characters that agree on their first eight give the same user id, namely those eight characters |
| ChatClient.LastUserMessageIndex | app/ChatClient.tsx:206-213 | the backward scan returns the largest index holding a user message, or -1 when no message is from the user |
| ChatClient.ByTimestamp | app/ChatClient.tsx:166 | sorting by timestamp yields a permutation of the stored messages in non-decreasing time order |
| Seqs.SortStable | app/ChatClient.tsx:166 | the sort is stable: elements the comparator ties (such as messages with equal timestamps) come out in their input order |
| ChatClient.ChatPage.constructor | app/ChatClient.tsx:137-148 | the chat starts empty and ready, with no submitted query and no suggestion request |
| ChatClient.ChatPage.AppendWithPersist | app/ChatClient.tsx:151-160 | a user message is first added to the current space, then every message is appended to the chat; other spaces and the current space id are unchanged |
| ChatClient.ChatPage.OnFinish | app/ChatClient.tsx:117-128 | an answer with content that ended with "stop" or "length" is stored in the current space and sent with the last question for suggestions; any other finish changes nothing |
| ChatClient.ChatPage.SyncOnSpaceSwitch | app/ChatClient.tsx:163-171 | on a space switch the chat becomes the current space's messages in time order; without a current space the chat is kept |
| ChatClient.ChatPage.SendInitialQuery | app/ChatClient.tsx:173-182 | the page's query is sent exactly once, as a user message, and only when the chat is empty |
| ChatClient.ChatPage.DateTimeClick | app/ChatClient.tsx:372-382 | only when the chat is ready, the date-and-time question is appended and remembered as the last query; otherwise nothing changes |
| SpacesChatInput.FrameworkCommandIsHead | components/features/spaces/input/input-content-box.tsx:44-46 | a framework whose value is a plain lower-case head, a '-' and a rest gets the command '/' + head |
| SpacesChatInput.ExtremeHeadPlain | components/features/spaces/input/input-content-box.tsx:46 | the head "extreme" holds no '-' and no capital letter |
| SpacesChatInput.ExtremeCommandIsExtreme | components/features/spaces/input/input-content-box.tsx:44-46 | the command derived from the Extreme framework is exactly "/extreme" |
| SpacesChatInput.Commands | components/features/spaces/input/input-content-box.tsx:104-108 | the command list always begins with the three base commands |
| SpacesChatInput.CompactOfferedIff | components/features/spaces/input/input-content-box.tsx:104-108 | "/compact" is offered exactly when a current space and the compact callback are both given |
| SpacesChatInput.Suggestions | components/features/spaces/input/input-content-box.tsx:250-253 | a command is suggested exactly when it is in the list and its id starts with the lower-cased text |
| SpacesChatInput.SuggestionsIgnoreCase | components/features/spaces/input/input-content-box.tsx:252 | the suggestions for a text and for its lower-cased form are the same |
| SpacesChatInput.MenuFor | components/features/spaces/input/input-content-box.tsx:115-119 | the model, frameworks and compact menus open exactly for the texts "/model", "/frameworks" and "/compact", and no menu opens for anything else |
| SpacesChatInput.WithoutIndex | components/features/spaces/input/input-content-box.tsx:219-221 | removing an attachment drops exactly the one at that index; an out-of-range index leaves the list unchanged |
| SpacesChatInput.GroupFor | components/features/spaces/input/input-content-box.tsx:189-197 | choosing a framework selects the Extreme group exactly for Extreme mode, and the chat group otherwise |
| SpacesChatInput.ChatInput.constructor | components/features/spaces/input/input-content-box.tsx:98-120 | the component mounts on the parent's text, and its effect sets the suggestion flag and the menu from that text |
| SpacesChatInput.ChatInput.Settle | components/features/spaces/input/input-content-box.tsx:111-120 | when the text changed, the suggestion flag becomes "starts with '/' and has no space", and the menu becomes the one for that text |
| SpacesChatInput.ChatInput.Change | components/features/spaces/input/input-content-box.tsx:111-120 | the parent's onChange sets the text and the effect then follows it |
| SpacesChatInput.ChatInput.HandleCommand | components/features/spaces/input/input-content-box.tsx:144-169 | "/extreme" selects the Extreme group, requests the Extreme framework when a callback exists, and clears the input; "/model", "/frameworks" and an available "/compact" leave the input to their menu; anything else clears the input and closes the menu |
| SpacesChatInput.ChatInput.HandleSubmit | components/features/spaces/input/input-content-box.tsx:133-142 | a blank text without attachments does nothing; a '/' text is handled as its lower-cased command and never submitted; any other text is submitted unchanged |
| SpacesChatInput.ChatInput.CloseMenu | components/features/spaces/input/input-content-box.tsx:177-181 | the menu closes and the input empties |
| SpacesChatInput.ChatInput.HandleKeyDown | components/features/spaces/input/input-content-box.tsx:122-131 | Enter without Shift submits; Escape with an open menu closes it and clears the input; every other key changes nothing |
| SpacesChatInput.ChatInput.SelectSuggestion | components/features/spaces/input/input-content-box.tsx:171-175 | the chosen command fills the input and the list is hidden, unless the effect shows it again for a changed text |
| SpacesChatInput.ChatInput.HandleModelSelect | components/features/spaces/input/input-content-box.tsx:183-187 | the chosen model is passed on, and the menu closes with the input cleared |
| SpacesChatInput.ChatInput.HandleFrameworkSelect | components/features/spaces/input/input-content-box.tsx:189-200 | the group follows the framework, the framework is passed on when a callback exists, and the menu closes |
| SpacesChatInput.ChatInput.HandleCompactChat | components/features/spaces/input/input-content-box.tsx:202-217 | the current space is compacted only when compacting is available; the menu closes either way |
| SpacesChatInput.ChatInput.RemoveAttachment | components/features/spaces/input/input-content-box.tsx:219-221 | the attachment at that index is removed and the others keep their order |
| ChatMessages.DisplayedMessages | components/features/spaces/chat/messages.tsx:190-211 | the list shows exactly the messages its filter keeps, in their order |
| ChatMessages.DisplayKeepsUserAndAssistant | components/features/spaces/chat/messages.tsx:190-211 | the assistant branch of the filter keeps every assistant message, so the list shows exactly the user and assistant messages and drops every other role |
| ChatMessages.EffectCompleteImpliesRenderComplete | components/features/spaces/chat/messages.tsx:434 | whenever the timing effect counts a reasoning part as complete (the next part is text), the render does too (some later part is text or a tool call) |
| ChatMessages.ToolAfterReasoningDisagrees | components/features/spaces/chat/messages.tsx:323-325 | a reasoning part followed directly by a tool call is complete for the render but not for the timing effect |
| ChatMessages.ExpandedByDefault | components/features/spaces/chat/messages.tsx:346 | a reasoning section nobody has toggled is open exactly while its reasoning is incomplete; a toggled one keeps its toggle |
| ChatMessages.TextPartShown | components/features/spaces/chat/messages.tsx:253-266 | a text part is rendered exactly when it is not blank and is not the first part of a message holding a tool invocation |
| ChatMessages.LaterTextShownUnlessBlank | components/features/spaces/chat/messages.tsx:253-266 | a text part after the first is hidden only when it is blank |
| ChatMessages.Retry | components/features/spaces/chat/messages.tsx:478-496 | retry does nothing without a user message; otherwise it drops the last message only when that one is the assistant's |
| ChatMessages.Regenerate | components/features/spaces/chat/messages.tsx:297-308 | regenerate does nothing without a user message; otherwise it drops the last message whatever its role |
| ChatMessages.RetryKeepsUserMessages | components/features/spaces/chat/messages.tsx:478-496 | after a retry every user message is still present, so there is a question to resubmit |
| ChatMessages.RegenerateDropsTrailingQuestion | components/features/spaces/chat/messages.tsx:297-308 | when the last message is the user's question, regenerate removes it while retry keeps the list |
| ChatMessages.LoadingStage | components/features/spaces/chat/messages.tsx:499-505 | the first caption is shown exactly up to 3 s of thinking and the last exactly after 25 s, with five captions in all |
| ChatMessages.LoadingStageMonotone | components/features/spaces/chat/messages.tsx:499-505 | the caption never steps back while the thinking time grows |
| ChatMessages.ThinkingSeconds | components/features/spaces/chat/messages.tsx:112 | the thinking time is the whole number of seconds elapsed, rounded down |
| ChatMessages.StreamingProgress | components/features/spaces/chat/messages.tsx:140-143 | progress is at most 95, never negative, and reaches 95 from 14.25 s of streaming on |
| ChatMessages.StreamingProgressMonotone | components/features/spaces/chat/messages.tsx:140-143 | progress never decreases while the stream runs |
| ChatMessages.StreamProgress.constructor | components/features/spaces/chat/messages.tsx:85-86 | the bar starts at 0 with no start time |
| ChatMessages.StreamProgress.OnStatus | components/features/spaces/chat/messages.tsx:128-159 | streaming starts the timer once at 5 %; a later streaming status keeps the bar; ready fills it to 100; other statuses change nothing |
| ChatMessages.StreamProgress.Interval | components/features/spaces/chat/messages.tsx:138-145 | each tick sets the bar to the capped progress of the time since the stream started, and does nothing before it started |
| ChatMessages.StreamProgress.ResetAfterAnimation | components/features/spaces/chat/messages.tsx:150-153 | one second after completion the bar returns to 0 and the start time is forgotten |
| CommandLine.Record | components/terminal/terminal-input.tsx:149-152 | submitting appends the text to the history unless it repeats the newest entry: the history grows by at most one, keeps its old entries as a prefix, and ends with the text |
| CommandLine.RecordNoRepeats | components/terminal/terminal-input.tsx:149-152 | recording never puts the same text twice in a row |
| CommandLine.RecordNonBlank | components/terminal/terminal-input.tsx:147-152 | recording a non-blank submission keeps every history entry non-blank |
| CommandLine.PressUpAsWritten | components/terminal/terminal-input.tsx:109-114 | ArrowUp as written acts only on an empty input and a non-empty history, and keeps the index within the history |
| CommandLine.PressUp | components/terminal/terminal-input.tsx:109-114 | ArrowUp as intended also acts while already walking the history, and keeps the index within the history |
| CommandLine.PressDown | components/terminal/terminal-input.tsx:116-125 | ArrowDown acts only while walking the history: the index drops by one and the input shows that entry, or the empty live input at -1 |
| CommandLine.DownUndoesUp | components/terminal/terminal-input.tsx:109-125 | an ArrowDown undoes an ArrowUp that moved |
| CommandLine.UpTimes | components/terminal/terminal-input.tsx:109-114 | any number of ArrowUp presses keeps the index within the history |
| CommandLine.UpTimesAsWritten | components/terminal/terminal-input.tsx:109-114 | any number of ArrowUp presses as written keeps the index within the history |
| CommandLine.UpWalksBack | components/terminal/terminal-input.tsx:109-114 | from the empty live input, k presses of ArrowUp show the entry min(k-1, n-1) places back from the newest: the history is walked newest first and the walk stops at the oldest entry |
| CommandLine.EveryEntryRecalled | components/terminal/terminal-input.tsx:109-114 | every history entry can be brought back with ArrowUp |
| CommandLine.UpAsWrittenStuck | components/terminal/terminal-input.tsx:109-114 | as written, the first ArrowUp shows the newest entry and every further press is ignored, because the input is no longer empty |
| CommandLine.UpAsWrittenMissesOlder | components/terminal/terminal-input.tsx:109-114 | as written, the entry before the newest is never recalled, while two presses as intended recall it |
| CommandLine.Matching | components/terminal/terminal-input.tsx:130 | a command name matches exactly when it starts with the typed text |
| CommandLine.CompleteIsUniqueMatch | components/terminal/terminal-input.tsx:128-134 | Tab changes the text exactly when one command matches, and then to that command followed by a space, after which the suggestions hide |
| CommandLine.CommandWord | components/terminal/terminal-input.tsx:166 | the dispatched command word never contains a space |
| CommandLine.CommandWordBeforeSpace | components/terminal/terminal-input.tsx:166 | the command word is the lower-cased text before the first space |
| Strings.Lower | contexts/SpacesContext.tsx:359 | lower-casing keeps the length, maps each character on its own and leaves no ASCII capital |
| Strings.Trim | components/terminal/terminal-input.tsx:147 | the trimmed text neither starts nor ends with white space and is no longer than the input |
| Strings.TrimIsInnerPiece | components/terminal/terminal-input.tsx:147 | the trimmed text is the piece of the input left once the white space around it is cut off |
| Strings.TrimEmptyIff | components/terminal/terminal-input.tsx:147 | a text is blank exactly when it is all white space |
| Strings.Split | backup/terminal-chat-backup/components/terminal-chat.tsx:132 | splitting yields at least one piece |
| Strings.SplitPartsLackSep | backup/terminal-chat-backup/components/terminal-chat.tsx:132 | no piece of a split contains the separator |
| Strings.JoinSplit | backup/terminal-chat-backup/components/terminal-chat.tsx:132 | joining the pieces of a split with the same separator gives back the text |
| Exa.OrElse | app/api/lib/services/exa.ts:112-120 | `value \|\| fallback`: a present non-empty string is kept, and a missing or empty one gives the fallback |
| Exa.StatusLinkTweetId | app/api/lib/services/exa.ts:92-95 | a canonical post link "https://" + (twitter.com/ or x.com/) + user + "/status/" + digits yields exactly those digits as the post id |
| Exa.TweetIdIsNumeric | app/api/lib/services/exa.ts:92-95 | whatever the url, an extracted post id is a non-empty run of digits |
| Exa.ExtractTweetIdNone | app/api/lib/services/exa.ts:92-95 | `match` finds nothing only when the pattern matches at no position of the url |
| Exa.ExtractTweetIdLeftmost | app/api/lib/services/exa.ts:92-95 | a found id is the capture of the leftmost position where the pattern matches |
| Exa.StripSummaryLabel | app/api/lib/services/exa.ts:106 | text without a leading "Summary:" (any letter case) is unchanged; otherwise the label and the white space after it are cut off, leaving a suffix that starts with no white space |
| Exa.SummaryLabelRemoved | app/api/lib/services/exa.ts:106 | "Summary:" in any case, then white space, then the text gives back exactly the text |
| Exa.FirstBracketSuffix | app/api/lib/services/exa.ts:109 | the leftmost position where white space, '[' and a line ending in ']' match, or none when the pattern matches nowhere |
| Exa.StripBracketSuffix | app/api/lib/services/exa.ts:109 | the cleaned title is a prefix of the title, and differs from it exactly when the bracket-suffix pattern matches |
| Exa.BracketTagRemoved | app/api/lib/services/exa.ts:109 | a title followed by white space and a bracketed tag loses exactly the tag |
| Exa.CleanPaper | app/api/lib/services/exa.ts:111-126 | a cleaned paper keeps the url, or '' when it has none |
| Exa.CleanPaperFields | app/api/lib/services/exa.ts:105-126 | a cleaned paper keeps its author, always has a summary (empty when the paper had none), and its title is a prefix of the original, or '' when missing |
| Exa.FirstPerUrlUrls | app/api/lib/services/exa.ts:100-130 | the first-paper-per-url reference keeps exactly the set of cleaned urls of the input |
| Exa.TakenIffNotFirst | app/api/lib/services/exa.ts:103 | the reduce's `acc.some(p => p.url === paper.url)` holds exactly when an earlier paper has this url |
| Exa.ProcessAcademicResults | app/api/lib/services/exa.ts:100-130 | processAcademicResults keeps, in input order, the cleaned first paper for each url and drops the later ones |
| Exa.AcademicUrlsUnique | app/api/lib/services/exa.ts:100-130 | when every paper has a url, every input url survives and no url appears twice in the output |
| Exa.SummaryNotRequired | app/api/lib/services/exa.ts:102-106 | a paper without a summary is kept, with an empty summary: the "no summary" skip the comment mentions is not done here |
| Exa.ProcessSocialResults | app/api/lib/services/exa.ts:135-163 | the call fails (the TypeError of matching an absent url) exactly when some result has no url; otherwise it returns at most as many results as it got |
| Exa.SocialResultsAreTweets | app/api/lib/services/exa.ts:135-163 | exactly the results whose url holds a post id are kept, each with the numeric id of its own url, a non-empty id and a non-empty title |
| Exa.StatusLinkKept | app/api/lib/services/exa.ts:135-163 | a result linking a post by its canonical status url is kept, with that post's id, and the post id as its id when it had none |
| Exa.ProcessGeneralResults | app/api/lib/services/exa.ts:168-185 | general results map one to one and in order: present fields keep their values and the summary is copied as it is |
| Exa.AcademicRequest | app/api/lib/services/exa.ts:18-35 | academic search asks for research papers with type auto, 20 results and a summary guided by "Abstract of the Paper" unless the caller says otherwise |
| Exa.SocialRequest | app/api/lib/services/exa.ts:43-56 | social search is neural with autoprompt, text and highlights, restricted to twitter.com and x.com, with five results by default |
| Exa.GeneralRequest | app/api/lib/services/exa.ts:64-84 | general search uses `\|\|` defaults (type auto, 10 results) and sends category, domains, text, highlights and summary only when they are truthy |
| Exa.ZeroCountDefaults | app/api/lib/services/exa.ts:22-78 | destructuring defaults and `\|\|` defaults differ on zero: academic search asks for zero results, general search for ten |
| FrameworkPickers.FrameworksListsEach | components/features/study/study-framework-picker.tsx:19-27 | the pickers offer every study framework exactly once |
| FrameworkPickers.CalculateNewIndex | components/features/study/study-framework-picker.tsx:30-42 | a step back or on from a valid row lands on a valid row, wrapping at both ends |
| FrameworkPickers.PrevUndoesNext | components/features/study/study-framework-picker.tsx:30-42 | a step back undoes a step on, and the other way round |
| FrameworkPickers.AgreesWithRemainderSteps | components/features/study/study-framework-picker.tsx:30-42 | on these four rows the explicit wrap agrees with the remainder steps `(i + 1) % n` and `(i - 1 + n) % n` of the terminal pickers |
| FrameworkPickers.DigitChoice | components/features/study/study-framework-picker.tsx:48-58 | a digit key picks a framework exactly for '1' to '4', and then the card shown with that number |
| FrameworkPickers.DigitsReachEachFramework | components/features/study/study-framework-picker.tsx:48-58 | every framework has its own digit key |
| FrameworkPickers.FrameworkPicker.constructor | components/features/study/study-framework-picker.tsx:15-16 | a picker opens with the first card highlighted and none hovered |
| FrameworkPickers.FrameworkPicker.Move | components/features/study/study-framework-picker.tsx:59-74 | the highlight moves with wrap-around; in the study picker the hover follows it, in the selector the hover is untouched |
| FrameworkPickers.FrameworkPicker.HandleKey | components/features/study/study-framework-picker.tsx:45-86 | digits 1-4 select their card, Up/Left and Down/Right move the highlight with wrap-around, Enter selects the highlighted card, Escape closes once; no key does more than its own part |
| FrameworkPickers.FrameworkPicker.Click | components/features/study/framework-selector.tsx:94 | a click on a card selects its framework |
| FrameworkPickers.FrameworkPicker.MouseEnter | components/features/study/framework-selector.tsx:95 | the mouse entering a card hovers it |
| FrameworkPickers.FrameworkPicker.MouseLeave | components/features/study/framework-selector.tsx:96 | the mouse leaving a card clears the hover |
| Editor.IndexOfBlock | components/features/journal/editor/editor.tsx:116-117 | `findIndex` by id: the first block with that id, or -1 exactly when no block has it |
| Editor.ShortcutType | components/features/journal/editor/editor.tsx:183-222 | a space typed into a block retypes it exactly when its whole content is one of the nine markdown shortcuts; "#" gives a heading 1 and three backquotes a code block |
| Editor.Retyped | components/features/journal/editor/editor.tsx:183-222 | the blocks with that id get the new type (and, for a shortcut, empty content) and keep id and focus; every other block is unchanged |
| Editor.SplitAfter | components/features/journal/editor/editor.tsx:131-143 | Enter unfocuses the block and inserts a new empty, focused text block directly after it; the blocks before and after keep their places |
| Editor.RemoveAndFocusPrevious | components/features/journal/editor/editor.tsx:144-151 | Backspace on an empty block removes it and focuses the block before it (the first block when it was first); nothing else changes |
| Editor.UnfocusAll | components/features/journal/editor/editor.tsx:162 | the loop clears the focus of every block and changes nothing else |
| Editor.FocusOnly | components/features/journal/editor/editor.tsx:159-166 | after an arrow move exactly the target block is focused, with every other field kept |
| Editor.FocusId | components/features/journal/editor/editor.tsx:229-232 | exactly the blocks with that id are focused, and no other field changes |
| Editor.Kept | components/features/journal/editor/editor.tsx:235 | the filter keeps exactly the blocks whose id differs |
| Editor.DeleteBlock | components/features/journal/editor/editor.tsx:234-251 | the blocks with that id go; an emptied editor gets one new empty focused text block; otherwise the block that stood just before the deleted one (or the first block) is focused and nothing else changes |
| Editor.KeptBeforeFirst | components/features/journal/editor/editor.tsx:246-248 | the focus index chosen after a deletion is in range and names the block that stood before the deleted one |
| Editor.Duplicated | components/features/journal/editor/editor.tsx:253-271 | a focused copy with the new id goes directly after the original, and every other block loses focus |
| Editor.BlockEditor.constructor | components/features/journal/editor/editor.tsx:35-45 | without initial blocks the editor holds one empty focused text block; the current block is the first one ('' for an empty list); the slash menu is closed |
| Editor.BlockEditor.HandleKeyDown | components/features/journal/editor/editor.tsx:115-223 | an unknown block ignores keys; '/' opens the slash menu on the block; Escape closes an open menu; Enter splits; Backspace on an empty block (not the last one) removes it; ArrowUp at the start and ArrowDown at the end move focus to the neighbour; a space after a shortcut retypes the block and clears it; every other key (Shift+Enter, Backspace in a non-empty block, Escape with the menu closed) changes nothing, and only "/" and Escape touch the slash menu |
| Editor.BlockEditor.MoveFocus | components/features/journal/editor/editor.tsx:159-182 | focus moves to the target block alone, which becomes the current block |
| Editor.BlockEditor.HandleBlockChange | components/features/journal/editor/editor.tsx:225-227 | the blocks with that id get the new content and nothing else changes |
| Editor.BlockEditor.HandleBlockFocus | components/features/journal/editor/editor.tsx:229-232 | exactly the blocks with that id are focused, and that id becomes the current block |
| Editor.BlockEditor.HandleDeleteBlock | components/features/journal/editor/editor.tsx:234-251 | the blocks become the result of deleting that id |
| Editor.BlockEditor.HandleDuplicateBlock | components/features/journal/editor/editor.tsx:253-271 | an unknown id changes nothing; otherwise the block is duplicated after itself |
| Editor.BlockEditor.HandleCommandSelect | components/features/journal/editor/editor.tsx:273-276 | the slash menu closes and the current block takes the chosen type with its content kept |
| Journal.TitleOrDefault | hooks/useJournal.ts:72 | `title.trim() \|\| defaultTitle`: a blank title gives the default title, any other the trimmed title, which is never empty |
| Journal.EntriesIn | hooks/useJournal.ts:54 | the notebook's entries are exactly the entries carrying that notebook id |
| Journal.NoLimitWithoutNotebook | hooks/useJournal.ts:52-59 | an entry without a notebook (or with an empty notebook id), and any entry of a premium user, is never refused |
| Journal.EntryHitOf | hooks/useJournal.ts:130-147 | a matching entry's hit belongs to that entry |
| Journal.HitIsFirstMatch | hooks/useJournal.ts:132-146 | a hit quotes the first matching block when some block matches, and otherwise the title, which then matches |
| Journal.SearchEntries | hooks/useJournal.ts:121-149 | a blank query finds nothing; otherwise the result is exactly one hit per entry whose title or some block contains the lower-cased trimmed query, in list order: hit i belongs to the i-th such entry of `Seqs.Filter` |
| Journal.EntryHits | hooks/useJournal.ts:125-148 | for a normalised query: at most one hit per entry, every matching entry's hit is present, and every hit comes from a matching entry |
| Journal.EntryHitsInOrder | hooks/useJournal.ts:125-148 | the `filter` then `map`: hit i is the hit of the i-th matching entry of `Seqs.Filter`, one hit per matching entry, in list order, and no other |
| Journal.HitInTail | hooks/useJournal.ts:125-148 | a hit among the later entries is a hit among all of them |
| Journal.LowerKeepsBlank | hooks/useJournal.ts:122 | lower-casing keeps a text blank exactly when it was blank |
| Journal.SearchBlankQuery | hooks/useJournal.ts:122-123 | a blank query, in any letter case, finds nothing |
| Journal.Updated | hooks/useJournal.ts:94-101 | an updated entry keeps its id, creation time and notebook, takes the new title (trimmed, blank gives the default) and blocks when given, and is stamped with the update time |
| Journal.JournalStore.constructor | hooks/useJournal.ts:15-26 | the store starts with the loaded entries |
| Journal.JournalStore.CreateEntry | hooks/useJournal.ts:51-86 | a free user adding a fourth entry to a notebook is refused and nothing changes; otherwise a new empty entry, with the trimmed title or the default, goes first |
| Journal.JournalStore.UpdateEntry | hooks/useJournal.ts:88-107 | the entries with that id are updated and the others are unchanged, in place |
| Journal.JournalStore.DeleteEntry | hooks/useJournal.ts:109-115 | exactly the entries with that id are removed, the rest keep their order |
| Journal.JournalStore.GetEntry | hooks/useJournal.ts:117-119 | the first entry with that id, or none exactly when no entry has it |
| Markdown.ReplaceAllAbsent | components/features/spaces/chat/markdown.tsx:39-43 | a global literal replace changes nothing where the pattern does not occur |
| Markdown.ReplaceAllPrefixFree | components/features/spaces/chat/markdown.tsx:39-43 | a prefix without the pattern's first character is copied unchanged and the scan goes on after it |
| Markdown.ReplaceAllLacking | components/features/spaces/chat/markdown.tsx:39-43 | text without the pattern's first character is left unchanged |
| Markdown.ReplaceAllHead | components/features/spaces/chat/markdown.tsx:39-43 | a match at the start is replaced and the scan resumes after it |
| Markdown.ReplaceAllInverse | components/features/spaces/chat/markdown.tsx:39-71 | replacing a pattern by a placeholder and the placeholder by the pattern gives the text back when the placeholder's first character does not occur in it |
| Markdown.AbsentPrefix | components/features/spaces/chat/markdown.tsx:67-71 | a placeholder cannot occur where its "___" prefix does not |
| Markdown.HideEscapesNoop | components/features/spaces/chat/markdown.tsx:39-43 | text without \\[ \\] \\( \\) gets no escape placeholder |
| Markdown.ShowEscapesNoop | components/features/spaces/chat/markdown.tsx:67-71 | text without three underscores in a row is left alone by the escape restore |
| Markdown.EscapePassesInvert | components/features/spaces/chat/markdown.tsx:39-71 | on text without '_', each of the four escape passes is undone by its restore pass |
| Markdown.FirstDouble | components/features/spaces/chat/markdown.tsx:47 | the first index of "$$", or -1 when there is none |
| Markdown.BlockPieces | components/features/spaces/chat/markdown.tsx:47-54 | the block pass loses no character: its kept characters and blocks spell the text |
| Markdown.BlockSpansAreShortest | components/features/spaces/chat/markdown.tsx:47 | every block taken out is "$$", text without "$$", "$$": the lazy match ends at the first closing "$$" |
| Markdown.InlinePieces | components/features/spaces/chat/markdown.tsx:57-64 | the inline pass loses no character: its kept characters and spans spell the text |
| Markdown.InlineSpansAreShortest | components/features/spaces/chat/markdown.tsx:57 | every inline span taken out is '$', text without '$', '$' |
| Markdown.InlineSpanAtStart | components/features/spaces/chat/markdown.tsx:57-64 | a '$' that opens a span is followed by the span up to the next '$', after which the scan resumes |
| Markdown.SpansCons | components/features/spaces/chat/markdown.tsx:47-64 | the span property of a piece list follows from its first piece and the rest |
| Markdown.DigitRun | components/features/spaces/chat/markdown.tsx:74 | the greedy `\d+` run: a prefix made only of digits |
| Markdown.PlaceholderAt | components/features/spaces/chat/markdown.tsx:74-80 | a placeholder match starting at a position has a positive length within the text |
| Markdown.MatchAfterHead | components/features/spaces/chat/markdown.tsx:74-80 | a match is longer than the placeholder's head |
| Markdown.MatchNumber | components/features/spaces/chat/markdown.tsx:74-80 | a number match has a positive length within the text |
| Markdown.DigitRunStops | components/features/spaces/chat/markdown.tsx:74 | the digit run of digits followed by a non-digit is exactly those digits |
| Markdown.NumberFound | components/features/spaces/chat/markdown.tsx:74 | digits followed by "___" match, with the number the digits spell |
| Markdown.PlaceholderFound | components/features/spaces/chat/markdown.tsx:74-80 | the head, digits and "___" match, with the number the digits spell and the whole length |
| Markdown.RestoreKeep | components/features/spaces/chat/markdown.tsx:74-80 | a character other than '_' never starts a placeholder and is copied |
| Markdown.RestoreAtPlaceholder | components/features/spaces/chat/markdown.tsx:74-80 | the placeholder numbered n becomes the n-th span, or "undefined" when there is none, and the scan goes on after it |
| Markdown.RestoreAllAbsent | components/features/spaces/chat/markdown.tsx:74-80 | text holding no placeholder head of that kind is left unchanged |
| Markdown.KeepsLackFrom | components/features/spaces/chat/markdown.tsx:47-64 | the characters a pass leaves alone are characters of the text |
| Markdown.KeepsLackTail | components/features/spaces/chat/markdown.tsx:47-64 | the kept-character property holds for the rest of a piece list |
| Markdown.TableTail | components/features/spaces/chat/markdown.tsx:51-52 | a spans table holding a span first holds it at the next number |
| Markdown.RestoreRendered | components/features/spaces/chat/markdown.tsx:50-80 | restoring a rendered pass gives back the text it was cut from, provided no kept character is an underscore |
| Markdown.BlocksRoundTrip | components/features/spaces/chat/markdown.tsx:47-76 | on text without '_', the block pass and the block restore pass undo each other |
| Markdown.InlinesRoundTrip | components/features/spaces/chat/markdown.tsx:57-80 | on text without '_', the inline pass and the inline restore pass undo each other |
| Markdown.NoDollarBlocks | components/features/spaces/chat/markdown.tsx:47-54 | without '$' the block pass takes nothing out |
| Markdown.NoDollarInlines | components/features/spaces/chat/markdown.tsx:57-64 | without '$' the inline pass takes nothing out |
| Markdown.DigitsStayWhole | components/features/spaces/chat/markdown.tsx:57 | a run of digits keeps the currency look-ahead in its whole-number state |
| Markdown.WholeAmountIsCurrency | components/features/spaces/chat/markdown.tsx:57 | a '$' followed by a whole amount up to the end of the text is refused by the look-ahead |
| Markdown.CurrencyLacksDollar | components/features/spaces/chat/markdown.tsx:57 | the look-ahead refuses only a rest without '$' |
| Markdown.DollarAmountStaysText | components/features/spaces/chat/markdown.tsx:56-64 | a text ending in "$5" keeps its dollar sign as text |
| Markdown.InlineSpanTaken | components/features/spaces/chat/markdown.tsx:57-64 | '$', text without '$', '$' and anything after is taken as one inline span: the look-ahead cannot refuse a rest holding a '$' |
| Markdown.LeftAloneWithoutMarkup | components/features/spaces/chat/markdown.tsx:37-83 | text with no '$', no escaped delimiter and no "___" comes back unchanged, in either order of restoring |
| Markdown.LacksJoin | components/features/spaces/chat/markdown.tsx:37-83 | a concatenation of texts lacking a character lacks it |
| Markdown.HideOneEscape | components/features/spaces/chat/markdown.tsx:39-43 | a single "\\[" between text without backslashes becomes its placeholder |
| Markdown.WholeBlock | components/features/spaces/chat/markdown.tsx:47-54 | "$$", text without '$', "$$" is taken out as one block |
| Markdown.FirstBlockPlaceholder | components/features/spaces/chat/markdown.tsx:53 | the first block's placeholder is "___LATEX_BLOCK_0___" |
| Markdown.FirstBlockPlaceholderIsInert | components/features/spaces/chat/markdown.tsx:57-71 | the first block's placeholder is touched by neither the inline pass nor the escape restore |
| Markdown.EscapeInBlockLeaks | components/features/spaces/chat/markdown.tsx:67-80 | as written, "$$" a "\\[" b "$$" comes out with "___BLOCK_OPEN___" in place of "\\[", so the output differs from the input |
| Markdown.EscapedBlockStages | components/features/spaces/chat/markdown.tsx:39-64 | the passes on "$$" a "\\[" b "$$": one block holding the escape placeholder, rendered as the first block placeholder |
| Markdown.EscapeInBlockKept | components/features/spaces/chat/markdown.tsx:37-83 | restoring in reverse order of extraction gives "$$" a "\\[" b "$$" back unchanged |
| Markdown.ShowOneEscape | components/features/spaces/chat/markdown.tsx:67-71 | the escape restore turns the one "___BLOCK_OPEN___" back into "\\[" |
| MarkdownRoundTrip.NoTruncAt | components/features/spaces/chat/markdown.tsx:74-80 | characters left alone that begin a placeholder head but stop before its "X_" and kind letter cannot run on into a rendered placeholder, which begins with "___" |
| MarkdownRoundTrip.RestoreKeepGen | components/features/spaces/chat/markdown.tsx:74-80 | a character that does not begin a placeholder head is copied by the restore, and the scan moves on by one |
| MarkdownRoundTrip.RestoreRenderedMarked | components/features/spaces/chat/markdown.tsx:50-80 | restoring a rendered pass gives back the text it was cut from whenever that text holds no "X_" followed by the kind's first letter, even where kept characters are underscores |
| MarkdownRoundTrip.BlockPlaceholderUnmarked | components/features/spaces/chat/markdown.tsx:53 | a block placeholder holds no "X_I" |
| MarkdownRoundTrip.BlockRenderUnmarked | components/features/spaces/chat/markdown.tsx:50-54 | the block pass adds no "X_I" to a text that had none |
| MarkdownRoundTrip.SpansRoundTrip | components/features/spaces/chat/markdown.tsx:47-80 | on text with no "X_B" and no "X_I", the block pass, the inline pass, the inline restore and then the block restore give the text back |
| MarkdownRoundTrip.EscapeTables | components/features/spaces/chat/markdown.tsx:39-43 | the four escaped delimiters and their placeholders, numbered 0 to 3 in the order of the passes |
| MarkdownRoundTrip.PhShape | components/features/spaces/chat/markdown.tsx:39-43 | an escape placeholder is "___", letters, one '_', letters and "___", with no 'X' and no backslash |
| MarkdownRoundTrip.PhInner | components/features/spaces/chat/markdown.tsx:67-71 | past its first character, an escape placeholder holds "___" only at its end |
| MarkdownRoundTrip.PhDistinct | components/features/spaces/chat/markdown.tsx:67-71 | two different escape placeholders differ at a position inside both |
| MarkdownRoundTrip.EscAt | components/features/spaces/chat/markdown.tsx:39-43 | the escaped delimiter a text starts with, if any, read from its first two characters |
| MarkdownRoundTrip.EscAtOf | components/features/spaces/chat/markdown.tsx:39-43 | a text starting with the i-th escaped delimiter is read as that delimiter |
| MarkdownRoundTrip.HideNone | components/features/spaces/chat/markdown.tsx:39-43 | the scan that hides no delimiter leaves the text unchanged |
| MarkdownRoundTrip.HideSomeHead | components/features/spaces/chat/markdown.tsx:39-43 | the scan starts with the text's first character or with "___" |
| MarkdownRoundTrip.HideSomeLeaves | components/features/spaces/chat/markdown.tsx:39-43 | a delimiter the scan does not hide is copied as its two characters |
| MarkdownRoundTrip.ScanPast | components/features/spaces/chat/markdown.tsx:39-71 | a global replace copies a prefix in which no position starts a match, then scans on |
| MarkdownRoundTrip.HidePass | components/features/spaces/chat/markdown.tsx:39-43 | each escape pass, applied after the ones before it, hides one more delimiter in the left-to-right scan |
| MarkdownRoundTrip.HideEscapesIsScan | components/features/spaces/chat/markdown.tsx:39-43 | the four escape passes together are one left-to-right scan that hides every escaped delimiter |
| MarkdownRoundTrip.NoLoneUnderscore | components/features/spaces/chat/markdown.tsx:39-43 | on text without '_', the escape pass's output never has letters followed by a single '_': its underscores come in runs of three |
| MarkdownRoundTrip.PhPast | components/features/spaces/chat/markdown.tsx:67-71 | an escape restore pass never matches inside another escape placeholder and scans past it |
| MarkdownRoundTrip.ShowPass | components/features/spaces/chat/markdown.tsx:67-71 | each escape restore pass puts back its own delimiter and leaves the later ones hidden |
| MarkdownRoundTrip.EscapesRoundTrip | components/features/spaces/chat/markdown.tsx:39-71 | on text without '_', the four escape restores undo the four escape passes |
| MarkdownRoundTrip.HideSomeUnmarked | components/features/spaces/chat/markdown.tsx:39-43 | the escape pass puts no "X_" followed by a letter into text without '_' |
| MarkdownRoundTrip.InOrderRoundTrip | components/features/spaces/chat/markdown.tsx:37-83 | with the restores in the reverse order of the extractions, every text without '_' comes back unchanged, whatever escapes, blocks and inline spans it holds and however they nest |
| MarkdownRoundTrip.BlockKeep | components/features/spaces/chat/markdown.tsx:47-54 | a character that does not start "$$" is left by the block pass |
| MarkdownRoundTrip.RenderKeep | components/features/spaces/chat/markdown.tsx:50-64 | a kept character is rendered as itself and adds no span |
| MarkdownRoundTrip.RenderSpan | components/features/spaces/chat/markdown.tsx:50-64 | a span is rendered as the next numbered placeholder and becomes the next table entry |
| MarkdownRoundTrip.BlocksAfterPlain | components/features/spaces/chat/markdown.tsx:47-54 | characters without '$' ahead of the input are left by the block pass and add no block |
| MarkdownRoundTrip.BlockAtStart | components/features/spaces/chat/markdown.tsx:47-54 | "$$", text without '$', "$$" at the start is taken out as the first block |
| MarkdownRoundTrip.FirstInlinePlaceholderIsInert | components/features/spaces/chat/markdown.tsx:67-76 | the first inline placeholder is "___LATEX_INLINE_0___" and is touched by neither the escape restore nor the block restore |
| MarkdownRoundTrip.NestedBlockPass | components/features/spaces/chat/markdown.tsx:47-54 | the block pass on "$" a "$$" b "$$" c "$" takes out one block and renders it as the first block placeholder |
| MarkdownRoundTrip.WholeInlinePass | components/features/spaces/chat/markdown.tsx:57-64 | '$', text without '$', '$' is taken out whole as the first inline span |
| MarkdownRoundTrip.NestedBlockLeaks | components/features/spaces/chat/markdown.tsx:37-83 | as written, "$" a "$$" b "$$" c "$" comes out as "$" a "___LATEX_BLOCK_0___" c "$", which differs from the input; restoring in reverse order gives the input back |
| MarkdownRoundTrip.HideNoBackslash | components/features/spaces/chat/markdown.tsx:39-43 | text without a backslash passes the escape scan unchanged |
| MessageTyping.CharUnits | components/message-typing.tsx:40-43 | a character inside the Basic Multilingual Plane is one code unit, any other a high and a low surrogate, as JavaScript strings store them |
| MessageTyping.Utf16 | components/message-typing.tsx:40-43 | a text's JavaScript string has at least as many code units as the text has characters |
| MessageTyping.LengthCountsAstral | components/message-typing.tsx:40-43 | `content.length` exceeds the number of characters exactly when the text holds a character outside the Basic Multilingual Plane |
| MessageTyping.NoTrailingHigh | components/message-typing.tsx:43 | the encoding of a text never ends with a high surrogate |
| MessageTyping.HalfPairShown | components/message-typing.tsx:42-44 | a `substring` cut just after the high surrogate of a character outside the Basic Multilingual Plane shows half a pair, and the units shown encode no text at all |
| MessageTyping.Typewriter.constructor | components/message-typing.tsx:15-22 | on mount nothing is shown and the animation is not complete; a missing speed is 10 and a missing delay 0 |
| MessageTyping.Typewriter.SetProps | components/message-typing.tsx:25-63 | a render whose `content`, `speed` or `delay` differs from the last one restarts the effect with nothing shown and not complete; a render with the same three changes nothing |
| MessageTyping.Typewriter.Tick | components/message-typing.tsx:39-52 | a tick reveals the next min(speed, remaining) UTF-16 code units as a longer prefix of the content, or, with nothing left, marks the animation complete and fires onComplete once |
| MessageTyping.Typewriter.Run | components/message-typing.tsx:36-56 | the whole animation ends showing exactly the content after ceil(length / speed) chunks, the length counted in UTF-16 code units, and onComplete fires exactly once |
| RateLimit.ClientIp | middleware.ts:14-27 | the client address is the trimmed first comma-separated entry of x-forwarded-for (holding no comma), else x-real-ip, else "unknown" |
| RateLimit.TrimInside | middleware.ts:19 | trimming cannot introduce a character the entry lacks |
| RateLimit.WindowStart | middleware.ts:60 | the window start is a multiple of 60 000 ms, at most now and within one window of it |
| RateLimit.Counted | middleware.ts:62-69 | a counter of the current window goes up by one; a missing counter or one of another window restarts at 1, in the current window |
| RateLimit.Recorded | middleware.ts:58-70 | recording a request sets this address's counter and leaves every other counter as it was |
| RateLimit.Swept | middleware.ts:73-80 | the clean-up keeps exactly the counters whose window started no more than two windows before now, unchanged |
| RateLimit.VerdictFor | middleware.ts:82-109 | a request is rejected with 429 exactly when its count exceeds 60; the remaining header is 60 minus the count, never below 0; the reset header is the end of the window in seconds |
| RateLimit.ReplayCounts | middleware.ts:58-85 | n requests within one window from an address with no counter for it leave its counter at n, so the 61st and later requests in the window are rejected |
| RateLimit.ReplayIsolated | middleware.ts:58-70 | requests from one address never add, remove or change another address's counter |
| RateLimit.RateLimiter.constructor | middleware.ts:9 | the store starts empty |
| RateLimit.RateLimiter.Sweep | middleware.ts:73-80 | the clean-up loop leaves the store as the swept store |
| RateLimit.RateLimiter.Middleware | middleware.ts:51-117 | one request advances its address's counter, sweeps when the 1 % draw says so, keeps the address's counter through the sweep, and answers with the verdict for the new count |
| Notebooks.ToggledExpansion | contexts/NotebookContext.tsx:105-111 | toggling keeps every notebook but its flag and stamp; only the target can end up expanded, and it is expanded exactly when it was collapsed |
| Notebooks.AtMostOneExpanded | contexts/NotebookContext.tsx:105-111 | with unique ids, at most one notebook is expanded after a toggle |
| Notebooks.ToggleTwice | contexts/NotebookContext.tsx:105-111 | toggling one notebook twice restores its own flag and leaves every other notebook collapsed |
| Notebooks.Reordered | contexts/NotebookContext.tsx:113-119 | reordering keeps the given order and numbers each notebook by its position |
| Notebooks.RenamedIn | contexts/NotebookContext.tsx:93-99 | renaming changes the name and stamp of the notebooks with that id and leaves the rest unchanged |
| Notebooks.Without | contexts/NotebookContext.tsx:82 | the filtered list holds exactly the notebooks whose id differs |
| Notebooks.WithoutKeepsOne | contexts/NotebookContext.tsx:78-91 | with unique ids, deleting from a list of two or more notebooks leaves at least one |
| Notebooks.NotebookProvider.constructor | contexts/NotebookContext.tsx:26-51 | the stored list and current id are loaded, or a single expanded notebook named Default becomes the list and the current notebook |
| Notebooks.NotebookProvider.CreateNotebook | contexts/NotebookContext.tsx:62-76 | a new expanded notebook ordered last is appended and becomes current, and its id is returned; ids stay unique when the new id is fresh |
| Notebooks.NotebookProvider.DeleteNotebook | contexts/NotebookContext.tsx:78-91 | the last notebook is never deleted; otherwise the notebook goes, the first remaining one becomes current if the deleted one was, and with unique ids a notebook always remains |
| Notebooks.NotebookProvider.RenameNotebook | contexts/NotebookContext.tsx:93-99 | the list becomes the renamed list and the current id is unchanged |
| Notebooks.NotebookProvider.SwitchNotebook | contexts/NotebookContext.tsx:101-103 | only the current id changes |
| Notebooks.NotebookProvider.ToggleNotebookExpansion | contexts/NotebookContext.tsx:105-111 | the list becomes the toggled list and the current id is unchanged |
| Notebooks.NotebookProvider.ReorderNotebooks | contexts/NotebookContext.tsx:113-120 | the list becomes the renumbered given list and the current id is unchanged |
| Notebooks.NotebookProvider.CurrentNotebook | contexts/NotebookContext.tsx:60 | the current notebook is a listed notebook with the current id, and there is none exactly when no notebook has that id |
| Pickers.JsRem | terminal-chat/components/command-panel.tsx:33-36 | JavaScript's remainder: NaN exactly for a zero divisor, the mathematical remainder for a non-negative dividend, and a non-positive value smaller than the divisor for a negative one |
| Pickers.StepsWrap | terminal-chat/components/command-panel.tsx:31-36 | in a non-empty list ArrowDown moves one row on and wraps from the last row to the first, and ArrowUp moves one row back and wraps from the first row to the last |
| Pickers.PrevUndoesNext | terminal-chat/components/command-panel.tsx:31-36 | ArrowUp undoes ArrowDown and ArrowDown undoes ArrowUp |
| Pickers.EmptyListGivesNaN | terminal-chat/components/history-panel.tsx:20-25 | in an empty list either arrow makes the index NaN, and NaN never becomes a number again through the arrows |
| Pickers.NextTimesCycles | terminal-chat/components/command-panel.tsx:31-33 | k presses of ArrowDown from row i land on row (i + k) mod n, so n presses come back to the start |
| Pickers.PrefixMatches | terminal-chat/components/command-panel.tsx:22 | the filtered commands are exactly those whose lower-cased name starts with the lower-cased filter |
| Pickers.CommandPanel.constructor | terminal-chat/components/command-panel.tsx:17-25 | on mount the list is filtered and the first row is highlighted |
| Pickers.CommandPanel.SetFilter | terminal-chat/components/command-panel.tsx:21-25 | a changed filter refilters the list and highlights the first row again; the highlight stays in range |
| Pickers.CommandPanel.HandleKey | terminal-chat/components/command-panel.tsx:27-48 | with an empty list keys do nothing; the arrows move the highlight cyclically; Enter selects the highlighted command's name; Escape selects the filter text |
| Pickers.NewestFirst | terminal-chat/components/history-panel.tsx:13 | the panel lists the history newest first |
| Pickers.HistoryPanel.constructor | terminal-chat/components/history-panel.tsx:11-13 | the first row is highlighted and nothing is selected |
| Pickers.HistoryPanel.HandleKey | terminal-chat/components/history-panel.tsx:15-36 | Escape closes; the arrows move the highlight cyclically, into NaN for an empty history; Enter selects the highlighted newest-first entry when there is one; the highlight stays in range of a non-empty history |
| Pickers.Matches | terminal-chat/components/provider-selector.tsx:30-32 | the listed items are exactly those whose name contains the search term, ignoring case |
| Pickers.EmptyTermListsAll | terminal-chat/components/provider-selector.tsx:30-32 | an empty search term lists every item in order |
| Pickers.SearchSelector.constructor | terminal-chat/components/provider-selector.tsx:15-28 | the selector opens with an empty term, the first row highlighted and nothing chosen |
| Pickers.SearchSelector.SetSearchTerm | terminal-chat/components/provider-selector.tsx:84-87 | typing sets the term and highlights the first row again |
| Pickers.SearchSelector.HandleKey | terminal-chat/components/provider-selector.tsx:40-64 | Escape closes, and Tab closes only the provider selector; the arrows move the highlight cyclically over the filtered list, into NaN when it is empty; Enter chooses the highlighted id when the list is non-empty |
| Providers.ModelSpecific | app/api/lib/ai/providers.ts:53-63 | the model-specific entries name only known providers |
| Providers.GetProviderOptions | app/api/lib/ai/providers.ts:44-69 | every provider is present, and a model's own entry replaces the whole base object of that provider |
| Providers.UnlistedModelGetsBase | app/api/lib/ai/providers.ts:44-69 | a model without its own entry gets exactly the base options, with Anthropic's thinking budget of 12 000 tokens |
| Providers.O4MiniEntries | app/api/lib/ai/providers.ts:55-58 | o4-mini asks the custom and the OpenAI provider for medium reasoning effort and leaves the others at the base |
| Providers.GoogleEntries | app/api/lib/ai/providers.ts:59-62 | the Google model sets a 5 000-token thinking budget on the custom and the Google provider and leaves the others at the base |
| Providers.DefaultEntries | app/api/lib/ai/providers.ts:54 | the default model asks only the custom provider for high reasoning effort |
| Providers.GetTemperature | app/api/lib/ai/providers.ts:74-76 | the temperature is 0 for every model except o4-mini, which has none |
| Providers.GetMaxSteps | app/api/lib/ai/providers.ts:81-83 | at most 5 tool steps |
| Providers.SpecificModelsAvailable | app/api/lib/ai/providers.ts:53-108 | every model with its own entry is an available model, and a model that is not available gets the base options |
| Providers.AvailableModelsDistinct | app/api/lib/ai/providers.ts:88-99 | the ten available model names are distinct |
| Proxy.ParseIpv4 | app/api/media/proxy/route.ts:21-25 | a host is read as a dotted quad exactly when it is four dot-separated runs of one to three digits, and each number is below 1000 |
| Proxy.OctetBound | app/api/media/proxy/route.ts:21 | one to three digits spell a number below 1000 |
| Proxy.DigitsBound | app/api/media/proxy/route.ts:21 | k digits spell a number below 10 to the k |
| Proxy.AllowList | app/api/media/proxy/route.ts:72 | the allow-list holds each comma-separated entry, trimmed and lower-cased, in order |
| Proxy.IsPublicHostname | app/api/media/proxy/route.ts:13-77 | a blocked name, a literal address in a refused range, a failed lookup or a resolved address in a refused range is refused; with an allow-list an accepted host is on it; every other host is accepted |
| Proxy.NatToStringShort | app/api/media/proxy/route.ts:21 | a number below 10 to the k has at most k digits |
| Proxy.IndexOfFirst | app/api/media/proxy/route.ts:21 | the first dot is found at its index |
| Proxy.SplitAtFirst | app/api/media/proxy/route.ts:21 | text without a dot, a dot and the rest splits into that text and the pieces of the rest |
| Proxy.SplitWhole | app/api/media/proxy/route.ts:21 | text without a dot is one piece |
| Proxy.DigitsHaveNoDot | app/api/media/proxy/route.ts:21 | the decimal text of a number has no dot |
| Proxy.SplitTwo | app/api/media/proxy/route.ts:21 | two dot-free pieces joined by a dot split back into them |
| Proxy.SplitThree | app/api/media/proxy/route.ts:21 | three dot-free pieces joined by dots split back into them |
| Proxy.SplitFour | app/api/media/proxy/route.ts:21 | four dot-free pieces joined by dots split back into them |
| Proxy.Ipv4RoundTrip | app/api/media/proxy/route.ts:21-25 | the pattern reads back the four numbers of any dotted quad whose numbers are below 1000, 255 or not |
| Proxy.OctetRoundTrip | app/api/media/proxy/route.ts:21-25 | the decimal text of a number below 1000 is one to three digits without a dot and reads back as the number |
| Proxy.PrivateLiteralRefused | app/api/media/proxy/route.ts:24-41 | a literal address in 10/8, 172.16/12, 192.168/16, 169.254/16 or 127/8 is refused whatever the DNS answer and the allow-list |
| Proxy.SumPrefixMonotone | app/api/media/proxy/route.ts:174 | the bytes of the first chunks never exceed the bytes of all chunks |
| Proxy.StreamWithLimit | app/api/media/proxy/route.ts:168-187 | the written chunks are a prefix of the body totalling at most 5 MiB; the stream aborts exactly when the body exceeds 5 MiB, at the chunk that would pass the limit; otherwise the whole body is written |
| Proxy.Get | app/api/media/proxy/route.ts:94-219 | a missing url is 400; a refused host is 400 before any fetch; only a public host with a fetched response gets past the errors; validate-only mode reports ok with an image/ type and never streams; the final url is the redirected one when there was a redirect; streaming needs an ok response with a body |
| Proxy.GetRequest | app/api/media/proxy/route.ts:94-96 | the handler throws exactly when the request object has no nextUrl, and otherwise answers as GET on its url parameter |
| Proxy.HeadAsWritten | app/api/media/proxy/route.ts:226-237 | as written, HEAD hands GET a plain Request without nextUrl, so it always throws |
| Proxy.HeadAsWrittenNeverValidates | app/api/media/proxy/route.ts:226-237 | as written, HEAD fails with a bare 500 even where GET in validate-only mode reports on the image |
| Proxy.Head | app/api/media/proxy/route.ts:226-237 | HEAD as intended never streams, and a validation report it gives says ok with an image/ type |
| Proxy.HeadReports | app/api/media/proxy/route.ts:226-237 | the intended HEAD is GET in validate-only mode on the same request, never throws, and reports on every image GET would fetch |
| Proxy.OversizeImageIsStreamed | app/api/media/proxy/route.ts:88-207 | as written, a 6 MiB image from a public host is answered with a 200 stream, not 413: the size is only counted after the response is returned |
| Proxy.GetWithSizeCheck | app/api/media/proxy/route.ts:88-207 | the documented handler streams only bodies within 5 MiB, answers 413 for larger ones, and otherwise answers as GET |
| ResearchPlan.Expand | app/api/lib/ai/tools/reason-search-advanced.ts:104-117 | an 'all' query becomes three steps and any other query one, each carrying the query |
| ResearchPlan.SearchStepsShape | app/api/lib/ai/tools/reason-search-advanced.ts:104-117 | the search steps number one per query plus two per 'all' query, between one and three per query; every step belongs to a query of the plan and has a kind its source allows |
| ResearchPlan.SearchStepsBounded | app/api/lib/ai/tools/reason-search-advanced.ts:55-64 | with at most 12 queries there are at most 36 search steps |
| ResearchPlan.KindNameFirst | app/api/lib/ai/tools/reason-search-advanced.ts:107-116 | the kind names web, academic and x differ in their first letter |
| ResearchPlan.StepIdParts | app/api/lib/ai/tools/reason-search-advanced.ts:107-116 | a step id is its kind's prefix followed by the index's digits |
| ResearchPlan.StepIdInjective | app/api/lib/ai/tools/reason-search-advanced.ts:107-116 | a step id determines its kind and its query index |
| ResearchPlan.ExpandIds | app/api/lib/ai/tools/reason-search-advanced.ts:104-117 | the steps of one query carry that query's index and have different kinds |
| ResearchPlan.SearchStepIdsBelow | app/api/lib/ai/tools/reason-search-advanced.ts:104-117 | every search step id names its own kind and an index below the number of queries |
| ResearchPlan.SearchStepIdsDistinct | app/api/lib/ai/tools/reason-search-advanced.ts:104-117 | no two search steps share an id |
| ResearchPlan.AnalysisSteps | app/api/lib/ai/tools/reason-search-advanced.ts:119-123 | one analysis step per required analysis, in plan order |
| ResearchPlan.AnalysisIdsDistinct | app/api/lib/ai/tools/reason-search-advanced.ts:119-123 | no two analysis steps share an id |
| ResearchPlan.TotalSteps | app/api/lib/ai/tools/reason-search-advanced.ts:134 | the total is the step count of the queries plus the number of analyses |
| ResearchPlan.TotalStepsBounded | app/api/lib/ai/tools/reason-search-advanced.ts:55-73 | within the plan schema's caps of 12 queries and 8 analyses a plan has at most 44 steps |
| ResearchRun.Min | app/api/lib/ai/tools/reason-search-advanced.ts:183 | Math.min: at most both arguments and equal to one of them |
| ResearchRun.RequestedCounts | app/api/lib/ai/tools/reason-search-advanced.ts:180-207 | for priorities 1 to 5 a web step asks for 6 - priority answered results at the run's depth, an academic step for 6 - priority papers with summaries, an X step for priority posts, each count between 1 and 5 |
| ResearchRun.StepResults | app/api/lib/ai/tools/reason-search-advanced.ts:178-222 | a step throws exactly when the client call it awaits rejects or, for an X step, a returned post has no url; every result it reports is tagged with the step's kind |
| ResearchRun.CollectPrefixFails | app/api/lib/ai/tools/reason-search-advanced.ts:156-250 | once a step throws, the whole run has no results |
| ResearchRun.CollectSucceeds | app/api/lib/ai/tools/reason-search-advanced.ts:156-250 | the search loop yields results exactly when no step throws |
| ResearchRun.CollectEntries | app/api/lib/ai/tools/reason-search-advanced.ts:156-250 | a successful search loop has one entry per step, in step order, with the step's kind, query and results |
| ResearchRun.ToolRunFails | app/api/lib/ai/tools/reason-search-advanced.ts:156-250 | the run throws exactly when some step throws: its client call rejects, or an X step returns a post without a url |
| ResearchRun.WebStepCount | app/api/lib/ai/tools/reason-search-advanced.ts:180-191 | a web step whose call succeeds reports one result per result the web client returned |
| ResearchRun.XStepKeepsEveryPost | app/api/lib/ai/tools/reason-search-advanced.ts:204-221 | the tweetId filter of an X step removes nothing; the step reports exactly the raw results whose url links a post, each with that post's id and a non-empty title |
| ResearchRun.AcademicStepUrlsDistinct | app/api/lib/ai/tools/reason-search-advanced.ts:192-203 | when the call succeeds and every paper has a url, an academic step reports each url at most once |
| ResearchRun.StepUpdates | app/api/lib/ai/tools/reason-search-advanced.ts:158-248 | each step yields two annotations |
| ResearchRun.StepUpdatesAt | app/api/lib/ai/tools/reason-search-advanced.ts:158-248 | step i owns annotation 2i, running, and annotation 2i + 1, completed |
| ResearchRun.SearchIds | app/api/lib/ai/tools/reason-search-advanced.ts:156-162 | the ids of the search steps, in order |
| ResearchRun.AnalysisIds | app/api/lib/ai/tools/reason-search-advanced.ts:254-260 | the ids of the analysis steps, in order |
| ResearchRun.CountsWithinConcat | app/api/lib/ai/tools/reason-search-advanced.ts:136-460 | annotations whose counts stay within their totals stay so when joined |
| ResearchRun.StepUpdatesCountsWithin | app/api/lib/ai/tools/reason-search-advanced.ts:158-300 | step annotations carry no counts |
| ResearchRun.EndsCountsWithin | app/api/lib/ai/tools/reason-search-advanced.ts:136-460 | the plan and closing annotations report no more completed steps than their total |
| ResearchRun.RunProgress | app/api/lib/ai/tools/reason-search-advanced.ts:37-460 | a complete run makes 2 per step plus 7 annotations, no count exceeds its total, and the last one reports all plan steps plus gap analysis and synthesis done |
| ResearchRun.RunSearches | app/api/lib/ai/tools/reason-search-advanced.ts:156-250 | the search loop's results are those of the steps in order, or none once a step throws; a successful loop announces and completes every step and counts each; a loop that throws at step k has announced and completed the steps before k and announced step k, whose running annotation precedes its client call, with k steps counted |
| ResearchRun.RunAnalyses | app/api/lib/ai/tools/reason-search-advanced.ts:254-303 | the analysis loop announces and completes every analysis and counts each |
| ResearchRun.CloseRun | app/api/lib/ai/tools/reason-search-advanced.ts:306-460 | gap analysis and synthesis each count as one more step, reported against the plan's total plus 2 |
| ResearchRun.ExecuteReasonSearch | app/api/lib/ai/tools/reason-search-advanced.ts:26-468 | from a given plan, the search results are the collected step results; a run that does not throw makes the full annotation sequence and ends with every plan step plus 2 completed; a run that throws at search step k has written the opening annotations, those of the steps before k and step k's running annotation |
| RouteSearch.AcademicToolRequest | app/api/search/route.ts:179-186 | the academic tool asks for twenty research papers with a summary of each abstract |
| RouteSearch.CleanToolPaper | app/api/search/route.ts:193-203 | a kept paper keeps its url, id, author and text, and its summary loses a leading 'Summary:' label |
| RouteSearch.UsableUrlsSnoc | app/api/search/route.ts:189-207 | one more paper adds its url to the urls of papers with a summary exactly when it has one |
| RouteSearch.KeptUrlsSnoc | app/api/search/route.ts:189-207 | keeping one more paper adds its url to the kept urls |
| RouteSearch.FirstUsableLast | app/api/search/route.ts:189-207 | the last paper is the first with a summary for its url exactly when it has a summary and no earlier paper with a summary shares its url |
| RouteSearch.ToolStepReference | app/api/search/route.ts:189-207 | one more reduce step keeps the reduce equal to the first-per-url reference |
| RouteSearch.ToolResultsAreFirstUsable | app/api/search/route.ts:189-207 | the tool keeps exactly the first paper with a summary for each url, a missing url counting as one url, cleaned and in input order, and its urls are those of the papers with a summary |
| RouteSearch.ToolResultsFromUsable | app/api/search/route.ts:189-207 | every kept paper is the cleaned form of an input paper with a summary |
| RouteSearch.ToolResultsDistinct | app/api/search/route.ts:189-207 | no url, not even a missing one, appears twice among the kept papers |
| RouteSearch.ToolCollapsesMissingUrls | app/api/search/route.ts:191 | two papers lacking a url are collapsed into the first |
| RouteSearch.ClientKeepsMissingUrls | app/api/search/route.ts:191 | unlike the tool, the Exa client keeps both papers lacking a url |
| RouteSearch.PlanAcademicRequest | app/api/search/route.ts:377-382 | an academic plan step asks for min(6 - priority, 5) papers with summaries |
| RouteSearch.PostOf | app/api/search/route.ts:412-422 | a result becomes a post exactly when its tweet id is truthy, and the post carries that id and a non-empty title |
| RouteSearch.Posts | app/api/search/route.ts:412-423 | the posts are at most the results, each an X post with a non-empty tweet id |
| RouteSearch.PostsAreTweets | app/api/search/route.ts:396-423 | the plan steps keep exactly the results whose url links a post, each with that post's numeric id and a non-empty title |
| RouteSearch.PlanStepResults | app/api/search/route.ts:357-432 | every result a plan step reports is tagged with the step's kind |
| RouteSearch.FollowUpSource | app/api/search/route.ts:636-644 | a gap's first query searches all sources, the later ones web, academic and x in turn |
| RouteSearch.GapQueries | app/api/search/route.ts:635-652 | a gap yields one query per additional query, with the gap's reason and priority 3 |
| RouteSearch.QueryOpCountClosed | app/api/search/route.ts:605-610 | a gap with n queries counts n + 2 operations, and none without queries |
| RouteSearch.Operations | app/api/search/route.ts:656-659 | an 'all' query runs three operations and any other one, each of a kind its source allows |
| RouteSearch.OpsOf | app/api/search/route.ts:656-661 | the operations of a query, each serving that query |
| RouteSearch.FollowUpOpsCount | app/api/search/route.ts:655-661 | the follow-up loops run one operation per query plus two per 'all' query |
| RouteSearch.StepCountConcat | app/api/search/route.ts:655-661 | the step count of joined query lists is the sum of their counts |
| RouteSearch.GapQueriesCount | app/api/search/route.ts:605-610 | the operations of a gap's first n queries are what the inner reduce counts |
| RouteSearch.AdditionalCountIsOperations | app/api/search/route.ts:605-661 | additionalQueriesCount is exactly the number of operations the follow-up loops run |
| RouteSearch.GapSearchIdParts | app/api/search/route.ts:662 | a follow-up id is its kind's prefix followed by the counter's digits |
| RouteSearch.GapSearchIdInjective | app/api/search/route.ts:662 | a follow-up id determines its kind and its counter value |
| RouteSearch.GapIdNotStepId | app/api/search/route.ts:662 | no follow-up id is a plan step id |
| RouteSearch.GapIds | app/api/search/route.ts:661-662 | one id per operation |
| RouteSearch.GapIdsAt | app/api/search/route.ts:661-662 | operation i gets the counter value start + i |
| RouteSearch.GapIdsDistinct | app/api/search/route.ts:661-662 | the follow-up ids are pairwise distinct |
| RouteSearch.FollowUpPostsAlwaysEmpty | app/api/search/route.ts:690-697 | as written, a follow-up X search never contributes a post, because its tweet-id stub returns null |
| RouteSearch.FollowUpStubDropsPost | app/api/search/route.ts:690-697 | a result whose url links a post is kept by the plan steps with its id but dropped by the follow-up stub |
| RouteSearch.FollowUpOutcome | app/api/search/route.ts:680-710 | a follow-up operation that does not throw records an entry of its own kind for the query, with the operation's type as source; an X operation records one exactly when its call succeeds, and, through the branch's stub, with no posts |
| RouteSearch.FollowUpEntries | app/api/search/route.ts:661-710 | the follow-up operations push at most one entry each |
| RouteSearch.OperationStep | app/api/search/route.ts:661-712 | one more operation appends its entry, if any, and its id numbered start + j |
| RouteSearch.FollowUpEntriesConcat | app/api/search/route.ts:655-712 | the entries of joined operation lists are the entries of each, joined |
| RouteSearch.GapIdsConcat | app/api/search/route.ts:655-712 | the ids of joined operation lists number the second list on from the first |
| RouteSearch.RunOperations | app/api/search/route.ts:661-731 | the inner loop pushes the entries of the operations that do not throw, numbers every operation from the running search index, and counts each as done in its finally block |
| RouteSearch.SearchOperations | app/api/search/route.ts:656-659 | the three pushes build exactly the query's operations |
| RouteSearch.FollowUpStep | app/api/search/route.ts:655-731 | one more follow-up query appends its operations' entries and ids, numbered on from the operations before it |
| RouteSearch.RunFollowUps | app/api/search/route.ts:655-732 | the outer loop's entries, ids and count are those of all follow-up operations in order |
| RouteSearch.InterimTotalBelowFinal | app/api/search/route.ts:595-611 | the total of the first gap-analysis report never exceeds the final total; at basic depth it is one short, and at advanced depth without gaps it is equal |
| RouteSearch.RouteReasonSearch | app/api/search/route.ts:223-880 | the route's search fails exactly when a plan step throws; otherwise its results are the plan steps' then, at advanced depth with gaps, the follow-up entries, with distinct follow-up ids numbered after the plan steps, and the completed count equals the total the branch reports and the final total |
| Sidebar.CurrentPageType | components/sidebar.tsx:47-51 | a journal page exactly for paths under '/journal/', a space page exactly for other paths under '/space/' |
| Sidebar.FirstSegment | components/sidebar.tsx:54-56 | the first segment is the longest prefix without '/', '?' or '#' |
| Sidebar.CurrentPageId | components/sidebar.tsx:53-57 | the page id is the first segment after the page's prefix, and empty for other pages |
| Sidebar.PageIdRoundTrip | components/sidebar.tsx:47-57 | the id of a page reached through '/journal/<id>' or '/space/<id>' is read back from its path, whatever query or fragment follows |
| Sidebar.FirstSegmentOf | components/sidebar.tsx:54-56 | an id without delimiters followed by a delimited tail is the first segment |
| Sidebar.LowerOfTrimmed | components/sidebar.tsx:70-78 | lower-casing a trimmed query leaves it trimmed |
| Sidebar.JournalSearchHits | components/sidebar.tsx:67-104 | for a non-blank query the journal search finds every entry whose title or some block contains the trimmed, lower-cased query, and nothing else |
| Sidebar.SidebarState.constructor | components/sidebar.tsx:26-36 | no results, hidden, and the new menu closed |
| Sidebar.SidebarState.SearchEffect | components/sidebar.tsx:67-144 | a blank query hides the results and keeps the old ones; otherwise both searches run on the trimmed query and the results are shown |
| Sidebar.SidebarState.CreateNotebook | components/sidebar.tsx:205-209 | the menu closes and a notebook named 'Notebook n+1' is created for n notebooks and becomes current |
| SidebarNotebook.NotebookEntries | components/SidebarNotebook.tsx:40 | exactly the entries of the notebook are listed |
| SidebarNotebook.NotebookSpaces | components/SidebarNotebook.tsx:41 | exactly the spaces of the notebook are listed |
| SidebarNotebook.EntryOrderIsTotal | components/SidebarNotebook.tsx:44-46 | the newest-first comparator is a total preorder |
| SidebarNotebook.SpaceOrderIsTotal | components/SidebarNotebook.tsx:49-53 | the pinned-first comparator is a total preorder |
| SidebarNotebook.SortedEntries | components/SidebarNotebook.tsx:44-46 | sorting the entries is a permutation of the notebook's entries |
| SidebarNotebook.SortedSpaces | components/SidebarNotebook.tsx:49-53 | sorting the spaces is a permutation of the notebook's spaces |
| SidebarNotebook.EntriesNewestFirst | components/SidebarNotebook.tsx:40-46 | the listed entries are exactly the notebook's entries, newest first |
| SidebarNotebook.SpacesPinnedFirst | components/SidebarNotebook.tsx:41-53 | the listed spaces are exactly the notebook's spaces, every pinned one before every unpinned one, and within each group the most recently updated first |
| SidebarNotebook.NotebookSection.constructor | components/SidebarNotebook.tsx:26-33 | nothing is being edited and the name field holds the notebook's name |
| SidebarNotebook.NotebookSection.FinishNotebookRename | components/SidebarNotebook.tsx:64-69 | the notebook is renamed to the trimmed name only when it is non-blank and differs from the current name; editing ends either way and the current notebook stays |
| SidebarNotebook.NotebookSection.FinishJournalRename | components/SidebarNotebook.tsx:120-126 | a non-blank title is stored trimmed on the entry with that id and nothing else changes; the editing state is cleared either way |
| SidebarNotebook.NotebookSection.FinishSpaceRename | components/SidebarNotebook.tsx:128-134 | a non-blank name is applied trimmed as a manual rename to the space with that id; the editing state is cleared either way and the current space stays |
| Spaces.NewSpace | contexts/SpacesContext.tsx:211-228 | a new space has the given id, name and notebook, no messages, is not archived, is created and updated now, and is neither manually renamed nor pinned |
| Spaces.Renamed | contexts/SpacesContext.tsx:246-257 | a renamed space takes the new name and update time, is manually renamed exactly when the flag says so, stops generating a name, and keeps its id, messages, archive flag, notebook and pin |
| Spaces.PinToggled | contexts/SpacesContext.tsx:289-297 | toggling the pin flips whether the space is pinned, a missing flag counting as unpinned, and changes nothing but its metadata |
| Spaces.PinToggledTwice | contexts/SpacesContext.tsx:289-297 | toggling twice restores the pinned state, and the whole space once the flag was present |
| Spaces.WithMessage | contexts/SpacesContext.tsx:303-333 | appending a message adds exactly that message with its id and time, sets the update time, and marks the name as generating when it is the first user message of a space not manually renamed |
| Spaces.FirstOther | contexts/SpacesContext.tsx:233 | the index of the first space with another id (and, when asked, not archived), or -1 when there is none |
| Spaces.CurrentAfterDelete | contexts/SpacesContext.tsx:230-236 | the current space changes only when the deleted one was current and more than one space existed, and then to another existing space |
| Spaces.CurrentAfterArchive | contexts/SpacesContext.tsx:238-244 | the current space changes only when the archived one was current, and then to another existing space that is not archived |
| Spaces.HitOf | contexts/SpacesContext.tsx:366-389 | a hit carries the space's id and name |
| Spaces.HitIsFirstMatch | contexts/SpacesContext.tsx:366-389 | a hit reports the first message containing the query, with its time and context 'message', and the name with context 'name' only when no message matches |
| Spaces.SearchSpaces | contexts/SpacesContext.tsx:350-390 | the result is exactly one hit per space that matches the lower-cased query, in list order: hit i is the hit of the i-th matching space of `Seqs.Filter`; so every hit comes from a matching space and every matching space has its hit |
| Spaces.SpaceHits | contexts/SpacesContext.tsx:360-390 | the hits of the lower-cased query are at most the spaces, each from a matching space, and every matching space is hit |
| Spaces.SpaceHitsInOrder | contexts/SpacesContext.tsx:360-390 | the `forEach` with `push`: hit i is the hit of the i-th matching space of `Seqs.Filter`, one hit per matching space, in list order, and no other |
| Spaces.SearchEmptyQuery | contexts/SpacesContext.tsx:350-390 | an empty query returns one hit per space |
| Spaces.EmptyQueryHitsAll | contexts/SpacesContext.tsx:360-390 | every space matches the empty query |
| Spaces.SpacesProvider.constructor | contexts/SpacesContext.tsx:67-105 | stored spaces are loaded with default metadata and the stored current id; with nothing stored there is one 'General' space, which is current |
| Spaces.SpacesProvider.CreateSpace | contexts/SpacesContext.tsx:211-228 | creating appends exactly one new space, makes it current and returns its id |
| Spaces.SpacesProvider.DeleteSpace | contexts/SpacesContext.tsx:230-236 | deleting removes exactly the spaces with that id, keeps the others in order, and moves the current space as CurrentAfterDelete says |
| Spaces.SpacesProvider.ArchiveSpace | contexts/SpacesContext.tsx:238-244 | archiving sets archived and the update time on the target only, and moves the current space as CurrentAfterArchive says |
| Spaces.SpacesProvider.RenameSpace | contexts/SpacesContext.tsx:246-257 | renaming changes only the target, as Renamed says, and keeps the current space |
| Spaces.SpacesProvider.TogglePinSpace | contexts/SpacesContext.tsx:289-297 | toggling changes only the target, as PinToggled says, and keeps the current space |
| Spaces.SpacesProvider.SwitchSpace | contexts/SpacesContext.tsx:299-301 | switching sets the current id and leaves the spaces alone |
| Spaces.SpacesProvider.AddMessage | contexts/SpacesContext.tsx:303-333 | the message is appended only to the current space, as WithMessage says; every other space is unchanged |
| Spaces.SpacesProvider.CurrentSpace | contexts/SpacesContext.tsx:348 | the current space is a listed space with the current id, and there is none exactly when no space has that id |
| StorageKeys.RegistryConsistent | lib/storageKeys.ts:37-65 | the full key list is the data keys followed by the preference keys, and no key is listed twice |
| StorageKeys.PreferencesUnprefixed | lib/storageKeys.ts:61-64 | no preference key starts with 'openbook_', so the fallback sweep never takes one |
| StorageKeys.Cleared | lib/storageKeys.ts:72-87 | clearing keeps only stored keys, each with its stored value |
| StorageKeys.ClearAllRemovesListed | lib/storageKeys.ts:72-87 | a full clear removes every listed key and every key starting with 'openbook_' |
| StorageKeys.ClearDataKeepsPreferences | lib/storageKeys.ts:72-87 | clearing only data removes the five data keys and keeps every stored preference with its value |
| StorageKeys.ClearKeepsOthers | lib/storageKeys.ts:72-87 | a key neither listed nor prefixed survives either mode with its value, and clearing twice equals clearing once |
| StorageKeys.StreakKeysSurvive | lib/storageKeys.ts:72-87 | the streak count, last-visit and celebrated-milestone keys survive clearing |
| StorageKeys.ClearAllStorageData | lib/storageKeys.ts:72-87 | the removal loop and the prefix sweep leave exactly the cleared storage |
| Streak.OrOne | hooks/useStreak.ts:43 | a stored count other than 0 is kept, and 0 or an unreadable count becomes 1 |
| Streak.DayDiff | hooks/useStreak.ts:41 | the day difference is the number of whole 24-hour periods between the two midnights, floored |
| Streak.FirstVisit | hooks/useStreak.ts:33-38 | with no stored visit the streak is 1 |
| Streak.SameDay | hooks/useStreak.ts:44-46 | less than 24 hours after the last visit's midnight, the stored count is kept, 0 counting as 1 |
| Streak.NextDay | hooks/useStreak.ts:47-49 | 24 to 48 hours after the last visit's midnight, the count goes up by one |
| Streak.Reset | hooks/useStreak.ts:50-53 | a gap of 48 hours or more, a stored date in the future or an unreadable date resets the streak to 1 |
| Streak.AtLeastOne | hooks/useStreak.ts:24-60 | over a count the hook could have written, the streak is at least 1 |
| Streak.VisitKeepsCountReadable | hooks/useStreak.ts:55-59 | every visit writes back a count that keeps the stored count readable |
| Streak.RevisitSameDay | hooks/useStreak.ts:24-60 | a second visit on the same day returns the same streak |
| Streak.VisitNextDay | hooks/useStreak.ts:24-60 | a visit on the next day returns the previous streak plus one |
| Streak.DayDiffSameOffset | hooks/useStreak.ts:18-22 | without a change of time-zone offset, the day difference of two local midnights is the number of calendar days between them |
| Streak.SpringForwardNotCounted | hooks/useStreak.ts:41 | as written, when clocks move forward overnight the next day's midnight is 23 hours later, the floored difference is 0, and a streak of 5 stays 5 |
| Streak.CalendarDayDiff | hooks/useStreak.ts:41 | the corrected difference rounds the midnight gap to the nearest whole day |
| Streak.CalendarDayDiffCounts | hooks/useStreak.ts:41 | between two local midnights whose offsets differ by less than half a day, the corrected difference is the number of calendar days |
| Streak.SpringForwardCounted | hooks/useStreak.ts:41-49 | with calendar days, the spring-forward visit takes a streak of 5 to 6 |
| Streak.CalculateStreak | hooks/useStreak.ts:24-60 | without a window the result is 1 and storage is untouched; otherwise the result is the streak of the stored visit and today's midnight, and the count and the visit time are written back |
| Streak.StreakHook.constructor | hooks/useStreak.ts:62 | the streak state starts as the first calculation's result, which also writes the visit back when a window exists |
| Streak.StreakHook.Tick | hooks/useStreak.ts:64-74 | a tick recalculates the streak only in the first minute after midnight and otherwise changes nothing |
| StreakBadge.BandOf | components/features/spaces/Streak.tsx:12-26 | the badge is yellow exactly for 7-13, orange exactly for 14-29, red exactly for 30-49 and white otherwise |
| StreakBadge.CurrentMilestone | components/features/spaces/Streak.tsx:32-33 | a milestone is found exactly when the streak is 7, 30 or 100, and it is the streak |
| StreakBadge.CelebrateMilestone | components/features/spaces/Streak.tsx:31-78 | the effect celebrates exactly when a window exists, the streak is a milestone and it differs from the last celebrated one, and then records the milestone; otherwise storage is untouched |
| StreakBadge.NeverTwiceInARow | components/features/spaces/Streak.tsx:37-43 | a milestone just celebrated is not celebrated again |
| StreakBadge.NextMilestoneCelebrated | components/features/spaces/Streak.tsx:37-43 | after one milestone is celebrated, reaching a different one is celebrated |
| StreakBadge.DayUnit | components/features/spaces/Streak.tsx:87 | the unit is 'day' exactly for a streak of 1 and 'days' otherwise |
| StudyTerminal.PanelFor | components/terminal/terminal-input.tsx:83-94 | the input opens the panel whose command it equals, and none when it equals no panel's command |
| StudyTerminal.Dispatch | components/terminal/terminal-input.tsx:165-194 | a command keeps its panel exactly when its lower-cased first word is a panel's command, and is the extreme-mode shortcut exactly when that word is '/extreme' |
| StudyTerminal.DispatchFirstWord | components/terminal/terminal-input.tsx:166 | only the first word decides the dispatch: whatever follows a space is ignored |
| StudyTerminal.TerminalInput.constructor | components/terminal/terminal-input.tsx:59-95 | the component mounts with an empty history, no walk in progress, and suggestions and panel following the initial text |
| StudyTerminal.TerminalInput.Settle | components/terminal/terminal-input.tsx:76-95 | when the text changed, suggestions show exactly for a space-free '/' text and the panel is the text's panel; otherwise both are kept |
| StudyTerminal.TerminalInput.Type | components/terminal/terminal-input.tsx:97-99 | typing sets the text, and suggestions and panel follow it |
| StudyTerminal.TerminalInput.Navigate | components/terminal/terminal-input.tsx:108-125 | the arrows move the walk and the text as the program's history walk says (PressUpAsWritten, PressDown): ArrowUp acts only on an empty input, and suggestions and panel follow a changed text |
| StudyTerminal.TerminalInput.TabKey | components/terminal/terminal-input.tsx:127-134 | Tab completes a space-free '/' text that exactly one command starts with, and otherwise leaves it |
| StudyTerminal.TerminalInput.EscapeKey | components/terminal/terminal-input.tsx:136-143 | Escape closes the open panel |
| StudyTerminal.TerminalInput.HandleCommand | components/terminal/terminal-input.tsx:165-194 | a panel command changes nothing; any other command empties the input and closes the panel, and '/extreme' also requests extreme mode when the parent can take it |
| StudyTerminal.TerminalInput.EndHistoryWalk | components/terminal/terminal-input.tsx:149-153 | a non-blank text is recorded unless it repeats the last entry, and the walk ends |
| StudyTerminal.TerminalInput.SubmitPastGuard | components/terminal/terminal-input.tsx:149-163 | past the guard, the text is recorded, a '/' text is dispatched as a command and never submitted, and any other text is submitted unchanged |
| StudyTerminal.TerminalInput.HandleSubmit | components/terminal/terminal-input.tsx:146-163 | a blank text without attachments changes nothing; otherwise the submission behaves as SubmitPastGuard says |
| StudyTerminal.TerminalInput.HandleKeyDown | components/terminal/terminal-input.tsx:101-144 | Enter without Shift submits, the arrows walk the history as written (ArrowUp only on an empty input), Tab completes and Escape closes the panel; other keys change nothing |
| StudyTerminal.TerminalInput.SelectCommand | components/terminal/terminal-input.tsx:196-202 | selecting a suggestion puts it into the input and hides the suggestions unless the text changed and the effect shows them again |
| StudyTerminal.TerminalInput.CloseInterface | components/terminal/terminal-input.tsx:204-210 | closing empties the input and closes the panel |
| StudyTerminal.TerminalInput.HandleModelSelect | components/terminal/terminal-input.tsx:212-216 | choosing a model sets it, empties the input and closes the panel |
| StudyTerminal.TerminalInput.HandleFrameworkSelect | components/terminal/terminal-input.tsx:231-237 | choosing a framework hands it on exactly when the parent can take it, empties the input and closes the panel |
| Tavily.BuildRequest | app/api/lib/services/tavily.ts:44-60 | the request takes each given option and otherwise the defaults 'basic', an answer and six results; the domain lists are passed only when given |
| Tavily.DefaultRequest | app/api/lib/services/tavily.ts:42-50 | with no options the request is basic, with an answer, for six results and no domain lists |
| Tavily.OrOpt | app/api/lib/services/tavily.ts:127 | the snake-case date is taken when it is a non-empty string, and otherwise the camel-case one |
| Tavily.OrEmpty | app/api/lib/services/tavily.ts:123-125 | a missing string becomes '' and a present one is kept |
| Tavily.ProcessResultsOneToOne | app/api/lib/services/tavily.ts:121-129 | the cleaned results correspond one to one with the raw ones, strings kept or defaulted to '', the score kept, and the date chosen as OrOpt says |
| Tavily.Search | app/api/lib/services/tavily.ts:40-70 | the client is asked for the query with the built request; the response carries the query, the client's answer, exactly `ProcessResults` of the client's results (an empty list when it returns none), so one cleaned result per raw result, and the elapsed time |
| Tavily.PresetRequests | app/api/lib/services/tavily.ts:75-116 | quick search asks basic, no answer, three results; deep search advanced, an answer, ten results; the domain search basic, no answer, five results with the given domains, a count of 0 becoming 5 there but kept by quick search |
| TerminalChat.CommandNamesInOrder | backup/terminal-chat-backup/components/terminal-chat.tsx:31-38 | the suggestion names are the command list's names, in order |
| TerminalChat.HelpListsEveryCommand | backup/terminal-chat-backup/components/terminal-chat.tsx:138-145 | the '/help' reply has one line per command, its name, ' - ' and its description, in list order |
| TerminalChat.HistoryListsEveryEntry | backup/terminal-chat-backup/components/terminal-chat.tsx:146-156 | a non-empty history is listed under the line 'Command history:', one entry per line, oldest first |
| TerminalChat.AnswerTo | backup/terminal-chat-backup/components/terminal-chat.tsx:131-175 | '/clear', '/help' and '/history' get their own answers, '/model', '/provider' and '/compact' the not-implemented reply, and every other word the unknown-command reply naming it |
| TerminalChat.AfterCommand | backup/terminal-chat-backup/components/terminal-chat.tsx:131-175 | '/clear' empties the list; any other command appends exactly one assistant reply |
| TerminalChat.TerminalChat.constructor | backup/terminal-chat-backup/components/terminal-chat.tsx:16-27 | the chat starts with the welcome message, an empty input, no suggestions, not processing, and an empty history |
| TerminalChat.TerminalChat.Settle | backup/terminal-chat-backup/components/terminal-chat.tsx:46-52 | when the text changed, suggestions show exactly for a space-free '/' text; otherwise the flag is kept |
| TerminalChat.TerminalChat.Type | backup/terminal-chat-backup/components/terminal-chat.tsx:54-56 | typing sets the text and the suggestions follow it |
| TerminalChat.TerminalChat.HandleCommand | backup/terminal-chat-backup/components/terminal-chat.tsx:131-175 | the list becomes what AfterCommand says for the lower-cased first word, answered against the history as the submission saw it |
| TerminalChat.TerminalChat.RecordInput | backup/terminal-chat-backup/components/terminal-chat.tsx:97-101 | the submitted text is recorded unless it repeats the last entry, and the walk ends |
| TerminalChat.TerminalChat.PostInput | backup/terminal-chat-backup/components/terminal-chat.tsx:103-128 | the text becomes a user message and the input empties; a command is answered at once, and a plain message is queued for its simulated reply and sets the busy flag |
| TerminalChat.TerminalChat.HandleSubmit | backup/terminal-chat-backup/components/terminal-chat.tsx:94-129 | a blank input changes nothing; otherwise the text is recorded and posted as RecordInput and PostInput say |
| TerminalChat.TerminalChat.Respond | backup/terminal-chat-backup/components/terminal-chat.tsx:120-128 | when the oldest timer fires, its simulated reply is appended and the busy flag clears |
| TerminalChat.TerminalChat.HandleKeyDown | backup/terminal-chat-backup/components/terminal-chat.tsx:58-92 | Enter without Shift submits, the arrows walk the history as written: ArrowUp only on an empty input, Tab completes a unique command, and other keys change nothing |
| TerminalChat.TerminalChat.SelectCommand | backup/terminal-chat-backup/components/terminal-chat.tsx:177-183 | the chosen command and a space fill the input, and the suggestions hide |
| TerminalChatInput.PanelFor | terminal-chat/components/terminal-input.tsx:42-57 | the input opens the panel whose command it equals, and none when it equals no panel's command |
| TerminalChatInput.EveryCommandHasPanel | terminal-chat/components/terminal-input.tsx:26-57 | every command of the list opens its own panel |
| TerminalChatInput.TerminalInput.constructor | terminal-chat/components/terminal-input.tsx:19-23 | the input starts empty, with no suggestions, no panel, an empty history and no walk in progress |
| TerminalChatInput.TerminalInput.Settle | terminal-chat/components/terminal-input.tsx:35-58 | when the text changed, suggestions show exactly for a space-free '/' text and the panel is the text's panel; otherwise both are kept |
| TerminalChatInput.TerminalInput.Type | terminal-chat/components/terminal-input.tsx:60-62 | typing sets the text, and suggestions and panel follow it |
| TerminalChatInput.TerminalInput.RecordInput | terminal-chat/components/terminal-input.tsx:112-116 | the submitted text is recorded unless it repeats the last entry, and the walk ends |
| TerminalChatInput.TerminalInput.ActOnInput | terminal-chat/components/terminal-input.tsx:118-146 | a known command keeps the text and its panel; an unknown command empties the input and closes the panel; a plain message is submitted and the input empties |
| TerminalChatInput.TerminalInput.HandleSubmit | terminal-chat/components/terminal-input.tsx:109-127 | a blank input changes nothing; otherwise the text is recorded and acted on as RecordInput and ActOnInput say |
| TerminalChatInput.TerminalInput.HandleKeyDown | terminal-chat/components/terminal-input.tsx:64-107 | Enter without Shift submits, the arrows walk the history as written: ArrowUp only on an empty input, Tab completes a unique command, Escape closes the panel, and other keys change nothing |
| TerminalChatInput.TerminalInput.SelectCommand | terminal-chat/components/terminal-input.tsx:148-154 | selecting a suggestion puts it into the input and hides the suggestions unless the effect shows them again for a changed text |
| TerminalChatInput.TerminalInput.CloseInterface | terminal-chat/components/terminal-input.tsx:156-162 | closing empties the input and closes the panel |
| TerminalChatInput.TerminalInput.HandleAction | terminal-chat/components/terminal-input.tsx:164-167 | a panel action is recorded and the panel closes with the input emptied |
| TerminalChatInput.TerminalInput.ChooseHistoryEntry | terminal-chat/components/terminal-input.tsx:191-198 | choosing a history entry ends with an empty input and no panel, because closeInterface empties the input after the entry is set |
| Upload.BlobPath | app/api/media/upload/route.ts:48-54 | the path starts with 'mplx/' and the user segment, and ends with '.' and the sniffed extension |
| Upload.PathUser | app/api/media/upload/route.ts:48 | the user segment is never empty: the user id when there is a non-empty one, otherwise 'anonymous' |
| Upload.Day | app/api/media/upload/route.ts:49 | the day is a prefix of the ISO time stamp with no 'T' in it |
| Upload.FileName | app/api/media/upload/route.ts:53 | the file name ends with '.' and the extension, and has no '/' when the extension has none |
| Upload.BlobPathSegments | app/api/media/upload/route.ts:48-54 | with no '/' in the user id, time stamp or extension, the path splits on '/' into exactly 'mplx', the user, the day and the file name |
| Upload.BlobPathDistinct | app/api/media/upload/route.ts:50-54 | uploads at different milliseconds get different paths, so one caller's uploads on one day never overwrite each other |
| Upload.Post | app/api/media/upload/route.ts:15-70 | 401 without a valid bearer token, else 400 without a file, else 413 above 4 MiB, else 415 unless the sniffed type is JPEG, PNG, WebP or GIF, else 500 when sniffing or storing fails; an upload succeeds exactly when every check passes, and then reports the stored path, the file's name and size, the sniffed type and the store's url |
| Upload.ExactLimitAccepted | app/api/media/upload/route.ts:29 | a file of exactly 4 MiB passes the size check |
| Upload.StoredUnderCaller | app/api/media/upload/route.ts:17-54 | a stored upload always comes from an authenticated caller, so its path is under the caller's own id and never 'anonymous' |
| UploadZone.Validate | components/features/journal/editor/file-upload-zone.tsx:41-58 | a file is accepted exactly when its type is accepted and its size is at most the limit in MiB; the type is checked first and the size second, each with its own message |
| UploadZone.TypeCheckedFirst | components/features/journal/editor/file-upload-zone.tsx:43-53 | a file failing both checks gets the type message, which differs from the size message |
| UploadZone.DefaultLimitInclusive | components/features/journal/editor/file-upload-zone.tsx:26-27 | with the defaults, an image of exactly 10 MiB is accepted and one byte more is rejected |
| UploadZone.FileUploadZone.constructor | components/features/journal/editor/file-upload-zone.tsx:24-30 | the zone takes the given types and limit or the four image types and 10 MiB, not hovering, with no error and nothing uploaded |
| UploadZone.FileUploadZone.DragOver | components/features/journal/editor/file-upload-zone.tsx:32-35 | dragging over sets hovering and changes nothing else |
| UploadZone.FileUploadZone.DragLeave | components/features/journal/editor/file-upload-zone.tsx:37-39 | leaving clears hovering and changes nothing else |
| UploadZone.FileUploadZone.ValidateAndUpload | components/features/journal/editor/file-upload-zone.tsx:41-58 | an accepted file is handed on and the error kept; a rejected one sets its message and nothing is handed on |
| UploadZone.FileUploadZone.Drop | components/features/journal/editor/file-upload-zone.tsx:60-73 | a drop ends hovering and clears the error; only the first dropped file is validated, and an empty drop hands nothing on |
| UploadZone.FileUploadZone.FileSelect | components/features/journal/editor/file-upload-zone.tsx:75-88 | selecting clears the error; with no file nothing else happens, otherwise the first file is validated and the input is reset |
| Ids.GenerateId | lib/utils.ts:11-13 | an id is the prefix, a dash and the random part, so the random part can be read back from it |
| Ids.GenerateIdInjective | lib/utils.ts:11-13 | two ids with the same prefix are equal exactly when their random parts are |
| Ids.UserIdFor | lib/utils.ts:15-24 | a stored non-empty id is returned as it is; otherwise a new non-empty 'user-' id |
| Ids.GetUserId | lib/utils.ts:15-24 | without a window the id is '' and storage is untouched; otherwise the id is UserIdFor's and it is stored under 'mem0_user_id' |
| Ids.UserIdStable | lib/utils.ts:18-23 | once an id is stored, every later call returns it, whatever random part it draws, and leaves storage as it is |
| WebStorage.StoredOr | hooks/useStreak.ts:30 | a stored non-empty text is read as it is, and a missing or empty one as the fallback |
| WebStorage.ParseInt | hooks/useStreak.ts:30 | after leading white space and an optional sign, a number is read exactly when a digit follows |
| WebStorage.IntToString | hooks/useStreak.ts:56 | a number's decimal text, with a minus sign exactly for a negative number |
| WebStorage.ParseIntToString | hooks/useStreak.ts:30-56 | reading back a count the hook wrote gives the same count |
| WebStorage.IntToStringInjective | components/features/spaces/Streak.tsx:37-43 | different numbers are written as different texts, so a recorded milestone is told apart from the others |

## Left out

- Language-model calls (plans, gap analyses, syntheses, chat streams) are left out. Their outputs are inputs to the model.
- The Exa and Tavily network clients and every `fetch` are left out. Each is a parameter mapping a request to a raw response, or to `None` when the call rejects. `Tavily.Search` and the Exa processing functions take the resolved answer: the services have no `catch`, so a rejection passes through them unchanged, and the callers' models (`ResearchRun`, `RouteSearch`, `AcademicSearch`) carry the `None`.
- DNS resolution in the proxy's host filter is left out. The answer is a parameter: a list of addresses, or a failure.
- The proxy's stream plumbing is not modelled: the reader and writer, the abort controller, the five-second fetch timeout and the logging. Only the byte-count rule and the response each branch produces are kept.
- The blob store's `put` and the multipart form parsing of the upload routes are left out. The stored url, or a failure, is a parameter. A form that fails to parse throws outside the handler's `try`, and the model does not cover that.
- Clock readings, `Date.now()` ids, `Math.random` and `crypto.randomUUID` values are parameters. So are the time zone (a `normalise` function to local midnight) and `new Date(text)`. The middleware's 1 % clean-up draw is a boolean parameter.
- Timers (`setTimeout`, `setInterval`) are explicit method calls: `Streak.StreakHook.Tick`, `MessageTyping.Typewriter.Tick`, `TerminalChat.TerminalChat.Respond` and `AddToJournal.AddToJournalButton.ResetAdded`.
- React rendering, animation, styling, toasts, focus handling and `console` logging are not modelled. Effects run right after the handler that changes their dependency.
- Writing the spaces, notebooks and journal entries to localStorage is not modelled. Malformed stored JSON counts as "nothing stored".
- The timer-driven auto-naming of spaces is left out, together with `resetToAutoNaming` (contexts/SpacesContext.tsx:128-200, 259-287). It depends on `lib/conversation-utils`, which is not part of this model. `exportSpace` produces a JSON download and is left out as I/O.
- Outside `MessageTyping`, strings are sequences of characters, so lengths and indices count code points, not UTF-16 code units. On text holding a character outside the Basic Multilingual Plane, JavaScript's `length`, `slice` and `substring` positions differ from the model's (for example the first eight units `Auth.UserId` keeps).
- `Strings.Lower` lower-cases ASCII letters only. JavaScript's `toLowerCase` also folds other scripts. Case-insensitive matches that depend on non-ASCII case are not captured.
- JavaScript numbers are doubles, and the model uses unbounded integers. `parseInt` of a very long digit string, which loses precision in JavaScript, is exact here.
- The stream progress in messages.tsx is computed in floating point. It is modelled as a floored integer division. Token estimates are left out.
- `Ids.GenerateId`: the random part is any string. The model does not bound it to the at most 13 base-36 digits `substring(2, 15)` gives.
- `Markdown.LeftAloneWithoutMarkup` is the only statement about the whole pipeline as written that holds for a whole class of texts. It requires text with no '$', no escaped delimiter and no three underscores in a row. With '$' or escapes present, the as-written order can leak placeholders, as the two Findings rows show.
- `MarkdownRoundTrip.InOrderRoundTrip` requires text without '_'. A text that itself spells a placeholder, such as "___LATEX_BLOCK_0___", is rewritten by the restores, so some restriction is needed. Text whose underscores spell no placeholder is not covered.
- `MessageTyping.Typewriter.constructor` and `MessageTyping.Typewriter.SetProps` require a positive speed. With a speed of 0 the source's timer never advances and never completes.
- MessageTyping.Typewriter.SetProps: the effect also restarts when the `onComplete` callback changes identity. The model has no function identity, so it restarts only on a new `content`, `speed` or `delay`.
- MessageTyping.Typewriter: the initial `delay` and the 32 ms between chunks are timer waits, modelled only by when `Tick` is called. The content is a sequence of UTF-16 code units, so a chunk boundary can fall inside a surrogate pair (`MessageTyping.HalfPairShown`); what the Markdown renderer then draws is not modelled.
- `Pickers.CommandPanel.SetFilter`: the source's filtering effect also reruns whenever the parent passes a new `commands` array, which resets the highlight. The model reruns it only on a new filter.
- `Exa` keeps the fields the processing decides on. Score, image, favicon, highlights and sub-pages are copied through unchanged by the source and are not modelled.
- `Tavily.getLastSearchStats` returns a constant record and is not modelled.
- `RouteSearch.InterimTotalBelowFinal` relates only the first gap-analysis progress report to the final total. The intermediate progress messages streamed to the client are not modelled.
- The editor's `forEach` loops assign `isFocused` on block objects shared with the previous state. The model works on values, so that aliasing of old and new state is not captured.
- Regular expressions in the Exa module are modelled for the patterns the source uses. `.` is taken to exclude the ECMAScript line terminators.
- The sidebar's search modal, menus, navigation and click-outside handling are not modelled. Neither are the journal editor's menu positioning, pasting, title field and 'Ask in spaces'.
- The MarkdownRenderer citation regexes and the KaTeX, marked and syntax-highlighter rendering are not modelled.

## Findings

| source | as written | input that shows it | evidently intended | confidence | as-written member | corrected member |
|---|---|---|---|---|---|---|
| app/api/media/proxy/route.ts:158-207 | The size check runs inside the stream after the 200 response has been returned. An oversized image is streamed and then aborted, so the documented 413 is never sent. | a public host whose upstream answers a 6 MiB `image/png` | a body over 5 MiB is answered with 413 | not executed | Proxy.OversizeImageIsStreamed | Proxy.GetWithSizeCheck |
| app/api/media/proxy/route.ts:226-237 | HEAD hands GET a plain `Request`, which has no `nextUrl`. GET reads `request.nextUrl.searchParams` before its `try`, so every HEAD throws and the framework answers 500. The copy in proxy-image/route.ts:224-235 does the same. | HEAD `?url=<any public image>` | HEAD answers like GET in validate-only mode | not executed | Proxy.HeadAsWrittenNeverValidates | Proxy.HeadReports |
| hooks/useStreak.ts:41 | The day difference floors the millisecond gap between two local midnights divided by 24 h. Across a change to summer time the gap is 23 h, so the next day counts as the same day. | a streak of 5, a visit on the day before the clocks go forward and the next on the day after | the consecutive day raises the streak to 6 | not executed | Streak.SpringForwardNotCounted | Streak.SpringForwardCounted |
| app/api/search/route.ts:690-698 | The follow-up branch's own `extractTweetId` always returns null. Every follow-up X result is dropped, even for a url that links a post. | a follow-up X search returning `https://x.com/a/status/123` | the result is kept as a post with id 123, as in the plan steps | not executed | RouteSearch.FollowUpStubDropsPost | RouteSearch.PostsAreTweets |
| components/terminal/terminal-input.tsx:109-114 | ArrowUp acts only while the input is empty. The first press fills the input with the newest entry, so every later press is ignored and older entries are never recalled. | history `["a", "b"]`, empty input, ArrowUp twice | the second press shows "a" | not executed | CommandLine.UpAsWrittenMissesOlder | CommandLine.EveryEntryRecalled |
| components/features/spaces/chat/markdown.tsx:67-80 | The escaped delimiters are restored before the `$$` blocks that captured them. An escape inside a block therefore comes back as placeholder text. | `$$a\[b$$` | `$$a\[b$$` comes back unchanged | not executed | Markdown.EscapeInBlockLeaks | Markdown.EscapeInBlockKept |
| components/features/spaces/chat/markdown.tsx:73-79 | The blocks are restored before the inline spans. An inline span that captured a block's placeholder is put back after the block restore has run, so that placeholder stays in the output. | `$a$$b$$c$` | `$a$$b$$c$` comes back unchanged | not executed | MarkdownRoundTrip.NestedBlockLeaks | MarkdownRoundTrip.InOrderRoundTrip |
