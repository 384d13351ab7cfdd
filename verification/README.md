# NIV Scholar — a Dafny model of the chat core

NIV Scholar is a single-page Bible-study assistant. A chat panel sends the
reader's question, together with the verse under discussion, to a
completion service and reveals the scholar's reply character by character.
It turns scripture references in the reply into clickable anchors and lets
the reader save a reply to a study notebook kept in browser storage. A
serverless proxy composes the message list for the completion API and
guards the request.

This project models that core as pure Dafny functions over immutable
datatypes, and proves what each step promises:

- `ServerChat` (server.dfy) is the proxy `api/chat.js`. It covers the history
  filter and message composition, and the handler's fixed order of guards:
  method, then credential, then body, then prompt, then the upstream call.
  It also covers how the upstream outcome becomes the HTTP reply.
- `ScholarApi` (client_api.dfy) is the browser client `js/api.js`. It covers
  the stored persona turn and the conversation log, the verse-annotated
  prompt, the result of one completion attempt, the fallback replies and the
  offline `simulateResponse`.
- `ChatUi` (chat_ui.dfy) is the panel in `js/chat.js`. It covers the send
  guard and the `isTyping` lifecycle, the transcript, the welcome greeting,
  the verse context, looking up a clicked reference, and saving a reply.
- `Typewriter` (typewriter.dfy) is the reveal interval of `typeMessage`.
- `References` (references.dfy) covers the reference pattern, applied
  globally, the anchor rendering and `lookUpVerse`.
- `Notebook` (notebook.dfy) covers the insight store and the notebook view.
- `VerseSelector` (selector.dfy) covers the book, chapter and verse selects
  of `js/main.js` and the hand-off of a chosen verse to the panel.
- `Canon` (canon.dfy) holds the 66 book names and the simplified chapter
  and verse tables.
- `JsText` (jstext.dfy) models the JavaScript string primitives the code
  relies on: `trim` and the `\s` whitespace set, `split` and `join` on one
  character, and the decimal form of a number in a template literal.
- `Common` (common.dfy) holds the shared chat turn, the verse context with
  its label, and the two persona texts. The proxy's literal and the
  client's hold the same lines, but they are indented by 4 and by 12 spaces,
  so the strings differ.

The network, the clock, `Math.random` and the timers are parameters. An
upstream outcome, an ISO timestamp, a draw index or an explicit tick stands
for each of them.

Three behaviours of the code are modelled as written, even where a reader
might expect otherwise:

- The panel clears `isTyping` as soon as the reveal of a reply *starts*.
  `typeMessage` returns before its interval finishes, so a second message
  can be sent while the first reply is still being typed (`CompleteSend`).
- Every click on a reply's save control appends another insight. Nothing is
  deduplicated (`SaveClickTwice`).
- Choosing a verse replaces the verse context with the selected book,
  chapter and verse. It also announces the new context.

## Model

| member | source | states |
|---|---|---|
| ServerChat.KeptTurns | api/chat.js:28-34 | at most one turn per history entry, and every kept turn has a non-empty role and content |
| ServerChat.KeptTurnsMembers | api/chat.js:29-33 | a turn reaches the message list if and only if some history entry is an object with a truthy role and content that yields it |
| ServerChat.KeptTurnsAppend | api/chat.js:29-33 | the filter keeps entries in their original order: it distributes over concatenation of histories |
| ServerChat.KeptTurnsSingle | api/chat.js:30-32 | a single entry is kept, as just its role and content, exactly when it passes the truthiness check |
| ServerChat.BuildMessages | api/chat.js:25-41 | the proxy's persona turn comes first, then the valid history in order, then the prompt as a user turn only when non-empty; a non-array history contributes nothing |
| Common.IndentsDiffer | api/chat.js:4-22 | whatever their later lines hold, a persona laid out with the proxy's 4-space indentation differs from one laid out with the client's 12 spaces |
| Common.PersonasDiffer | js/api.js:15-36 | the system turn the client stores and the one the proxy builds are different turns |
| ServerChat.EmptyHistoryMessages | api/chat.js:25-41 | with no usable history the list is exactly the persona and the user prompt |
| ServerChat.ReplyMessage | api/chat.js:99-105 | the 200 message is never empty: the trimmed first-choice content when there is some, the fixed placeholder otherwise |
| ServerChat.Handle | api/chat.js:55-110 | the guards run in order (405 with Allow, 500 for a missing key before the body is read, 400 for an empty prompt); the upstream is called iff every guard passes, with the composed messages, the key, the model or its default, at most 800 tokens and temperature 0.7; a completed call answers 200 with exactly the reply message and the time; a refusal keeps its status and answers "OpenAI error: " and the status text, with the body text as details; an unreadable body or a broken call answers 500 "Unexpected server error" with the reason as details |
| ServerChat.MethodGuardFirst | api/chat.js:56-59 | a non-POST reply does not depend on the environment, the body or the upstream |
| ServerChat.CredentialGuardBeforeBody | api/chat.js:62-65 | a missing key gives the same 500 whatever the body and the upstream |
| ServerChat.PromptGuardBeforeUpstream | api/chat.js:70-72 | an empty prompt gives 400 whatever the upstream would have answered |
| ServerChat.RateLimitRelayed | api/chat.js:91-97 | an upstream 429 reaches the client as 429 with the upstream status text and body |
| ScholarApi.BuildUserPrompt | js/api.js:94-102 | without a verse context the prompt is the message; with one, the message is prefixed by "In the context of", the verse label and a comma |
| ScholarApi.BuildUserPromptInjective | js/api.js:94-102 | under a fixed context, different messages give different prompts |
| ScholarApi.FallbackResponse | js/api.js:104-112 | the fallback is one of the three canned replies |
| ScholarApi.SendMessage | js/api.js:39-92 | the user turn is logged before the request, which carries the client's model, the stored persona turn and the whole log, at most 1000 tokens, temperature 0.7 and no streaming; a reply adds an assistant turn and a success result; any failure keeps only the user turn and yields the error text and a fallback; the stored persona is unchanged |
| ScholarApi.SendKeepsLogWellFormed | js/api.js:42-76 | the log holds only user and assistant turns and every assistant turn follows a user turn; no system turn, and so no persona, ever enters the log |
| ScholarApi.ClearConversation | js/api.js:114-116 | the log is emptied and the stored persona is kept |
| ScholarApi.SendAfterClear | js/api.js:114-120 | after a reset the next request is exactly the stored persona and the new prompt, and the log restarts with that prompt |
| ScholarApi.SendCounts | js/api.js:42-76 | one call adds exactly one user turn, and one assistant turn exactly when it succeeds |
| ScholarApi.RunCounts | js/api.js:39-92 | over any sequence of calls the log gains one user turn per call and one assistant turn per success, and stays well formed |
| ScholarApi.SimulateResponse | js/api.js:123-141 | the offline reply is always a simulated success stamped with the given time and is one of the five canned replies |
| ScholarApi.SimulateResponseInputs | js/api.js:126-134 | the offline reply ignores the verse context, and only the first canned reply depends on the message, which it quotes |
| JsText.Trim | js/chat.js:49 | the result is the input with its whitespace prefix and suffix removed, its ends are not whitespace, and it is empty exactly when the input is all whitespace |
| JsText.TrimIdempotent | js/chat.js:49 | trimming a trimmed message changes nothing |
| JsText.JoinSplit | js/chat.js:201-202 | joining the space-separated words of a reference gives the reference back |
| JsText.SplitJoin | js/chat.js:201-204 | splitting a join of separator-free pieces gives the pieces back |
| JsText.DecimalRoundTrip | js/main.js:169-173 | the decimal text of an option's number reads back as that number |
| Canon.ChapterCount | js/main.js:159-166 | a listed book gets its table count and any other book 10; the count is positive |
| Canon.VerseCount | js/main.js:179-185 | a listed book and chapter get the table count and anything else 25; the count is positive |
| Canon.CanonShape | js/main.js:129-146 | 66 books: the 39 Old Testament names from Genesis to Malachi, then the 27 New Testament names from Matthew to Revelation |
| Canon.BookInitials | js/main.js:129-146 | every book name is non-empty and starts with a capital letter or a digit 1-3, so a word boundary before a name depends only on the character before it |
| References.DigitRun | js/chat.js:133 | the greedy `\d+` run: only digits, and it stops at the end or at a non-digit |
| References.TailAt | js/chat.js:133 | after a book name, the `\s\d+:\d+(?:-\d+)?` tail matches exactly when some prefix of the rest is such a tail, and the match ends where the longest one does, as the greedy quantifiers take it; the matched text is the book plus its separator, chapter and verse |
| References.GreedyTailEnd | js/chat.js:133 | a tail exists exactly when the whitespace, a digit run, ':' and a digit run are there; it then ends at the end of the greedy runs, optionally extended by '-' and digits, and that end is the longest tail |
| References.TailFound | js/chat.js:133 | the greedy runs always form a tail |
| References.TailLongest | js/chat.js:133 | any tail needs the whitespace, the chapter digits, the ':' and verse digits, and ends no later than the greedy end |
| References.GreedyTailIsLongest | js/chat.js:133 | the greedy end is the longest tail |
| References.NoTail | js/chat.js:133 | without the whitespace, chapter digits, ':' and verse digits there is no tail at all |
| References.BookAt | js/chat.js:133 | one alternative of the pattern matches at a position exactly when the name is there and some tail follows it, and its match ends at the longest tail |
| References.FirstBookMatch | js/chat.js:133 | a match from the alternation is well shaped, names one of the listed books and ends at the longest tail after that name |
| References.MatchAt | js/chat.js:133 | a match starts at a word boundary, is well shaped, names a canonical book and ends at the longest tail |
| References.MatchAtComplete | js/chat.js:133 | any listed name at a word boundary that some tail follows is matched: the backtracking alternation misses no candidate |
| References.Scan | js/chat.js:133-136 | the global scan returns ordered, non-overlapping matches, each starting where the pattern matches, and every position it skips has no match |
| References.RenderSpans | js/chat.js:136-138 | rendering keeps the text between matches and wraps each match in an anchor whose label is exactly the matched text and which sits where the match starts |
| References.Linkify | js/chat.js:131-139 | stripping the anchors gives the reply back, the anchor labels are the scan's matches in order, and each anchor sits at its match's start |
| References.ExampleScan | js/chat.js:133-136 | in "see Genesis 1:1 and Exodus 20:3-17." the global scan finds exactly the two references, the second with its whole range |
| References.LinkifyExample | js/chat.js:131-139 | that reply gets the anchors "Genesis 1:1" at offset 4 and "Exodus 20:3-17" at offset 20, and no others |
| References.AnchorLookUpIn | js/chat.js:136 | there is one anchor per match, and the k-th anchor's handler names the text of the k-th match; when a plain space follows the book name, clicking it sets exactly the matched book, chapter and verse |
| References.LookUpVerse | js/chat.js:199-204 | the chapter never contains ':', and neither does the verse when there is one |
| References.LookUpVerseInvertsLabel | js/chat.js:199-206 | lookUpVerse inverts the "book chapter:verse" label whenever chapter and verse contain neither space nor colon; the book may contain spaces |
| References.LookUpVerseOfMatch | js/chat.js:199-204 | looking up a matched reference gives back its book, chapter and verse |
| References.LookUpVerseExamples | js/chat.js:199-204 | "1 John 4:9" gives book "1 John", chapter 4, verse 9; "Ephesians 2:8-9" keeps the range "8-9" as the verse |
| Typewriter.Start | js/chat.js:91-117 | a reveal starts empty, consistent and unfinished |
| Typewriter.Tick | js/chat.js:117-128 | each tick appends the next character while characters remain; the tick after the last one finishes the reveal without changing the text; a finished reveal does not change |
| Typewriter.TicksAdvance | js/chat.js:117-128 | k ticks move the index to min(i+k, length), and the reveal is finished exactly when more ticks were given than characters remained |
| Typewriter.FinishedStays | js/chat.js:123-124 | once the interval is cleared, further ticks change nothing |
| Typewriter.RevealAfter | js/chat.js:117-128 | after k ticks the first min(k, length) characters are shown, and the reveal is finished exactly when k exceeds the length |
| Typewriter.VisibleTextIsPrefix | js/chat.js:119-125 | the visible text is always a prefix of the reply and is the whole reply once linked |
| Typewriter.RevealFinishes | js/chat.js:117-128 | length+1 ticks always finish the reveal with the whole reply visible |
| Notebook.StoredInsights | js/chat.js:163 | a missing storage key reads as the empty list |
| Notebook.SaveInsight | js/chat.js:153-165 | a save appends exactly one insight carrying the content, the current verse, the time as id and ISO timestamp, and type "insight"; earlier insights and all other storage keys are unchanged |
| Notebook.SaveTwiceStoresTwo | js/chat.js:163-165 | two saves of the same content store two insights in order: nothing is deduplicated |
| Notebook.CardFor | js/main.js:307-319 | a card shows the content and date, and a verse label exactly when the insight has a verse context |
| Notebook.DisplaySavedInsights | js/main.js:291-321 | nothing without a container, the empty-notebook state for an empty list, otherwise one card per insight in order |
| Notebook.LoadSavedContent | js/main.js:286-304 | with no container nothing is shown; with no stored key or an empty stored list the notebook shows its empty state; otherwise one card per stored insight, in order, each the card of that insight |
| Notebook.SaveThenLoad | js/main.js:286-320 | after a save, loading shows the earlier cards unchanged followed by the new insight's card |
| ChatUi.NewChat | js/chat.js:7-14 | a new panel has a fresh API client, no verse context, an empty input, transcript and notice list, is not typing, and works over the page's storage |
| ChatUi.Welcome | js/chat.js:182-191 | when the one-second timer fires, one of the three greetings starts revealing as a new scholar entry after the existing ones; isTyping and everything else are unchanged |
| ChatUi.WelcomeLeavesSendOpen | js/chat.js:50 | a send is accepted or ignored just as it would be without the greeting: the greeting never sets isTyping |
| ChatUi.SendBeforeWelcome | js/chat.js:48-76 | a message sent before the greeting's timer fires is answered first, and the greeting lands after the user entry and its reply |
| ChatUi.BeginSend | js/chat.js:48-58 | a send is ignored exactly when the trimmed input is empty or a reply is pending; otherwise the input is cleared, the trimmed text is added as a user entry and isTyping is set |
| ChatUi.CompleteSend | js/chat.js:60-75 | success starts the reveal of the reply, a failure adds its error text, a thrown error adds the fixed connection notice; isTyping is cleared on every path and nothing else changes |
| ChatUi.Send | js/chat.js:48-76 | a send with the offline responder adds the user entry, then a fresh reveal of the drawn canned reply, and clears the input; the API client's log, the verse context, the storage and the notices are untouched |
| ChatUi.NoSendWhileTyping | js/chat.js:50 | while a reply is pending, a second send does nothing |
| ChatUi.TypingLifecycle | js/chat.js:171-179 | isTyping is set between the two halves of a send and cleared when it settles |
| ChatUi.TickEntry | js/chat.js:117-128 | one tick advances only the reveal of the given entry |
| ChatUi.TickEntryTimes | js/chat.js:117-128 | k ticks of one entry act on its reveal only and leave every other entry as it was; on an entry that is not a scholar reply they change nothing at all |
| ChatUi.SetVerseContext | js/chat.js:194-197 | the context becomes exactly the given verse and a "Now discussing" notice with its label is shown; nothing else changes |
| ChatUi.LookUpVerse | js/chat.js:199-212 | the context is set from the parsed reference, a "Now discussing" notice is added and the contextual reply starts revealing; nothing else changes, the input and storage included |
| ChatUi.LookUpSetsLabelledVerse | js/chat.js:199-206 | looking up a well-formed label sets exactly the verse it names |
| ChatUi.SaveClick | js/chat.js:141-151 | a click does something only once the reveal has attached the listener; it then stores the entry's text exactly, with the current verse, leaves every other storage key as it was, and shows the saved notice |
| ChatUi.SaveClickTwice | js/chat.js:143-145 | two clicks on the same reply store it twice |
| ChatUi.SendRevealSave | js/chat.js:60-150 | a sent message, revealed to the end and saved, stores the canned reply that answered it |
| ChatUi.WelcomeRevealSave | js/chat.js:117-191 | the greeting, revealed to the end and saved, is stored as an insight like any reply |
| VerseSelector.BookOptions | js/main.js:128-155 | the placeholder, then one option per canonical book, valued and captioned by its name |
| VerseSelector.BookOptionsCanon | js/main.js:129-146 | 67 options, with the Old Testament names before the New in canonical order |
| VerseSelector.NumberedOptions | js/main.js:167-174 | the placeholder followed by options 1..count valued and captioned by their decimal text |
| VerseSelector.NumberedOptionsAscending | js/main.js:169-174 | the option values read back as 1, 2, ..., count, with no repeats |
| VerseSelector.ChapterOptions | js/main.js:157-175 | one more option than the book's table count, or than 10 when unlisted; the placeholder first and then the numbers in order |
| VerseSelector.VerseOptions | js/main.js:177-194 | one more option than the chapter's table count, or than 25 when unlisted; the placeholder first and then the numbers in order |
| VerseSelector.OptionCounts | js/main.js:159-185 | Psalms has 150 chapters, Ruth the default 10; John 3 has 36 verses, John 2 and Ruth 1 the default 25 |
| VerseSelector.InitialSelector | js/main.js:80-81 | after setup the books are listed and nothing is selected |
| VerseSelector.ChooseBook | js/main.js:84-90 | a non-empty book repopulates the chapters and resets the verses to the placeholder; the placeholder choice changes only the book value |
| VerseSelector.ChooseChapter | js/main.js:93-99 | with a book and chapter chosen the verses are repopulated; otherwise only the chapter value changes |
| VerseSelector.ContextualMessages | js/main.js:114-118 | there are three contextual replies |
| VerseSelector.ContextualMessagesNameVerse | js/main.js:114-118 | every contextual reply is a lead, the verse label and a tail |
| VerseSelector.ChooseVerse | js/main.js:102-125 | a non-empty verse with the panel present sets the context to the selected book, chapter and verse, adds the "Now discussing" notice and starts revealing the drawn contextual reply, leaving the input and storage as they were; otherwise only the verse value changes |
| VerseSelector.ChooseInTurn | js/main.js:84-125 | choosing a book, a chapter and a verse in turn lists that chapter's verses and discusses exactly that verse |
| VerseSelector.LoadAsWritten | js/chat.js:258-264 | the window property is copied before the panel exists, so it stays unset while the script binding holds the panel |
| VerseSelector.LoadWired | js/chat.js:258-264 | the window property refers to the constructed panel |
| VerseSelector.VerseChoiceLostAsWritten | js/main.js:109 | with the wiring as written, choosing a verse never reaches the panel |
| VerseSelector.VerseChoiceReachesChatWired | js/main.js:109-110 | with the panel wired, choosing a verse sets exactly the selected verse as the context |

## Left out

- DOM work is left out: element creation, CSS classes, scrolling, the textarea auto-resize, the notification fade timers and the typing indicator's display. Only the state these steps change is modelled.
- `escapeHtml` is left out. User and error text are kept raw, because the model holds text rather than markup.
- `fetch`, `response.json()` and `parseRequestBody` are left out. Their outcomes are inputs: an `Upstream` or `Fetched` value and a parsed or unreadable body.
- The JSON encoding of request bodies and of the storage value is left out. Storage holds decoded insight lists.
- `Date.now()`, `toISOString()`, `Math.random()` and `setTimeout`/`setInterval` are left out. Times are parameters and random choices are draw indices. Each interval tick is an explicit `Tick` step, and the welcome's one-second timer is the explicit `Welcome` step, which may come before or after a send.
- Notebook.CardFor: the card shows the stored ISO timestamp rather than `toLocaleDateString()`, because locale date formatting is outside the model.
- Preferences, navigation, the topic carousel, charts and animations are left out. They are presentation and do not touch the chat state.
- `getConversationHistory` is modelled as a plain accessor without a contract of its own. SendAfterClear uses it.
- Non-string `prompt`, `role` or `content` values in a request body are left out. Strings, absent fields and non-object history entries are modelled. Other JSON types are not.
- JavaScript strings are UTF-16 code units, while Dafny's `char` is a Unicode scalar value. Lengths and the reveal's per-character steps differ for text outside the Basic Multilingual Plane.
- The first contents of the chapter and verse selects come from the page markup, which is not part of this model. `InitialSelector` assumes the placeholder option alone.
- ChatUi.Send: the panel always answers through `simulateResponse`, as the code does. The path through `sendMessage` is modelled on the client (`ScholarApi.SendMessage`) and joined to the panel through `CompleteSend`.
- VerseSelector.ContextualMessages: its own contract only fixes the count of three. What each reply says is stated by ContextualMessagesNameVerse.
- References.AnchorLookUpIn: an anchor whose separator is a line terminator has an inline handler that does not compile, so clicking it does nothing. The pattern's `\s` matches '\n' and '\r', and the replacement puts the match inside a single-quoted string literal in the `onclick` attribute (js/chat.js:136). A quoted reply such as canned reply 0 for the input "John\n3:16" produces such an anchor. The lemma's lookup clause covers only a plain-space separator.
- References.LookUpVerse: its own contract only constrains the shape of the pieces. The inversion of a label is stated by LookUpVerseInvertsLabel, and lookup of a matched anchor by AnchorLookUpIn.

- ScholarApi.SendMessage: a 2xx response whose first choice has a null or missing `content` is not modelled. The source logs that value as an assistant turn and returns it as a successful message (js/api.js:70-82), but a `Turn` and a `Reply` hold strings only. A response without a first choice throws, and that case is the `Thrown` outcome.
- ScholarApi.RunCounts: calls are assumed to run one after another. `sendMessage` awaits between logging the user turn and logging the reply (js/api.js:42-76), and nothing stops a second call from starting in that gap. Overlapping calls would log two user turns before their replies. Neither RunCounts nor SendKeepsLogWellFormed covers that order.
- ChatUi.LookUpVerse: the 500 ms `setTimeout` before the contextual reply (js/chat.js:209-211) is collapsed. The reply starts revealing in the same step as the context change, so a send or another lookup that lands inside the delay is not modelled.
- VerseSelector.ChooseVerse: the 500 ms `setTimeout` before the contextual reply (js/main.js:113-122) is collapsed in the same way as in LookUpVerse.
- Replies are assumed to contain no HTML markup. The linkified reply is assigned to `innerHTML` (js/chat.js:138), and a save reads the entry's `textContent` back (js/chat.js:144). Markup in a reply would be parsed, so its saved text would differ from the reply. Typewriter.VisibleTextIsPrefix and ChatUi.SaveClick hold only for replies without markup.

## Findings

| source | as written | input that shows it | evidently intended | confidence | as-written member | corrected member |
|---|---|---|---|---|---|---|
| js/chat.js:258-264 | `window.chatInterface` is assigned from the `chatInterface` binding when the script runs. The panel is only built later, on `DOMContentLoaded`, so the property stays undefined and the selector's `if (window.chatInterface)` never passes. | Load the page, then choose Genesis, 1, 1. No verse context is set and no contextual reply appears. | The property refers to the constructed panel, so a chosen verse becomes the discussed verse. The comment says so. | medium; not executed, and the page markup, which is not part of this model, could set the property another way | VerseSelector.VerseChoiceLostAsWritten | VerseSelector.VerseChoiceReachesChatWired |
