# Tulu front end: a Dafny model of its chat session and transcript logic

Tulu is a single-page front end for learning Turkish from TV scenes. Its one
source file, `frontend/src/App.js`, is mostly markup. The logic modelled here is:

- **The Tulu Tutor submit step** (`handleSubmit`), as a chat session:
  - The message log starts with the tutor's greeting.
  - A submit is refused on blank input or while a request is in flight.
  - An accepted submit logs the user's question at once, clears the input and marks the screen busy.
  - It sends the question together with the session token held so far.
  - On success it logs the answer and adopts the returned token.
  - On failure it logs a fixed apology and keeps the old token.
  - Either way it clears the busy flag.
- **The interactive transcript.** Each line is split into words on single spaces. A clicked word loses its `.`, `,`, `!` and `?` characters.
- **The word popup.** It shows the dictionary entry, or a placeholder record when the lookup fails.
- **Tab navigation.** Each navigation tab selects its screen, and any other value selects Home.

Files and modules:

- `wrappers.dfy` (`Wrappers`): `Option`, which stands for JavaScript's `null`.
- `js_string.dfy` (`JsString`): the two JavaScript string built-ins the logic depends on.
  - `trim`: ECMAScript white space and line terminators are written out code point by code point.
  - `split` with a one-character separator: its inverse `Join`, both round trips and the piece count are proved.
- `transcript.dfy` (`Transcript`): word splitting and cleaning.
- `word_lookup.dfy` (`WordLookup`): the placeholder record and the popup state of the Home screen, as class `WordPopup`.
- `navigation.dfy` (`Navigation`): the tab labels and `renderContent`.
- `tutor_protocol.dfy` (`TutorProtocol`): the chat session as values.
  - `Begin` and `Resolve` are the two segments of `handleSubmit`, before and after its `await`. `Submit` is the two together.
  - The `Settled`/`Awaiting` invariant says every question gets exactly one answer.
  - Multi-turn lemmas give the exact log and session token after any sequence of questions.
- `tutor_component.dfy` (`TutorComponent`): class `TuluTutor`.
  - Its fields are `messages`, `currentMessage`, `isLoading` and `sessionId`.
  - Its handler methods are proved to produce the states `TutorProtocol` prescribes.

Inputs of the model:

- The backend's reply is a parameter: `Answered(answer, session_id)`, or `Failed` for anything that throws.
- Dictionary lookups are a parameter too: `Found(entry)` or `NotFound`.
- Clock readings are parameters. A message's `id` and `timestamp` both come from one reading taken when it is created.
  - A user message gets `id = Date.now()` (`sentAt`).
  - A tutor message gets `id = Date.now() + 1` (`resolvedAt + 1`).

## Model

| member | source | states |
|---|---|---|
| `TutorProtocol.Initial` | frontend/src/App.js:209-219 | the screen mounts with the greeting alone (an `ai` message), an empty input, idle and without a session token, and this state is `Settled` |
| `TutorProtocol.CanSubmit` | frontend/src/App.js:232 | the guard lets a submit through exactly when the input has a non-white-space character and no request is in flight; its effect is stated by `SubmitGuard` and `AwaitingRefusesSubmit` |
| `TutorProtocol.RequestFor` | frontend/src/App.js:246-249 | a request goes out exactly when the guard passes, with `question` equal to the input as typed and `session_id` equal to the token held before the submit; across turns see `RequestEchoesLatestSession` |
| `TutorProtocol.Begin` | frontend/src/App.js:232-243 | the segment before `await` leaves the token alone, appends at most one message and keeps the old log as a prefix, and leaves busy set exactly when a request is in flight; exact effect in `SubmitGuard` and `BeginIsOptimistic`, invariant in `BeginAwaits` |
| `TutorProtocol.Resolve` | frontend/src/App.js:250-271 | the segment after `await` appends exactly one `ai` message (the answer on success, the fallback text on failure), clears busy, and replaces the token on success and keeps it on failure; invariant in `ResolveSettles` |
| `TutorProtocol.Submit` | frontend/src/App.js:230-272 | a whole submit keeps the old log as a prefix, grows it by two when the guard passes and by nothing otherwise, and never leaves busy set when it started idle; details in `SubmitAnswered`, `SubmitFailed`, `SubmitGrowsLog`, `SubmitKeepsSettled` |
| `TutorProtocol.EditInput` | frontend/src/App.js:355-361 | typing or a quick-question button changes only the input text, and not while busy (both widgets are disabled); it keeps `Settled` and leaves an awaiting state untouched |
| `TutorProtocol.AskLog` | frontend/src/App.js:230-272 | one typed-and-submitted question appends exactly its exchange (nothing when blank) and leaves the screen idle |
| `TutorProtocol.SubmitGuard` | frontend/src/App.js:232 | an all-whitespace input or a request in flight: no message, no request, no state change |
| `TutorProtocol.BeginIsOptimistic` | frontend/src/App.js:234-249 | an accepted submit appends the untrimmed input as a user message, empties the input and sets busy before any reply; the request carries that input and the session token held before the submit |
| `TutorProtocol.SubmitAnswered` | frontend/src/App.js:251-259 | on success the log gains the question then the answer, and the session token becomes the returned one, whatever it was before |
| `TutorProtocol.SubmitFailed` | frontend/src/App.js:260-268 | on failure the log gains the question then the fixed apology text, and the session token is unchanged |
| `TutorProtocol.SubmitGrowsLog` | frontend/src/App.js:241-271 | whatever the reply, the old log is a prefix of the new one, it grows by exactly two (a user then a tutor message) and busy is cleared |
| `TutorProtocol.SettledQuestionsAnswered` | frontend/src/App.js:241-268 | between submits every user message is immediately followed by a tutor message |
| `TutorProtocol.BeginAwaits` | frontend/src/App.js:241-243 | the first segment of an accepted submit leaves exactly one question awaiting its answer |
| `TutorProtocol.ResolveSettles` | frontend/src/App.js:251-271 | the second segment answers the awaiting question and clears busy |
| `TutorProtocol.AwaitingRefusesSubmit` | frontend/src/App.js:232 | while a request is in flight, another submit sends nothing and changes nothing |
| `TutorProtocol.SubmitKeepsSettled` | frontend/src/App.js:230-272 | a whole submit preserves the question/answer pairing of the log |
| `TutorProtocol.ConverseLog` | frontend/src/App.js:230-272 | after any sequence of typed questions the log is the old log followed by one question/answer pair per non-blank question, in order |
| `TutorProtocol.ConverseSession` | frontend/src/App.js:246-259 | after any sequence of questions the session token is the one returned by the last answered question, or the earlier one if none was answered |
| `TutorProtocol.ConverseKeepsSettled` | frontend/src/App.js:230-272 | the pairing invariant holds after any conversation |
| `TutorProtocol.RequestEchoesLatestSession` | frontend/src/App.js:246-249 | each request carries the token of the last answered question before it, null on a fresh session |
| `TutorProtocol.FirstAnswerStartsSession` | frontend/src/App.js:209-259 | a fresh session asked "Merhaba" and answered "Hello" with token "abc" shows greeting, question, answer and holds token "abc" |
| `TutorProtocol.UnreachableBackendKeepsSession` | frontend/src/App.js:260-268 | with token "abc", a failed "test" logs the question and the apology text and keeps "abc" |
| `TutorComponent.TuluTutor.constructor` | frontend/src/App.js:209-219 | the component state on mount |
| `TutorComponent.TuluTutor.ChangeInput` | frontend/src/App.js:355-361 | typing replaces the input text, except while busy (the input is disabled) |
| `TutorComponent.TuluTutor.PickExample` | frontend/src/App.js:384-393 | a quick-question button puts its example question into the input, except while busy |
| `TutorComponent.TuluTutor.BeginSubmit` | frontend/src/App.js:230-249 | the state after the segment before `await` is `Begin` of the old state, the returned request is the one sent, and the session invariant holds |
| `TutorComponent.TuluTutor.ResolveSubmit` | frontend/src/App.js:250-271 | the state after the segment after `await` is `Resolve` of the old state, and the log is settled |
| `TutorComponent.TuluTutor.HandleSubmit` | frontend/src/App.js:230-272 | a whole submit yields `Submit` of the old state and keeps the session invariant |
| `JsString.Trim` | frontend/src/App.js:232 | `s.trim()` is no longer than `s` and neither starts nor ends with JavaScript white space |
| `JsString.TrimCutsOnlyWhitespace` | frontend/src/App.js:232 | `s.trim()` is a contiguous piece of `s`, and everything cut away on either side is white space |
| `JsString.TrimEmptyIffAllWhitespace` | frontend/src/App.js:232 | `s.trim()` is empty exactly when every character of `s` is JavaScript white space |
| `JsString.IsBlank` | frontend/src/App.js:232 | `!s.trim()` (the empty string is the only falsy string) holds exactly when every character of `s` is white space; proved via `TrimEmptyIffAllWhitespace` |
| `JsString.Split` | frontend/src/App.js:148 | splitting yields at least one piece and no piece contains the separator |
| `JsString.JoinSplit` | frontend/src/App.js:148 | joining the pieces with the separator restores the line |
| `JsString.SplitJoin` | frontend/src/App.js:148 | splitting separator-free pieces joined by the separator gives back the pieces |
| `JsString.SplitCount` | frontend/src/App.js:148 | a line yields one more word than it has spaces |
| `Transcript.CleanWord` | frontend/src/App.js:151 | a cleaned word is no longer than the raw one and contains none of `. , ! ?` |
| `Transcript.CleanConcat` | frontend/src/App.js:151 | cleaning works character by character and keeps the order of what remains |
| `Transcript.CleanFixpoint` | frontend/src/App.js:151 | a word is unchanged by cleaning if and only if it contains none of `. , ! ?` |
| `Transcript.CleanIdempotent` | frontend/src/App.js:151 | cleaning twice is cleaning once |
| `Transcript.CleanKeepsOthers` | frontend/src/App.js:151 | every other character is kept as often as it occurs; the four punctuation marks all vanish |
| `Transcript.Words` | frontend/src/App.js:148 | a line shows one word more than it has spaces, and the words joined by spaces are the line |
| `Transcript.ClickedWord` | frontend/src/App.js:148-151 | a clicked word has no space and no `. , ! ?` and is its own cleaning |
| `WordLookup.FallbackEntry` | frontend/src/App.js:67-72 | the placeholder record names the word asked for, with meaning "Word not found in dictionary" and "N/A" for pronunciation and example |
| `WordLookup.ShownEntry` | frontend/src/App.js:60-73 | a successful lookup shows the backend's record; a failed one shows a record naming the requested word with the placeholder meaning, pronunciation and example |
| `WordLookup.FailedClickNamesCleanWord` | frontend/src/App.js:148-151 | a failed lookup of a clicked transcript word shows that word cleaned of punctuation |
| `WordLookup.WordPopup.constructor` | frontend/src/App.js:40-41 | no word selected, no record, popup hidden |
| `WordLookup.WordPopup.HandleWordClick` | frontend/src/App.js:60-74 | the clicked word is selected, the shown record is `ShownEntry` of the lookup, and the popup is visible exactly when the word is non-empty |
| `WordLookup.WordPopup.Close` | frontend/src/App.js:167-198 | closing clears the selected word, keeps the record and hides the popup |
| `Navigation.TabLabel` | frontend/src/App.js:17 | every screen's label is one of the four navigation tabs |
| `Navigation.RenderContent` | frontend/src/App.js:559-572 | each of the four tabs selects the screen it labels; every other value selects Home |
| `Navigation.TabsSelectDistinctScreens` | frontend/src/App.js:17-28 | each screen is reached by its own tab, and different tabs select different screens |
| `Navigation.StartsOnHome` | frontend/src/App.js:557 | the application opens on the Home screen |

## Left out

- HTTP transport (`axios` calls to `/scenes`, `/word/{w}` and `/tutor`): the outcome of each call is a parameter; the backend base URL is configuration.
- `fetchScenes` and the scene picker: network plumbing plus choosing `scenes[0]`, with no logic to state.
- Concurrency: the only event modelled between the two segments of a submit is another (refused) submit or a (disabled) edit. React's batching of functional `setState` updates is modelled as sequential updates.
- The lookup in flight: `WordPopup.HandleWordClick` models a click whose lookup settles before anything else happens. The popup renders only the stored record's fields, and `selectedWord` only decides visibility. So while a lookup is pending after an earlier one settled, the popup already reopens showing the previous record, previous word included.
- WordLookup.WordPopup.HandleWordClick: does not cover overlapping lookups. If the popup is closed and a second word is clicked while the first lookup is still pending, the replies can settle out of order. The last one to settle wins, so the popup can show the record for the first word while the second is selected. The model has no pending lookups, so this case is not expressible.
- Clocks: `Date.now()` and `new Date()` are caller-supplied integers. The source reads the clock twice per message, once for `id` and once for `timestamp`; the model uses one reading for both, a simplification no contract depends on. Id uniqueness of messages (React keys) is not stated.
- Malformed 2xx replies: the source fails when anything in the `try` block throws. A 2xx reply whose body is JSON `null` makes `response.data.answer` throw, which is `Failed` here. An empty body arrives as `""` and behaves like a body lacking `answer`. A 2xx reply with a body lacking `answer` or `session_id` does not throw: it would log `undefined` and store `undefined` as the token. Such a reply is not expressible with `TutorReply`.
- Strings are sequences of Unicode code points; JavaScript strings are UTF-16 units. Splitting on a space, removing `.,!?` and trimming (all of its characters are in the Basic Multilingual Plane) give the same results either way.
- Lifetime of the chat state: `renderContent` mounts the tutor screen only while its tab is active. Switching tabs unmounts it, which discards `messages` and `sessionId`. Coming back mounts `Initial` again: the greeting alone, and the next request carries `session_id: null` even after answered turns. A reply that settles after the unmount changes nothing, and its question is lost with the log. `Converse`, `ConverseLog`, `ConverseSession` and `RequestEchoesLatestSession` therefore hold within one mount only; session threading does not survive a tab switch. The Home screen's popup state is lost the same way.
- Scrolling to the newest message, the typing indicator, the video element, all markup and styling, console logging and `preventDefault`.
- The Store and Visit Turkey screens: static placeholders with no logic.
