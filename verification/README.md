# Chat slice, stream fold and contact-form validator

A verified Dafny model of the logic inside a small React chat client that
streams replies from a large-language-model endpoint:

- **ChatStore** (`chat_store.dfy`): the Redux `chat` slice. Its state is an
  ordered list of messages, a request status (`idle`, `loading`,
  `succeeded`, `failed`) and the last error. Six reducers change it:
  `addMessage`, `updateLastMessage` and `clearMessages`, plus the `pending`,
  `fulfilled` and `rejected` lifecycle cases of the `fetchAIResponse` thunk.
  Each reducer is a pure state-to-state function (`OnAddMessage`, …).
  `Reduce`/`ReduceAll` dispatch actions in order.
- **StreamFold** (`stream_fold.dfy`): the body of `fetchAIResponse`.
  - It first checks the API key and endpoint, then the HTTP status.
  - It then folds over the decoded response chunks. Each chunk is split on
    `'\n'` by itself. Only lines starting with `data: ` are parsed.
  - For each truthy `content` that converts to a string, its string form is appended to
    `fullResponse`, and the new value is dispatched as an
    `updateLastMessage` payload. A truthy content whose string form is
    empty (`[]`) dispatches the unchanged value again.
  - A payload that is the JSON string `"[DONE]"` returns early.
  - A payload that fails to parse is skipped.
  - `JSON.parse` together with the `choices[0].delta?.content` access is
    an abstract `Classifier` from a payload string to a `Frame`.
  - The fold is related to independent reference definitions: `ChunkFrames`
    (the data-line frames in order), `BeforeDone`, `Contents` and `Concat`.
- **ChatFlow** (`chat_flow.dfy`): one press of the send button.
  - The UI dispatches `addMessage` with the user's message, then the thunk.
  - The thunk dispatches `pending`, one update per streamed payload, then
    `fulfilled` or `rejected`.
- **ContactForm** (`contact_form.dfy`): `validate`, which maps each failing
  field to its message.
  - The email check is the case-insensitive pattern
    `^[A-Z0-9._%+-]+@[A-Z0-9.-]+\.[A-Z]{2,4}$`.
  - The model gives it two readings: a direct test (`IsValidEmail`) and the
    pattern read atom by atom (`MatchesPattern`). A lemma proves they agree.
  - It is a plausibility filter, not RFC 5322.
- **Text** (`text.dfy`): JavaScript `split` on one character (with its
  inverse `Join`), `startsWith`, and string concatenation.
- **Wrappers** (`wrappers.dfy`): `Option`, for JavaScript values that may be
  `undefined`.

Behaviours of the code the model keeps, though a reader might expect otherwise:

- `clearMessages` resets only `messages`. `status` and `error` stay as they
  were; they are not reset to `idle`.
- Only a payload that parses to the JSON *string* `"[DONE]"` stops the
  stream. The bare `data: [DONE]` line is not valid JSON, so it is skipped
  like any other parse failure (`OnlyQuotedSentinelStops`).
- `rejected` leaves the placeholder's `streaming` flag set. So two messages
  can carry the streaming flag at once: in `StreamingSurvivesRejection`,
  two rejected sends leave two streaming messages.
- A line split across two chunks is not reassembled (`ChunkBoundaryLosesLine`).

## Model

| member | source | states |
|---|---|---|
| ChatStore.OnAddMessage | src/store/chatSlice.js:91-93 | the payload becomes the new last message; length grows by one; earlier messages, status and error are unchanged |
| ChatStore.OnUpdateLastMessage | src/store/chatSlice.js:94-99 | on a non-empty list only the last message's text changes, to the payload (id, sender, streaming flag, other messages, status, error kept); on an empty list the state is unchanged |
| ChatStore.OnClearMessages | src/store/chatSlice.js:100-102 | messages become exactly the initial greeting (id 1, sender ai, not streaming); status and error are untouched |
| ChatStore.OnPending | src/store/chatSlice.js:106-115 | status becomes loading; one empty, streaming AI placeholder with the given clock id is appended; earlier messages and the error are kept |
| ChatStore.OnFulfilled | src/store/chatSlice.js:116-123 | status becomes succeeded; only the last message's streaming flag is removed, its text and every other message kept |
| ChatStore.OnRejected | src/store/chatSlice.js:124-127 | status becomes failed and the error message is recorded; messages are entirely unchanged |
| ChatStore.AppendOnlyWithoutClear | src/store/chatSlice.js:87-128 | any run of actions without clearMessages keeps every existing message in place with the same id and sender: the list only grows at its end |
| ChatStore.NeverEmpty | src/store/chatSlice.js:79-128 | from a non-empty list (the initial state) no sequence of actions empties it, so the "no last message" branches are unreachable in practice |
| ChatStore.ClearForgetsHistory | src/store/chatSlice.js:100-102 | clearing makes states that differ only in messages equal, and clearing twice equals clearing once |
| ChatStore.UpdateLastWins | src/store/chatSlice.js:94-99 | two updates of the last message amount to the second one alone |
| ChatStore.UpdatesLeaveLastPayload | src/store/chatSlice.js:94-99 | a run of updates amounts to its last payload alone, or to nothing when empty |
| Text.Split | src/store/chatSlice.js:47 | splitting on a character yields at least one piece, no piece contains the separator, and joining the pieces gives back the chunk |
| Text.SplitJoin | src/store/chatSlice.js:47 | split undoes join for separator-free pieces, so split and join are inverse |
| StreamFold.StepFrame | src/store/chatSlice.js:51-57 | one payload only extends the state; a string-convertible truthy content makes the new fullResponse the old one plus the content's string form; the early return fires iff it is "[DONE]" (or already had); it dispatches iff its content is a string-convertible truthy value, and the payload dispatched is the new fullResponse; without a dispatch fullResponse is unchanged |
| StreamFold.FoldLines | src/store/chatSlice.js:49-62 | the `for` loop over one chunk's lines changes nothing once the early return has fired, keeps every earlier payload, only grows fullResponse, and leaves its last dispatched payload equal to fullResponse; `FoldLinesIsFoldFrames` turns it into the flat frame fold, whose exact result `FoldFramesClosedForm` gives |
| StreamFold.FoldChunks | src/store/chatSlice.js:42-63 | the `while` loop over the chunks keeps the same invariants as the line loop; `FoldChunksIsFoldFrames` and `StreamAccumulates` give its exact result |
| StreamFold.FetchAIResponse | src/store/chatSlice.js:6-67 | a missing or empty key or endpoint, or an unreachable or non-ok response, rejects with nothing dispatched; otherwise one payload is dispatched per truthy content that converts to a string before "[DONE]", the i-th being the concatenation of the first i+1 contents' string forms (empty ones included), the promise fulfils with undefined after "[DONE]", rejects if the body then fails, and otherwise fulfils with the full text |
| StreamFold.FoldChunksIsFoldFrames | src/store/chatSlice.js:42-63 | the nested chunk/line loops with early return equal a flat fold over the data-line frames of all chunks in order |
| StreamFold.FoldFramesClosedForm | src/store/chatSlice.js:49-60 | from a running state the fold appends the concatenated string forms of the string-convertible truthy contents before the first "[DONE]", dispatches one intermediate value per content, and stops exactly when "[DONE]" occurs |
| StreamFold.StreamAccumulates | src/store/chatSlice.js:40-63 | fullResponse equals the in-order concatenation of the string forms of all string-convertible truthy contents before "[DONE]"; there is one payload per such content, the i-th being the concatenation of the first i+1; the early return fires iff some data line parses to "[DONE]" |
| StreamFold.DispatchedPrefixes | src/store/chatSlice.js:54-56 | every payload is a prefix of each later payload (extended by exactly the contents in between) and of fullResponse; a later payload equals an earlier one iff every content in between has an empty string form; the last payload is fullResponse |
| StreamFold.EmptyTextRepeatsPayload | src/store/chatSlice.js:54-56 | a truthy content with empty string form (such as `[]`) before "[DONE]" dispatches the unchanged fullResponse once more |
| StreamFold.InertFrameSkipped | src/store/chatSlice.js:51-60 | a parse failure or a frame whose content is missing or falsy anywhere in the stream leaves the result as if it were absent |
| StreamFold.NothingAfterDone | src/store/chatSlice.js:53 | frames after a "[DONE]" frame have no effect and the fold is stopped |
| StreamFold.NothingAfterDoneChunk | src/store/chatSlice.js:53 | once a data line parsed to "[DONE]", later chunks change neither the response nor the payloads |
| StreamFold.ChunkBoundaryLosesLine | src/store/chatSlice.js:46-50 | a data line cut inside its `data: ` prefix by a chunk boundary yields no frame, while the same line in one chunk yields its payload |
| StreamFold.OnlyQuotedSentinelStops | src/store/chatSlice.js:50-58 | `data: "[DONE]"` stops the stream; bare `data: [DONE]` is a skipped parse failure and reading continues as if it were absent |
| StreamFold.AnswerScenario | src/store/chatSlice.js:53-56 | deltas "4", " is", " the", " answer" then "[DONE]" give "4 is the answer" and dispatch each intermediate text |
| ChatFlow.Send | src/components/ChatUI.jsx:92-105 | whatever the request does, a send keeps every earlier message, appends the user message with id count + 1 and then an AI placeholder stamped with the clock reading; `SendSteps` gives the exact action sequence |
| ChatFlow.SendSteps | src/components/ChatUI.jsx:92-105 | one send amounts to addMessage, pending, the last streamed payload (if any), then fulfilled or rejected |
| ChatFlow.SendAppendsTwo | src/components/ChatUI.jsx:92-105 | a send appends exactly the user message (id = count + 1) and the AI placeholder; the placeholder holds the last payload; fulfilled clears its streaming flag and sets succeeded, rejected keeps it streaming, sets failed and records the error |
| ChatFlow.SendShowsStreamedText | src/store/chatSlice.js:38-67 | with configuration present and an ok reply, the placeholder text is the concatenation of the string forms of the string-convertible truthy contents before "[DONE]"; status is succeeded iff "[DONE]" arrived or the body ended cleanly; the placeholder streams iff failed |
| ChatFlow.StreamingSurvivesRejection | src/store/chatSlice.js:106-127 | after a rejected send, the next send leaves the rejected placeholder still streaming; if that send is rejected too, two messages stream at once |
| ChatFlow.SendRejectedUpFront | src/store/chatSlice.js:11-36 | a missing key or endpoint, an unreachable endpoint or a non-ok status leaves status failed, the error recorded, and the placeholder empty and streaming |
| ContactForm.Validate | src/components/ContactForm.jsx:6-20 | name key iff name is missing or empty, with its message; email key with "required" iff missing or empty, else with "invalid" iff the pattern fails; message key iff missing or empty, with its message |
| ContactForm.IsValidEmail | src/components/ContactForm.jsx:13 | an accepted address has at least six characters, starts with a local-part character and ends with two letters; `EmailCheckIsPattern` shows it accepts exactly what the pattern matches |
| ContactForm.EmailCheckIsPattern | src/components/ContactForm.jsx:13 | exactly one `@`, a non-empty local part over `[A-Za-z0-9._%+-]`, and a domain over `[A-Za-z0-9.-]` whose last `.` has a non-empty part before it and 2–4 letters after it, iff the string matches the pattern |
| ContactForm.EmailCheckIgnoresCase | src/components/ContactForm.jsx:13 | two strings differing only in the case of ASCII letters get the same email verdict; non-ASCII letters never match `[A-Z]`, even under `/i` |
| ContactForm.ValidateEmptyIff | src/components/ContactForm.jsx:6-19 | the error map is empty iff all three fields are present and non-empty and the email matches the pattern |
| ContactForm.ValidateFieldsIndependent | src/components/ContactForm.jsx:6-19 | each field's entry depends only on that field's value |

## Left out

- Transport: `fetch`, `response.body.getReader()`, `TextDecoder` and its
  multi-byte state. The model takes already decoded chunks as input. A body
  that throws while being read is one flag, `bodyFails`, meaning "throws
  after the given chunks".
- `JSON.parse` and the field access `choices[0].delta?.content`: these are
  the `Classifier` parameter. It must map a truthy `content` that converts
  to a string to `Delta` of the string that `+=` appends for it (`[]` gives
  `Delta("")`), a truthy content whose conversion to a string throws (such
  as `{"toString":1}`) to `ParseFail`, since the catch swallows that error,
  and a missing or falsy one (`""`, `0`, `null`, `false`) to `NoContent`.
- Strings are sequences of Unicode scalar values, not UTF-16 code units.
  A content holding a lone surrogate (such as `"\ud83d"`) has no exact
  `Delta`, so a payload ending in half of a surrogate pair, or a pair
  joined across two deltas, is not modelled.
- `Date.now()`: the placeholder id is a parameter `now`.
- The exact text of a rejection. The catch block reads a `const`
  (`apiEndpoint`) that is not in scope there, so its message is not the
  intended one. A rejection carries no text in `StreamFold`. `ChatFlow`
  takes the recorded error message as a parameter.
- The request body, headers, temperature and token limit: these are
  outbound data with no logic.
- `console` logging.
- Concurrency, such as a second send while one is loading.
- `handleSend`'s blank-input guard: `ChatFlow.Send` models a send that got
  past it.
- All rendering: the MUI layout, Markdown, syntax highlighting, scrolling
  and the Snackbar. Also the store wiring, the theme and the dev-server
  proxy.
- Message fields: `sender` is `User | Ai`, and `streaming` is a
  boolean where false means the key is absent. An `addMessage` payload with
  another sender string, or with `streaming: false` present, is not
  distinguished.
- Form values: a field is `undefined` or a string. Other falsy
  JavaScript values (`null`, `0`) are not distinguished from `undefined`.
