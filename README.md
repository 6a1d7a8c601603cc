# Streaming chat relay over a PDF — verified model

This project models the chat endpoint of a small question-answering service. A
browser sends a question about one PDF. The backend keeps each conversation's
history in a dictionary and sends the system prompt, which carries the whole
PDF text, together with that history to a chat-completion API. It then relays
the streamed answer to the browser as a sequence of `data: …` events:
`content` fragments, at most one `error`, and a final `done`. The reset endpoint
forgets a conversation.

The model covers `backend/api/chat.py`:

- `_stream_openai_response`, the generator that relays the stream;
- `handle_chat`, which gets or creates the conversation's history and builds the API messages;
- `handle_reset`, which deletes a conversation.

Modules:

- `Wrappers`: `Option`.
- `Messages`:
  - `Role` and `Message`, the dictionaries `{"role": …, "content": …}`.
  - `History`, a Python list object that is appended to in place.
- `RelaySpec`: what the relay yields, as a function of the upstream response.
  - `Classify` is what the loop body does with a single upstream line. It is `continue` for an empty line or one without `b'data: '`. It is `break` when the payload strips to `[DONE]`. Otherwise it decodes the payload, which can be skipped as malformed, give a fragment, or raise.
  - `Scan` is the `for` loop over the lines and how it is left.
  - `AfterLoop` covers the `except` and `finally` blocks and the history append.
  - `Relay` is the whole generator: the events yielded, the message appended, and whether an uncaught exception leaves the generator after its `done`.
  - Also in this module: Python's `str.strip` (with CPython's whitespace set) and the slice `s[6:]`.
- `RelayProperties`: the lemmas about `Relay`.
- `StreamingRelay`: the generator as imperative code.
  - `ReadLine` is the loop body.
  - `ReadStream` is the `while` loop, with its `break`s, the accumulator `full_bot_response` and the list of yielded content events.
  - `StreamResponse` adds the `except`/`finally` logic and the in-place append to the history list.
  - Each is proved equal to its `RelaySpec` function.
- `JsonString`:
  - How `json.dumps` writes a string: `ensure_ascii`, lower-case `\uXXXX`, and surrogate pairs above U+FFFF.
  - A reader for JSON string literals, following section 7 of RFC 8259.
  - The round trip between the two.
- `EventStream`:
  - The text written for each event: `data: `, the event's JSON and a separator.
  - A reader that splits the body on the separator, as the browser client does.
  - The framing finding below.
- `ChatApi`:
  - `ConversationStore` is the dictionary `conversation_histories`. It maps each id to a `History` object, so that the list `setdefault` returns is the same object the relay appends to later.
  - `SystemPrompt`, `HandleChat`, `HandleReset`, and `Chat` (one request streamed to the end).
  - Two scenario methods: `ChatTwiceThenReset`, and `ResetBeforeStreaming`, where the reply lands in the list the reset dropped.

Boundaries are parameters:

- The upstream response is an `Upstream` value. Either the request failed (`requests.post` or `raise_for_status` raised a `RequestException`), or a finite list of lines arrived, possibly followed by a `RequestException` that `iter_lines` raises.
- The UTF-8 decoder and the lookup `json.loads(…)["choices"][0]["delta"].get("content", "")` are the two functions in `Decoders`. The lookup's result is one of:
  - `Malformed`: a `JSONDecodeError` or `KeyError`, which are caught.
  - `Piece(text)`: the fragment.
  - `Uncaught`: any other exception, e.g. an `IndexError` on an empty `choices`.
- The PDF text is the `pdfContext` argument.

The model follows the code where it departs from the Server-Sent Events format and from what its comments describe:

- The events are written followed by the four characters backslash, `n`, backslash, `n`. This is not the blank line of the Server-Sent Events format.
- An invalid UTF-8 line, or a lookup that raises something other than `JSONDecodeError`/`KeyError`, is not skipped. The loop stops, `done` is still yielded by `finally`, and the exception then leaves the generator without an `error` event and without storing the reply.

## Model

| member | source | states |
|---|---|---|
| `Messages.History.constructor` | backend/api/chat.py:80 | a new conversation list is empty |
| `Messages.History.Append` | backend/api/chat.py:81 | `list.append`: the message goes at the end and the earlier entries stay |
| `RelaySpec.Steps` | backend/api/chat.py:44-45 | the loop looks at the lines one at a time, one step per line |
| `RelaySpec.Fragments` | backend/api/chat.py:53-54 | only non-empty fragments are relayed, never more than there are lines |
| `RelaySpec.TrimStartDropsLeadingSpace` | backend/api/chat.py:48 | `lstrip` keeps a suffix, drops only whitespace, and stops at the first other character |
| `RelaySpec.TrimEndDropsTrailingSpace` | backend/api/chat.py:48 | `rstrip` keeps a prefix, drops only whitespace, and stops at the last other character |
| `RelaySpec.TrimStartSkipsSpace` | backend/api/chat.py:48 | leading whitespace does not change what `lstrip` gives |
| `RelaySpec.TrimEndSkipsSpace` | backend/api/chat.py:48 | trailing whitespace does not change what `rstrip` gives |
| `RelaySpec.StripIgnoresSurroundingSpace` | backend/api/chat.py:48 | a payload that is `[DONE]` padded with whitespace strips to `[DONE]` |
| `RelayProperties.ScanSkipsStep` | backend/api/chat.py:45-59 | a line the loop passes over (`continue`, or an empty fragment) leaves the rest of the run unchanged |
| `RelayProperties.ScanThroughContinuing` | backend/api/chat.py:44-59 | while no line stops the loop, it yields exactly those lines' fragments in order, then continues as the rest of the input does |
| `RelayProperties.FragmentsInArrivalOrder` | backend/api/chat.py:53-58 | the fragments of consecutive parts of the stream follow each other |
| `RelayProperties.StepsOfSplice` | backend/api/chat.py:44-45 | each line is classified on its own, independent of its neighbours |
| `RelayProperties.ContentTextOfFragments` | backend/api/chat.py:54-58 | the text of the content events is the fragments joined in order |
| `RelayProperties.ContentTextIgnoresTail` | backend/api/chat.py:64-67 | `error` and `done` add no text |
| `RelayProperties.DoneIsLastAndUnique` | backend/api/chat.py:65-67 | whatever the upstream does, the last event is `done` and no other event is |
| `RelayProperties.ErrorOnlyJustBeforeDone` | backend/api/chat.py:63-67 | there is at most one `error`, and only `done` follows it |
| `RelayProperties.ErrorExactlyOnRequestFailure` | backend/api/chat.py:41-44 | an `error` event is emitted if and only if the request failed or a transport fault ended the stream |
| `RelayProperties.ReplyStoredOnlyOnCleanEnd` | backend/api/chat.py:62-64 | the reply is stored if and only if there is no `error` event and no exception leaves the generator |
| `RelayProperties.StoredReplyIsEmittedText` | backend/api/chat.py:54-62 | the stored reply is an assistant message whose content is exactly the emitted fragments joined in order |
| `RelayProperties.NonEventLineIgnored` | backend/api/chat.py:45 | inserting an empty line or one not starting with `data: ` anywhere changes no event, no stored reply and no exception |
| `RelayProperties.MalformedPayloadSkipped` | backend/api/chat.py:50-59 | inserting a line whose payload fails to decode or lacks a key changes nothing; the lines before and after are relayed as before |
| `RelayProperties.EmptyFragmentSkipped` | backend/api/chat.py:52-53 | inserting a line with an empty fragment changes nothing |
| `RelayProperties.DoneMarkerEndsStream` | backend/api/chat.py:47-48 | once a payload strips to `[DONE]`, later lines and a later fault are never seen: the earlier fragments, then `done`, and the reply so far is stored |
| `RelayProperties.ExhaustedStreamCompletes` | backend/api/chat.py:44-62 | an input that runs out without a fault relays every fragment in order, stores their concatenation and ends with `done` |
| `RelayProperties.MidStreamFaultReported` | backend/api/chat.py:44-64 | a fault after some lines still relays their fragments, then exactly one `error` with the fault's message and `done`; nothing is stored |
| `RelayProperties.UncaughtExceptionAfterDone` | backend/api/chat.py:47-67 | invalid UTF-8 or an uncaught lookup error stops the loop: earlier fragments, then `done`, nothing stored, and the exception propagates |
| `RelayProperties.HelloExample` | backend/api/chat.py:44-67 | fragments "Hel" and "lo" then `[DONE]`: two content events, `done`, and "Hello" stored |
| `RelayProperties.MalformedBetweenFragments` | backend/api/chat.py:50-59 | an unparsable line between two fragments does not interrupt them |
| `StreamingRelay.ReadLine` | backend/api/chat.py:45-59 | the loop body's branches give the step `Classify` specifies |
| `StreamingRelay.ReadStream` | backend/api/chat.py:44-59 | the loop yields the content events of the fragments `Scan` relays, accumulates their concatenation in `full_bot_response`, and is left as `Scan` says |
| `StreamingRelay.StreamResponse` | backend/api/chat.py:32-67 | the generator yields exactly `Relay`'s events and raises exactly when `Relay` says; the history list gains the reply exactly when the run ends cleanly, and nothing else |
| `JsonString.HexDigit` | backend/api/chat.py:56 | `json.dumps` writes hexadecimal digits in lower case |
| `JsonString.EscapeIsPrintable` | backend/api/chat.py:56 | with `ensure_ascii`, every character of an escaped string is printable ASCII, so it contains no line break |
| `JsonString.Hex4RoundTrip` | backend/api/chat.py:56 | a four-digit `\u` code reads back as the code unit written |
| `JsonString.EscapeCharRoundTrip` | backend/api/chat.py:56 | each written character (short escape, plain, `\uXXXX` or surrogate pair) reads back as itself |
| `JsonString.EscapeRoundTrip` | backend/api/chat.py:56 | a JSON reader gets back exactly the text `json.dumps` wrote, and stops right after the closing quote |
| `EventStream.ParseEventJsonRoundTrip` | backend/api/chat.py:56-67 | the JSON written for each event reads back as that event |
| `EventStream.FrameTextIsPrintable` | backend/api/chat.py:56-67 | a written event, without its separator, is printable ASCII |
| `EventStream.FindSkips` | frontend/src/App.jsx:47 | a prefix without the separator's first character only shifts where the separator is found |
| `EventStream.SplitAfter` | frontend/src/App.jsx:47 | a part that cannot contain the separator, followed by it, is split off whole |
| `EventStream.SplitBody` | frontend/src/App.jsx:47 | a body separated by blank lines splits into exactly the written events plus a trailing empty part |
| `EventStream.CollectFrames` | frontend/src/App.jsx:48-52 | reading those parts gives back every event in order |
| `EventStream.BodyReadBack` | backend/api/chat.py:56-67 | with blank lines as separator, the reader gets back exactly the events yielded, in order |
| `EventStream.RelayBodyReadBack` | backend/api/chat.py:32-67 | whatever the upstream does, the relay's events written with blank lines reach the client exactly as yielded |
| `EventStream.FrameRead` | backend/api/chat.py:56-67 | a written event, read as one part of the body, gives back that event |
| `EventStream.ContentJsonRead` | backend/api/chat.py:56 | the JSON written for a content event reads back as that event |
| `EventStream.ErrorJsonRead` | backend/api/chat.py:64 | the JSON written for an error event reads back as that event |
| `EventStream.ParagraphBreakEscapesToSeparator` | backend/api/chat.py:56-58 | `json.dumps` writes two line breaks as backslash, `n`, backslash, `n`, which is the separator as written |
| `EventStream.WrittenBodySplit` | backend/api/chat.py:56-67 | with the separator as written, the body for a paragraph-break fragment and `done` is cut inside the content event |
| `EventStream.SeparatorFragmentLost` | backend/api/chat.py:56-58 | with the separator as written, any fragment that `json.dumps` writes as the separator itself is lost: the reader gets only the `done` that follows it |
| `EventStream.WrittenSeparatorSplitsParagraphBreak` | backend/api/chat.py:56-58 | with the separator as written, the reader gets only `done` back from a paragraph-break fragment followed by `done` |
| `ChatApi.SystemPrompt` | backend/api/chat.py:84-87 | a system message whose content is the fixed instruction, the whole PDF text unchanged, then the fixed closing instruction |
| `ChatApi.ConversationStore.constructor` | backend/api/chat.py:15 | the server starts with no conversations |
| `ChatApi.ConversationStore.SetDefault` | backend/api/chat.py:80 | an existing conversation's list is returned unchanged; an unknown id gets a new, empty list of its own and nothing else changes |
| `ChatApi.ConversationStore.AppendTo` | backend/api/chat.py:81 | appending to the list stored for one id changes that conversation alone, at its end |
| `ChatApi.ConversationStore.HandleChat` | backend/api/chat.py:80-88 | the user turn goes at the end of the conversation (a new one starts empty), other conversations are untouched, and the API gets the system prompt followed by the whole updated conversation |
| `ChatApi.ConversationStore.HandleReset` | backend/api/chat.py:93-98 | the conversation is gone (no change for an unknown id), the others are untouched, and the same acknowledgement comes back either way |
| `ChatApi.ConversationStore.StreamInto` | backend/api/chat.py:91 | the relay, handed the list stored for one id, adds the reply it stores (if any) to that conversation alone and yields `Relay`'s events |
| `ChatApi.ConversationStore.Chat` | backend/api/chat.py:71-91 | one request streamed to the end: the conversation gains the user turn and then the reply the relay stores, if any; no other conversation changes; the events are the relay's |

## Left out

- The HTTP request itself is an `Upstream` parameter. This covers the URL, the `gpt-4o` model name, `stream: True`, the bearer header and the JSON request body, which are never looked at again (backend/api/chat.py:35-36, 41). Its outcome, including how `str(e)` renders an exception, is encoded in `Upstream`.
- UTF-8 decoding and the `json.loads` plus key lookup are the `Decoders` functions (backend/api/chat.py:47, 51-52).
  - The model assumes that the character slice `[6:]` applies to the decoded text.
  - It does not model which JSON inputs cause which exception.
- Python's lone surrogates in `str` values cannot be represented: a Dafny `char` is a Unicode scalar value. So `JsonString.EscapeChar` never sees one.
- The FastAPI and pydantic plumbing is not modelled. This covers `APIRouter`, `Depends`, `StreamingResponse`, the request models and the `media_type`. Generator laziness is modelled only as the reset-before-streaming scenario. Cancellation when the client disconnects is not modelled; the response is read to the end.
- Concurrency on `conversation_histories` (backend/api/chat.py:15) is left out. The failure that matters, a reset between `handle_chat` and the relay's append, is shown sequentially by `ChatApi.ResetBeforeStreaming`.
- `core.dependencies` is not part of this model; its dictionary is the `ConversationStore`.
- backend/services/pdf_service.py (file check, PDF text extraction, caching) is not modelled; its result is the `pdfContext` argument.
- backend/core/config.py and backend/main.py (settings, app construction, CORS, health endpoint) are configuration and are not modelled.
- frontend/src/App.jsx is modelled only as the reader of the event stream, with two simplifications:
  - `EventStream.ReadBody` reads the whole body at once. The browser splits each network chunk separately.
  - It parses only the JSON layout `json.dumps` writes. The browser's UI updates are not modelled.
- The system prompt's text contains the same literal backslash-`n` pairs as the separator (backend/api/chat.py:86). The model keeps them as written and states nothing about how the API interprets them.
- The methods return the relay's events, not the text chunks. The text, with the corrected separator, is `EventStream.Body` of those events, and its reading is proved for every run by `EventStream.RelayBodyReadBack`.
- `RelaySpec.Steps`, `HexDigit` and the other small helpers state only shape facts in their own contracts. Their meaning is carried by the lemmas in the table.

## Findings

| source | as written | input that shows it | evidently intended | confidence | as-written member | corrected member |
|---|---|---|---|---|---|---|
| backend/api/chat.py:58 | Each event is followed by the four characters backslash, `n`, backslash, `n` (also lines 64 and 67). The client splits on the same four characters (frontend/src/App.jsx:47), and `json.dumps` writes every line break inside a fragment as backslash, `n`. | A content fragment `"\n\n"` (a paragraph break) followed by `done`. The reader cuts the content event after its opening quote and cannot parse either half, so only `done` is read back and the paragraph break never reaches the client. `EventStream.SeparatorFragmentLost` shows the same for every fragment written as the separator. | Each event is ended by a blank line (two real line breaks, as Server-Sent Events require) on both sides. `json.dumps` output can never contain one, so every event is read back. | not executed | `EventStream.WrittenSeparatorSplitsParagraphBreak` | `EventStream.BodyReadBack`, applied to every relay run by `EventStream.RelayBodyReadBack` |
