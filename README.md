# Chat client streaming decoder and conversation store, in Dafny

This project models two parts of a browser chat client.

**The streaming event decoder** of `chatAPI.sendMessageStream`. The body of the
`/api/chat/stream` response arrives as text chunks. Each chunk is appended to a buffer, the
buffer is split on `'\n'`, and every piece but the last is a complete line. The last piece
becomes the new buffer. A complete line that is non-blank after `trim()` and starts with
`data: ` has the text after those 6 characters given to `JSON.parse`. The value is logged and
then passed to the `onChunk` callback. A payload that throws is skipped. So is one whose value
makes the logging statement throw inside the same `try`, such as `null`. When the reader reports
`done` the promise resolves and the buffer is dropped unflushed. A failed `fetch` or a non-OK
status rejects before anything is decoded.

- `Text` (text.dfy): `split('\n')`, `trim()` and `startsWith`, with the split's round trip and
  its behaviour on concatenated text.
- `EventStream` (event_stream.dfy): the `LineDecoder` class, with a `buffer` field, a `Feed`
  method and a `FeedAll` method that feeds the chunks read one at a time; `DeliverLines`, the
  `forEach` over complete lines; `SendMessageStream`, the request and its outcomes; and the
  lemmas. The main lemma is chunk-boundary insensitivity: any
  partition of a stream into chunks delivers the same events in the same order as the whole
  stream in one chunk.

`JSON.parse` is the parameter `parse: string -> Option<ParsedValue<J>>`. It is `None` when
`JSON.parse` throws. It is `Some(Unloggable)` when `JSON.parse` returns a value on which the
logging statement at src/services/api.js:120 throws. Two kinds of value do that: `null`, since
reading `data.type` throws, and a value with a truthy `content` whose `length` cannot be turned
into a string in the template literal. It is `Some(Loggable(v))` for any other value `v`. Only
the last case reaches `onChunk`, because the `catch` at lines 122-124 swallows the exception.

**The conversation store** (`ChatStore`, chat_store.dfy). It holds an ordered list of
conversations, newest first, each with its messages, and the id of the current conversation.
`Store` is a class whose methods change these fields in place, as the store's actions do.
`CurrentConversation` is the derived lookup. The id and creation time of a new conversation
are parameters.

Two points about the code at src/services/api.js:
- There is no `finish()` call and no closed state: at `done` (lines 103-106) the promise
  resolves and the buffer is never read again.
- The prefix test at line 117 is made on the raw line, not the trimmed one, so a line with
  whitespace before `data: ` is never delivered.

## Model

| member | source | states |
|---|---|---|
| `Text.Trim` | src/services/api.js:117 | `line.trim()` is no longer than the line and, when non-empty, neither begins nor ends with whitespace |
| `Text.TrimIsSlice` | src/services/api.js:117 | `line.trim()` is a contiguous piece of the line with only whitespace before and after it |
| `Text.StartsWithIffPrefixed` | src/services/api.js:117 | `line.startsWith(p)` holds exactly when the line is `p` followed by some text |
| `Text.TrimEmptyIffBlank` | src/services/api.js:117 | `line.trim()` is empty exactly when every character of the line is ECMAScript whitespace or a line terminator |
| `Text.Frame` | src/services/api.js:113-114 | neither a complete line nor the leftover after the last newline holds a newline, so the kept buffer never contains `'\n'` |
| `Text.SplitOnNewline` | src/services/api.js:113-114 | `split('\n')` returns at least one piece, so `lines.pop()` always yields a string: the complete lines, then the leftover; no piece holds a newline |
| `Text.SplitRoundTrip` | src/services/api.js:110-114 | each complete line followed by `'\n'`, then the kept buffer, gives back exactly the split text: nothing lost or duplicated |
| `Text.SplitTerminated` | src/services/api.js:113-114 | conversely, newline-free lines each terminated by `'\n'` and followed by a newline-free rest split back into those lines and that rest |
| `Text.SplitAppend` | src/services/api.js:110-114 | the complete lines of `s + t` are those of `s` followed by those of (leftover of `s`) + `t`, and the leftovers agree |
| `Text.UnterminatedAddsNoLine` | src/services/api.js:110-114 | text without a newline completes no line and only extends the leftover |
| `EventStream.DataLineIffPrefix` | src/services/api.js:117 | the line filter holds exactly when the raw line starts with `data: `: the blank test never rejects a line the prefix test accepts |
| `EventStream.Delivered` | src/services/api.js:119-123 | a parse result reaches `onChunk` exactly when it is a value the logging statement at line 120 does not throw on, and then it is that value |
| `EventStream.LineEvent` | src/services/api.js:117-124 | a line yields an event only when it starts with `data: ` and the text after the prefix parses to that loggable value, and it always yields one in that case |
| `EventStream.EventsOf` | src/services/api.js:116-126 | the lines of one `forEach` yield no more events than there are lines |
| `EventStream.SingleLineEvents` | src/services/api.js:117-124 | one line yields one event, the parse of the text after the 6-character prefix, exactly when it starts with `data: ` and that text parses to a loggable value; otherwise none |
| `EventStream.UnloggablePayloadSkipped` | src/services/api.js:117-124 | `data: p` delivers nothing when `p` parses to a value the logging statement throws on, such as `null`, since the exception is caught |
| `EventStream.EventsOfAppend` | src/services/api.js:116-126 | events of consecutive groups of lines come out consecutively, each group in its line order |
| `EventStream.SkippedLine` | src/services/api.js:117-124 | a blank line, a line without the `data: ` prefix at column 0, or one whose payload fails to parse or parses to an unloggable value contributes nothing, and the lines before and after it are delivered as if it were absent |
| `EventStream.EventsComeFromDataLines` | src/services/api.js:117-121 | every delivered event is the loggable parse of the text after `data: ` on some line |
| `EventStream.DeliverLines` | src/services/api.js:116-126 | the `forEach` passes to `onChunk` exactly the events of the complete lines, in line order, skipping lines that fail to parse or parse to an unloggable value |
| `EventStream.LineDecoder.constructor` | src/services/api.js:99 | a decoder starts with an empty buffer |
| `EventStream.LineDecoder.Feed` | src/services/api.js:109-126 | after a chunk the buffer holds no newline and is what follows the last newline of old buffer + chunk; the delivered lines plus the buffer rebuild old buffer + chunk; the events are those of the completed lines |
| `EventStream.LineDecoder.FeedAll` | src/services/api.js:100-126 | after the chunks read so far are fed one at a time, the buffer holds no newline and is what follows the last newline of all text received, and the events are those of all complete lines, equal to the chunk-by-chunk `FedEvents`/`FedRest` |
| `EventStream.PartitionInsensitive` | src/services/api.js:110-114 | feeding any sequence of chunks one at a time completes the same lines and leaves the same buffer as feeding their concatenation at once |
| `EventStream.FedEventsInsensitive` | src/services/api.js:110-126 | feeding any sequence of chunks one at a time delivers the same ordered events as feeding their concatenation at once |
| `EventStream.UnterminatedLineDropped` | src/services/api.js:103-106 | a final line without `'\n'` adds no event: the stream ends with it still buffered |
| `EventStream.SendMessageStream` | src/services/api.js:91-135 | a network failure or a status outside 200-299 rejects with no events; otherwise the events are those of the complete lines of all chunks concatenated, the same as feeding the chunks one at a time to a fresh decoder, and the promise resolves at `done` or rejects on a failed read |
| `EventStream.PrefixSplitExample` | src/services/api.js:110-121 | a chunk boundary inside the `data: ` prefix (`data: p\nda` then `ta: q\n`) still delivers the parse of `p` then of `q` |
| `EventStream.MalformedLineExample` | src/services/api.js:116-124 | `data: bad\ndata: good\n` with `bad` failing to parse or parsing to an unloggable value delivers only the parse of `good` |
| `ChatStore.TitleFor` | src/stores/chat.js:36 | the title is the first min(30, length) characters of the content followed by `...` |
| `ChatStore.FirstMatch` | src/stores/chat.js:30 | `find`/`findIndex`: the index of the first matching element, or none exactly when no element matches |
| `ChatStore.RemovedIdGone` | src/stores/chat.js:62-64 | with unique ids, removing the first conversation with an id leaves none with that id and keeps ids unique |
| `ChatStore.Store.constructor` | src/stores/chat.js:5-6 | the store starts with no conversations and no current id |
| `ChatStore.Store.CurrentConversation` | src/stores/chat.js:9-11 | the first conversation whose id is the current id; absent exactly when there is no current id or no conversation has it |
| `ChatStore.Store.CreateNewConversation` | src/stores/chat.js:13-23 | the new conversation, titled `新对话` with no messages, is put at index 0 before the old list in order, becomes current and is the current conversation; unique ids stay unique when the new id is fresh |
| `ChatStore.Store.AddMessage` | src/stores/chat.js:26-41 | the message is appended to the first conversation with the id; its title becomes `TitleFor(content)` when it had no messages and is otherwise kept; every other conversation and the current id are unchanged; an unknown id changes nothing |
| `ChatStore.Store.UpdateMessage` | src/stores/chat.js:43-58 | only the content of the first matching message of the first matching conversation changes; counts, order and other fields are kept; an unknown conversation or message id changes nothing |
| `ChatStore.Store.DeleteConversation` | src/stores/chat.js:61-69 | exactly the first conversation with the id is removed and the rest keep their order; if it was current, the current id becomes the new first conversation's id, or none when the list is empty or that id is `""`; an unknown id changes nothing |
| `ChatStore.Store.SetCurrentConversation` | src/stores/chat.js:71-73 | the current id is set unconditionally, even to an id no conversation has; the list is unchanged |

## Left out

- The axios instance, its interceptors and the REST wrappers `authAPI`, `conversationAPI` and
  `chatAPI.sendMessage` (src/services/api.js:1-74): HTTP configuration and thin calls into a
  library, with `localStorage` and page-reload side effects.
- `fetch`, the reader and the promise-driven recursion of `readStream`: the model takes the
  fetch result, the sequence of chunks read and how the reads ended as parameters, and runs
  the reads as a loop.
- `EventStream.SendMessageStream`: a 2xx response without a body (`response.body` is `null`, as
  for status 204 or 205) is not a case of its own. In the code `getReader()` at
  src/services/api.js:97 throws and the `.catch` at lines 137-140 rejects. The model gives such a
  response as no chunks ending in `ReadFailed`.
- `TextDecoder` streaming UTF-8 decoding: each chunk is already decoded text.
- `JSON.parse` internals: a parameter, as above.
- An exception thrown by `onChunk` itself is also swallowed by the `catch` at
  src/services/api.js:122-124; the model treats the callback as returning normally.
- `console.log` and `console.error` calls, including the report of a payload that fails to
  parse.
- `ChatStore.TitleFor`: counts characters, whereas `substring(0, 30)` counts UTF-16 code units,
  so the two differ on text outside the Basic Multilingual Plane.
- `Date.now()` and `new Date()`: the new id and creation time are parameters.
- `isLoading` (src/stores/chat.js:7): no modelled action changes it.
- Vue/Pinia reactivity (`ref`, `computed`): plain fields and a function.
- Object aliasing: a conversation or message is a value here, so a message object shared by
  reference between two places in the JavaScript store is not modelled.
- src/stores/auth.js, src/utils/markdown.js and vite.config.js are not part of this model.
