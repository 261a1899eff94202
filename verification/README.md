# Rate-my-professor chat assistant: a Dafny model

This project models the deterministic core of a retrieval-augmented chat
assistant. It has two parts.

- **The chat endpoint** (`POST /api/chat`, module `ChatRoute`, file
  `route.dfy`). It takes the newest message of the conversation as the
  query. It renders the vector-index matches into a fixed-format results
  block: a constant header, then one templated entry per match, with the
  template's own indentation and blank lines. It appends that block to the
  newest message. It builds the completion request: the system
  instruction, the earlier messages unchanged, and the augmented text as a
  `user` message. Finally it forwards every non-empty completion delta to
  the response stream, in arrival order. The stream is left closed, or in
  the error state when iterating the completion fails.
- **The chat page** (module `ChatClient`, file `client.dfy`). The class
  `Home` holds the `messages` and `input` state. Sending clears the field,
  appends the user's turn and an empty assistant placeholder, and posts the
  history plus the user's turn (without the placeholder). The read loop
  `ProcessText` then replaces the last message with a copy whose content
  has the chunk appended, once per chunk, until the reader reports `Done`.

Module `Common` (file `common.dfy`) holds the message type, `Option` and
`Result`, and `Concat`, which joins text fragments in order, with its
lemmas.

The embedding service, the vector index and the completion service are
parameters of `ChatRoute.HandlePost`. `retrieve` maps the query text to
the matches, or to `None` when the embedding or index call rejects.
`complete` maps the message list to the completion stream, or to `None`
when that call rejects. A completion stream is the sequence of delta
contents it yields, then how it ends: `Finished` or `Failed`. A stream
that fails at position k is one whose k yielded deltas are followed by
`Failed`. An exception thrown inside the loop body (for instance, a chunk
without `choices`) is caught by the same handler, so it counts as a
failure at that position. The system instruction is a parameter too.
Chunks read by the page are already-decoded strings.

Where the code behaves in a way that is easy to miss, the model follows
the code:

- The entry template prints `metadata.stars` twice, under `Review:` and
  under `Stars:`. A metadata key that is missing renders as `undefined`.
- An empty conversation is not checked by the code. Reading the last
  element of an empty array and then its `content` throws, so the request
  fails. `HandlePost` returns `Failure(EmptyConversation)` for it.
- The newest message's role is not carried into the completion request:
  the augmented message always has role `user`.
- The value the read loop resolves with is always the empty string,
  because `result` is never assigned after it is declared.
- The number of matches is whatever the index returns. `topK: 3` is an
  argument to the external service, so the model allows any count,
  including zero.

## Model

| member | source | states |
|---|---|---|
| `ChatRoute.ResultBlock` | app/api/chat/route.js:92-100 | the block always starts with the fixed header, and with zero matches it is exactly the header |
| `ChatRoute.RenderResults` | app/api/chat/route.js:92-100 | the `forEach` loop that grows the string entry by entry yields the header followed by one entry per match, in order |
| `ChatRoute.EntryLayout` | app/api/chat/route.js:94-99 | an entry is, character for character: two line breaks, then the `Professor:`, `Review:`, `Subject:` and `Stars:` lines, each indented by eight spaces, then a line of eight spaces and two line breaks; `Review:` shows `stars` |
| `ChatRoute.EntryShowsFields` | app/api/chat/route.js:94-99 | an entry contains `Professor: <id>`, `Subject: <subject>`, and the `stars` value after both `Review: ` and `Stars: ` |
| `ChatRoute.EntriesAppend` | app/api/chat/route.js:93-100 | the entries for two runs of matches are the first run's entries followed by the second's |
| `ChatRoute.EntryAt` | app/api/chat/route.js:93-100 | match i's entry sits right after the header and the entries of matches 0..i-1, and right before those of the later matches |
| `ChatRoute.BlockListsMatch` | app/api/chat/route.js:93-100 | every returned match's entry, identifier, stars and subject appear in the block |
| `ChatRoute.AugmentedContent` | app/api/chat/route.js:102-103 | the augmented text starts with the newest message's content, and what follows it is exactly the results block |
| `ChatRoute.PriorHistory` | app/api/chat/route.js:104 | the earlier-history slice has n-1 elements equal to `data[0..n-1]` in order, and is empty for a one-message conversation |
| `ChatRoute.CompletionMessages` | app/api/chat/route.js:108-112 | the request has n+1 messages: the system instruction, the n-1 earlier messages unchanged, then a `user` message with the augmented content whatever the newest message's role |
| `ChatRoute.CompletionRecoversConversation` | app/api/chat/route.js:102-112 | the conversation can be read back from the request: drop the system message, strip the results block from the last content, restore the original role |
| `ChatRoute.Forwarded` | app/api/chat/route.js:121-126 | forwarding yields no empty fragment and never more fragments than deltas |
| `ChatRoute.ForwardDeltas` | app/api/chat/route.js:117-134 | the `for await` loop enqueues exactly the present, non-empty deltas in arrival order; the stream ends closed, or errored when iteration fails |
| `ChatRoute.ForwardedText` | app/api/chat/route.js:121-126 | the forwarded fragments join to all the text the upstream produced, absent and empty deltas counting as empty |
| `ChatRoute.ForwardedAppend` | app/api/chat/route.js:121-126 | forwarding preserves arrival order across any split of the delta sequence |
| `ChatRoute.FailureTruncates` | app/api/chat/route.js:120-131 | what is forwarded from the deltas before position k is a prefix of what is forwarded from all deltas, and the rest comes only from the deltas from k on; with `ForwardDeltas`'s ensures, this is what a stream that fails at k sends before it is errored |
| `ChatRoute.ForwardedIncludes` | app/api/chat/route.js:121-126 | every present, non-empty delta is among the forwarded fragments, at a position no later than its own |
| `ChatRoute.HandlePost` | app/api/chat/route.js:64-136 | an empty conversation fails; a rejected retrieval or completion call fails; otherwise the query (`Query`, line 78) is the newest message's content, the matches are those retrieved for it, the request is the assembled message list, and the forwarded fragments and final stream state are those of the completion stream |
| `ChatClient.WithTurn` | app/page.js:37-41 | the send updater adds exactly two entries, `{user, typed}` then `{assistant, ""}`, and leaves every earlier entry unchanged |
| `ChatClient.RequestBody` | app/page.js:48 | the posted body is the pre-send history followed by one `user` message with the typed text |
| `ChatClient.BodyOmitsPlaceholder` | app/page.js:37-48 | the posted body is the updated conversation minus its trailing empty assistant placeholder |
| `ChatClient.WithChunk` | app/page.js:60-70 | a chunk update keeps the length, leaves every message but the last unchanged, keeps the last message's role, and appends the chunk to its content |
| `ChatClient.WithChunks` | app/page.js:54-71 | any number of chunk updates keeps the conversation's length |
| `ChatClient.ChunksAccumulate` | app/page.js:54-71 | after chunks c1..ck the last message's content is its starting content plus c1+...+ck, and all other messages are unchanged |
| `ChatClient.ChunkingIndependent` | app/page.js:54-71 | two chunkings of the same text leave the same conversation |
| `ChatClient.ExchangeResult` | app/page.js:37-71 | a send followed by a streamed reply leaves the history, the user's turn, and an assistant message holding exactly the joined chunks |
| `ChatClient.TextsUntilDone` | app/page.js:54-58 | the texts handed to the updater are at most one per read |
| `ChatClient.DoneStops` | app/page.js:54-58 | once the reader reports `Done`, whatever it would yield afterwards contributes nothing |
| `ChatClient.Home.constructor` | app/page.js:13-20 | the page starts with the greeting as its only message and an empty text field |
| `ChatClient.Home.SetInput` | app/page.js:208 | typing sets the field's value and leaves the conversation alone |
| `ChatClient.Home.StartSend` | app/page.js:36-48 | sending clears the field, applies the send updater to the conversation, and returns the request body built from the conversation as it was |
| `ChatClient.Home.AppendChunk` | app/page.js:60-70 | one chunk applies the chunk updater and leaves the field alone |
| `ChatClient.Home.ProcessText` | app/page.js:53-72 | the read loop applies the chunk updater once per chunk read before `Done`, in order, and returns the empty string |
| `ChatClient.Home.SendMessage` | app/page.js:25-75 | a whole send leaves the field empty, posts history plus the user's turn, and ends with the old history, the user's turn, and an assistant message holding the joined streamed text |

## Left out

- The embedding call, the vector-index query and the chat-completion call (app/api/chat/route.js:68-90, 107-115) are network clients. They are the `retrieve` and `complete` parameters of `HandlePost`.
- The wording of the system instruction (app/api/chat/route.js:6-61) is a `systemPrompt` parameter.
- `controller.close()` in the `finally` block after `controller.error` (app/api/chat/route.js:130-131): its effect on an errored stream is defined by the streams library. The model reports the stream as errored.
- `ReadableStream`, `NextResponse` and `req.json()`: the model works on the parsed message list and on the sequence of enqueued fragments.
- UTF-8 encoding and decoding with `TextEncoder`/`TextDecoder`, including `{stream: true}` decoding across chunk boundaries: chunks are already-decoded strings, and an absent `value` decodes to the empty string.
- Messages whose `content` is missing or whose role is not one of system, user and assistant. Message contents are strings and roles are an enumeration.
- Metadata values that are not strings: each value is its rendered text. A match whose `metadata` object is itself absent, which would throw, is not modelled.
- A rejected `reader.read()` on the page: the read loop models only chunks and `Done`.
- `fetch`, promise chaining and `setTimeout`. Two sends that overlap in flight are not modelled either: the page does not guard against them and their behaviour is undefined.
- Button colour, theme toggling, auto-scroll and all rendering (app/page.js:12, 21-33, 77-229) are UI.
- The commented-out earlier versions of both files (app/api/chat/route.js:148-273, app/page.js:237-370) are dead code.
