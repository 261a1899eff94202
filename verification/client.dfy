/** The chat page's conversation state: sending a typed message, the request
    body it posts, and the read loop that appends each streamed chunk to the
    open assistant message. */
module ChatClient {
  import opened Common

  /** The assistant's greeting the page starts with. */
  const Greeting: string := "Hi I'm the Rate My Professor AI assistant. How can I assist you today?"

  /** The empty assistant message that streamed text accumulates into. */
  const Placeholder: Message := Message(Assistant, "")

  // ---------------------------------------------------------------------
  // The state updaters and the request body, as functions on the history
  // ---------------------------------------------------------------------

  /** The send updater: the history, then the user's turn, then the empty
      assistant placeholder. */
  function WithTurn(history: seq<Message>, typed: string): (r: seq<Message>)
    ensures |r| == |history| + 2
    ensures r[..|history|] == history
    ensures r[|history|] == Message(User, typed) && r[|history| + 1] == Placeholder
  {
    history + [Message(User, typed), Placeholder]
  }

  /** The body posted to the chat endpoint: the history and the user's turn. */
  function RequestBody(history: seq<Message>, typed: string): (body: seq<Message>)
    ensures |body| == |history| + 1
    ensures body[..|history|] == history && body[|history|] == Message(User, typed)
  {
    history + [Message(User, typed)]
  }

  /** The request body is the updated conversation without its placeholder. */
  lemma BodyOmitsPlaceholder(history: seq<Message>, typed: string)
    ensures WithTurn(history, typed) == RequestBody(history, typed) + [Placeholder]
    ensures RequestBody(history, typed) == WithTurn(history, typed)[..|history| + 1]
  {
  }

  /** The chunk updater: the last message, with the chunk appended to its
      content; every earlier message as it was. */
  function WithChunk(messages: seq<Message>, text: string): (r: seq<Message>)
    requires |messages| > 0
    ensures |r| == |messages|
    ensures r[..|r| - 1] == messages[..|messages| - 1]
    ensures r[|r| - 1].role == messages[|messages| - 1].role
    ensures r[|r| - 1].content == messages[|messages| - 1].content + text
  {
    var last := messages[|messages| - 1];
    messages[..|messages| - 1] + [last.(content := last.content + text)]
  }

  /** The chunk updater applied once per chunk, in order. */
  function WithChunks(messages: seq<Message>, chunks: seq<string>): (r: seq<Message>)
    requires |messages| > 0
    ensures |r| == |messages|
  {
    if chunks == [] then messages
    else WithChunk(WithChunks(messages, chunks[..|chunks| - 1]), chunks[|chunks| - 1])
  }

  lemma WithChunksSnoc(messages: seq<Message>, chunks: seq<string>, text: string)
    requires |messages| > 0
    ensures WithChunks(messages, chunks + [text]) == WithChunk(WithChunks(messages, chunks), text)
  {
    assert (chunks + [text])[..|chunks|] == chunks;
  }

  /** However many chunks arrive, only the last message changes, it keeps
      its role, and its content grows by the chunks joined in order. */
  lemma {:induction false} ChunksAccumulate(messages: seq<Message>, chunks: seq<string>)
    requires |messages| > 0
    ensures var r := WithChunks(messages, chunks);
            var last := messages[|messages| - 1];
            r == messages[..|messages| - 1] + [last.(content := last.content + Concat(chunks))]
  {
    var last := messages[|messages| - 1];
    if chunks == [] {
      assert last.content + Concat(chunks) == last.content;
      assert messages == messages[..|messages| - 1] + [last];
    } else {
      var init := chunks[..|chunks| - 1];
      var c := chunks[|chunks| - 1];
      ChunksAccumulate(messages, init);
      ConcatSnoc(init, c);
      assert chunks == init + [c];
      var r' := WithChunks(messages, init);
      assert r' == messages[..|messages| - 1] + [last.(content := last.content + Concat(init))];
      assert r'[..|r'| - 1] == messages[..|messages| - 1];
      assert r'[|r'| - 1] == last.(content := last.content + Concat(init));
      assert WithChunks(messages, chunks) == WithChunk(r', c);
      assert Concat(chunks) == Concat(init) + c;
      assert last.content + Concat(init) + c == last.content + Concat(chunks);
    }
  }

  /** Two ways of splitting the same streamed text into chunks leave the
      same conversation. */
  lemma ChunkingIndependent(messages: seq<Message>, a: seq<string>, b: seq<string>)
    requires |messages| > 0
    requires Concat(a) == Concat(b)
    ensures WithChunks(messages, a) == WithChunks(messages, b)
  {
    ChunksAccumulate(messages, a);
    ChunksAccumulate(messages, b);
  }

  /** A complete exchange: the history, the user's turn, and an assistant
      message holding exactly the streamed text. */
  lemma ExchangeResult(history: seq<Message>, typed: string, chunks: seq<string>)
    ensures WithChunks(WithTurn(history, typed), chunks)
            == history + [Message(User, typed), Message(Assistant, Concat(chunks))]
  {
    var turn := WithTurn(history, typed);
    ChunksAccumulate(turn, chunks);
    assert turn[..|turn| - 1] == history + [Message(User, typed)];
    assert turn[|turn| - 1].content + Concat(chunks) == Concat(chunks);
  }

  // ---------------------------------------------------------------------
  // What the response reader yields
  // ---------------------------------------------------------------------

  /** One `reader.read()` result: the end of the stream, or a chunk whose
      value may be absent. Chunks are modelled already decoded. */
  datatype ReadResult = Done | Chunk(value: Option<string>)

  /** The text of a chunk: an absent value decodes as the empty string. */
  function Decoded(r: ReadResult): string
    requires r.Chunk?
  {
    if r.value.Some? then r.value.value else ""
  }

  /** The texts of the chunks read before the first `Done`. */
  function TextsUntilDone(results: seq<ReadResult>): (texts: seq<string>)
    ensures |texts| <= |results|
  {
    if results == [] || results[0].Done? then [] else [Decoded(results[0])] + TextsUntilDone(results[1..])
  }

  /** Reading stops at `Done`: whatever the reader would yield after it
      contributes nothing. */
  lemma {:induction false} DoneStops(results: seq<ReadResult>, rest: seq<ReadResult>)
    requires exists k :: 0 <= k < |results| && results[k].Done?
    ensures TextsUntilDone(results + rest) == TextsUntilDone(results)
  {
    assert (results + rest)[0] == results[0];
    if results[0].Chunk? {
      assert (results + rest)[1..] == results[1..] + rest;
      var k :| 0 <= k < |results| && results[k].Done?;
      assert results[1..][k - 1].Done?;
      DoneStops(results[1..], rest);
    }
  }

  /** Reading one more chunk, when no `Done` came before it, adds its text. */
  lemma {:induction false} TextsUntilDoneSnoc(results: seq<ReadResult>, i: nat)
    requires i < |results| && results[i].Chunk?
    requires forall j :: 0 <= j < i ==> results[j].Chunk?
    ensures TextsUntilDone(results[..i + 1]) == TextsUntilDone(results[..i]) + [Decoded(results[i])]
  {
    if i > 0 {
      assert results[..i + 1][1..] == results[1..][..i];
      assert results[..i][1..] == results[1..][..i - 1];
      TextsUntilDoneSnoc(results[1..], i - 1);
    }
  }

  /** Once a `Done` (or the end of the results) is reached, the texts read so
      far are all there will be. */
  lemma {:induction false} TextsUntilDoneStop(results: seq<ReadResult>, i: nat)
    requires i <= |results| && (i == |results| || results[i].Done?)
    requires forall j :: 0 <= j < i ==> results[j].Chunk?
    ensures TextsUntilDone(results) == TextsUntilDone(results[..i])
  {
    if i == |results| {
      assert results[..i] == results;
    } else if i == 0 {
    } else {
      assert results[..i][1..] == results[1..][..i - 1];
      TextsUntilDoneStop(results[1..], i - 1);
    }
  }

  // ---------------------------------------------------------------------
  // The page's state
  // ---------------------------------------------------------------------

  class Home {
    /** The conversation shown on the page. */
    var messages: seq<Message>
    /** The text field's current value. */
    var input: string

    /** The conversation is never empty: it starts with the greeting and
        only grows. */
    ghost predicate Valid()
      reads this
    {
      |messages| > 0
    }

    constructor ()
      ensures Valid()
      ensures messages == [Message(Assistant, Greeting)] && input == ""
    {
      messages := [Message(Assistant, Greeting)];
      input := "";
    }

    /** The text field's change handler. */
    method SetInput(text: string)
      requires Valid()
      modifies this
      ensures Valid()
      ensures input == text && messages == old(messages)
    {
      input := text;
    }

    /** The synchronous start of a send: clear the field, show the user's
        turn and the placeholder, and build the request body from the
        conversation as it was. */
    method StartSend() returns (body: seq<Message>)
      requires Valid()
      modifies this
      ensures Valid()
      ensures input == ""
      ensures messages == WithTurn(old(messages), old(input))
      ensures body == RequestBody(old(messages), old(input))
    {
      var message := input;
      body := RequestBody(messages, message);
      input := "";
      messages := WithTurn(messages, message);
    }

    /** One decoded chunk: replace the last message by itself with the
        chunk appended. */
    method AppendChunk(text: string)
      requires Valid()
      modifies this
      ensures Valid()
      ensures messages == WithChunk(old(messages), text)
      ensures input == old(input)
    {
      messages := WithChunk(messages, text);
    }

    /** The read loop: append each chunk until the reader reports `Done`.
        The value it returns is the never-updated `result`, the empty
        string. */
    method ProcessText(results: seq<ReadResult>) returns (result: string)
      requires Valid()
      modifies this
      ensures Valid()
      ensures result == ""
      ensures messages == WithChunks(old(messages), TextsUntilDone(results))
      ensures input == old(input)
    {
      result := "";
      ghost var start := messages;
      ghost var texts: seq<string> := [];
      var i := 0;
      while i < |results| && results[i].Chunk?
        invariant 0 <= i <= |results|
        invariant forall j :: 0 <= j < i ==> results[j].Chunk?
        invariant |start| > 0 && input == old(input)
        invariant texts == TextsUntilDone(results[..i])
        invariant messages == WithChunks(start, texts)
      {
        var text := Decoded(results[i]);
        TextsUntilDoneSnoc(results, i);
        WithChunksSnoc(start, texts, text);
        AppendChunk(text);
        texts := texts + [text];
        i := i + 1;
      }
      TextsUntilDoneStop(results, i);
    }

    /** The whole send: start it, then stream the reply into the
        placeholder. */
    method SendMessage(results: seq<ReadResult>) returns (body: seq<Message>, result: string)
      requires Valid()
      modifies this
      ensures Valid()
      ensures input == "" && result == ""
      ensures body == RequestBody(old(messages), old(input))
      ensures messages == old(messages) + [Message(User, old(input)),
                                           Message(Assistant, Concat(TextsUntilDone(results)))]
    {
      ghost var history, typed := messages, input;
      body := StartSend();
      result := ProcessText(results);
      ExchangeResult(history, typed, TextsUntilDone(results));
    }
  }
}
