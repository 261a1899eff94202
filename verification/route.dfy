/** The deterministic part of the chat endpoint's POST handler: the query
    taken from the conversation, the text block that lists the retrieval
    matches, the message list sent to the completion service, and the
    forwarding of the completion's text deltas to the response stream.
    The embedding service, the vector index and the completion service are
    parameters of `HandlePost`. */
module ChatRoute {
  import opened Common

  // ---------------------------------------------------------------------
  // Retrieval matches and the block that lists them
  // ---------------------------------------------------------------------

  /** A vector-index match: its identifier and its metadata, each value
      already rendered as text. */
  datatype Match = Match(id: string, metadata: map<string, string>)

  /** The fixed first line of the results block. */
  const Header: string := "\n\nReturned Results from vector db (done automatically):"

  /** The pieces of the entry template: the two line breaks it opens with,
      the literal indentation of its lines, the line names, and the
      indentation and two line breaks it closes with. */
  const Lead: string := "\n\n"
  const Indent: string := "        "
  const ProfessorName: string := "Professor: "
  const ReviewName: string := "Review: "
  const SubjectName: string := "Subject: "
  const StarsName: string := "Stars: "
  const Tail: string := Indent + "\n\n"

  /** A metadata value as a template literal renders it: a missing key
      reads as `undefined`. */
  function Field(m: Match, key: string): string
  {
    if key in m.metadata then m.metadata[key] else "undefined"
  }

  /** One indented `name value` line of the entry template. */
  function Line(name: string, value: string): string
  {
    Indent + name + value + "\n"
  }

  /** The templated entry for one match. `stars` is printed twice, once on
      the `Review:` line and once on the `Stars:` line. */
  function Entry(m: Match): string
  {
    Concat([Lead, Line(ProfessorName, m.id), Line(ReviewName, Field(m, "stars")),
            Line(SubjectName, Field(m, "subject")), Line(StarsName, Field(m, "stars")), Tail])
  }

  lemma EntryPieces(m: Match)
    ensures Entry(m) == Lead + Line(ProfessorName, m.id) + Line(ReviewName, Field(m, "stars"))
                        + Line(SubjectName, Field(m, "subject")) + Line(StarsName, Field(m, "stars")) + Tail
  {
    ConcatSix(Lead, Line(ProfessorName, m.id), Line(ReviewName, Field(m, "stars")),
              Line(SubjectName, Field(m, "subject")), Line(StarsName, Field(m, "stars")), Tail);
  }

  /** Four `indent name value newline` lines between a lead and a tail,
      regrouped so that each line break joins the next line's name. */
  lemma Regroup(lead: string, indent: string, nl: string, tail: string,
                n1: string, v1: string, n2: string, v2: string,
                n3: string, v3: string, n4: string, v4: string)
    ensures lead + (indent + n1 + v1 + nl) + (indent + n2 + v2 + nl)
            + (indent + n3 + v3 + nl) + (indent + n4 + v4 + nl) + tail
            == (lead + indent + n1) + v1 + (nl + indent + n2) + v2
               + (nl + indent + n3) + v3 + (nl + indent + n4) + v4 + (nl + tail)
  {
  }

  /** The entry written out character for character: two line breaks,
      four lines indented by eight spaces, then an indented line holding
      only spaces and two more line breaks. */
  lemma EntryLayout(m: Match)
    ensures Entry(m) == "\n\n        Professor: " + m.id
                        + "\n        Review: " + Field(m, "stars")
                        + "\n        Subject: " + Field(m, "subject")
                        + "\n        Stars: " + Field(m, "stars")
                        + "\n        \n\n"
  {
    EntryPieces(m);
    Regroup(Lead, Indent, "\n", Tail, ProfessorName, m.id, ReviewName, Field(m, "stars"),
            SubjectName, Field(m, "subject"), StarsName, Field(m, "stars"));
    assert Lead + Indent + ProfessorName == "\n\n        Professor: ";
    assert "\n" + Indent + ReviewName == "\n        Review: ";
    assert "\n" + Indent + SubjectName == "\n        Subject: ";
    assert "\n" + Indent + StarsName == "\n        Stars: ";
    assert "\n" + Tail == "\n        \n\n";
  }

  /** The entries of `ms`, one after the other, in order. */
  function Entries(ms: seq<Match>): string
  {
    if ms == [] then "" else Entries(ms[..|ms| - 1]) + Entry(ms[|ms| - 1])
  }

  /** The results block: the header followed by one entry per match. */
  function ResultBlock(ms: seq<Match>): (block: string)
    ensures Header <= block
    ensures ms == [] ==> block == Header
  {
    Header + Entries(ms)
  }

  /** The `forEach` loop that grows the results string one entry at a time. */
  method RenderResults(ms: seq<Match>) returns (block: string)
    ensures block == ResultBlock(ms)
  {
    block := Header;
    var i := 0;
    while i < |ms|
      invariant 0 <= i <= |ms|
      invariant block == Header + Entries(ms[..i])
    {
      assert ms[..i + 1][..i] == ms[..i];
      assert Entries(ms[..i + 1]) == Entries(ms[..i]) + Entry(ms[i]);
      block := block + Entry(ms[i]);
      i := i + 1;
    }
    assert ms[..i] == ms;
  }

  /** Listing two runs of matches lists the first run, then the second. */
  lemma {:induction false} EntriesAppend(a: seq<Match>, b: seq<Match>)
    ensures Entries(a + b) == Entries(a) + Entries(b)
  {
    if b == [] {
      assert a + b == a;
    } else {
      var b' := b[..|b| - 1];
      assert (a + b)[..|a + b| - 1] == a + b';
      assert (a + b)[|a + b| - 1] == b[|b| - 1];
      EntriesAppend(a, b');
    }
  }

  /** Match `i` is listed right after the entries of the matches before it
      and right before those after it. */
  lemma EntryAt(ms: seq<Match>, i: nat)
    requires i < |ms|
    ensures ResultBlock(ms) == Header + Entries(ms[..i]) + Entry(ms[i]) + Entries(ms[i + 1..])
  {
    assert ms == ms[..i] + [ms[i]] + ms[i + 1..];
    EntriesAppend(ms[..i] + [ms[i]], ms[i + 1..]);
    EntriesAppend(ms[..i], [ms[i]]);
    assert Entries([ms[i]]) == Entry(ms[i]) by {
      assert [ms[i]][..0] == [];
    }
  }

  /** A line shows its name followed by its value. */
  lemma LineShows(name: string, value: string)
    ensures Occurs(name + value, Line(name, value))
  {
    assert Line(name, value) == Indent + (name + value) + "\n";
    OccursBetween(Indent, name + value, "\n");
  }

  /** An entry names the match's identifier and its subject, and shows its
      `stars` value under both `Review:` and `Stars:`. */
  lemma EntryShowsFields(m: Match)
    ensures Occurs(ProfessorName + m.id, Entry(m))
    ensures Occurs(ReviewName + Field(m, "stars"), Entry(m))
    ensures Occurs(SubjectName + Field(m, "subject"), Entry(m))
    ensures Occurs(StarsName + Field(m, "stars"), Entry(m))
  {
    var parts := [Lead, Line(ProfessorName, m.id), Line(ReviewName, Field(m, "stars")),
                  Line(SubjectName, Field(m, "subject")), Line(StarsName, Field(m, "stars")), Tail];
    assert Entry(m) == Concat(parts);
    OccursInConcat(parts, 1);
    OccursInConcat(parts, 2);
    OccursInConcat(parts, 3);
    OccursInConcat(parts, 4);
    LineShows(ProfessorName, m.id);
    LineShows(ReviewName, Field(m, "stars"));
    LineShows(SubjectName, Field(m, "subject"));
    LineShows(StarsName, Field(m, "stars"));
    OccursTrans(ProfessorName + m.id, parts[1], Entry(m));
    OccursTrans(ReviewName + Field(m, "stars"), parts[2], Entry(m));
    OccursTrans(SubjectName + Field(m, "subject"), parts[3], Entry(m));
    OccursTrans(StarsName + Field(m, "stars"), parts[4], Entry(m));
  }

  /** Every match returned by the index is named in the results block,
      with its identifier, stars and subject. */
  lemma BlockListsMatch(ms: seq<Match>, i: nat)
    requires i < |ms|
    ensures Occurs(Entry(ms[i]), ResultBlock(ms))
    ensures Occurs(ProfessorName + ms[i].id, ResultBlock(ms))
    ensures Occurs(ReviewName + Field(ms[i], "stars"), ResultBlock(ms))
    ensures Occurs(SubjectName + Field(ms[i], "subject"), ResultBlock(ms))
    ensures Occurs(StarsName + Field(ms[i], "stars"), ResultBlock(ms))
  {
    EntryAt(ms, i);
    OccursBetween(Header + Entries(ms[..i]), Entry(ms[i]), Entries(ms[i + 1..]));
    EntryShowsFields(ms[i]);
    OccursTrans(ProfessorName + ms[i].id, Entry(ms[i]), ResultBlock(ms));
    OccursTrans(ReviewName + Field(ms[i], "stars"), Entry(ms[i]), ResultBlock(ms));
    OccursTrans(SubjectName + Field(ms[i], "subject"), Entry(ms[i]), ResultBlock(ms));
    OccursTrans(StarsName + Field(ms[i], "stars"), Entry(ms[i]), ResultBlock(ms));
  }

  // ---------------------------------------------------------------------
  // The message list sent to the completion service
  // ---------------------------------------------------------------------

  /** The query: the content of the newest message. */
  function Query(data: seq<Message>): (q: string)
    requires |data| > 0
  {
    data[|data| - 1].content
  }

  /** The newest message's content with the results block appended. */
  function AugmentedContent(data: seq<Message>, ms: seq<Match>): (c: string)
    requires |data| > 0
    ensures Query(data) <= c
    ensures c[|Query(data)|..] == ResultBlock(ms)
  {
    Query(data) + ResultBlock(ms)
  }

  /** Every message but the newest, in order. */
  function PriorHistory(data: seq<Message>): (prior: seq<Message>)
    requires |data| > 0
    ensures |prior| == |data| - 1
    ensures forall i :: 0 <= i < |prior| ==> prior[i] == data[i]
    ensures |data| == 1 ==> prior == []
  {
    data[..|data| - 1]
  }

  /** The completion request: the system instruction, the prior history
      unchanged, then the augmented query as a `user` message whatever role
      the newest message had. */
  function CompletionMessages(systemPrompt: string, data: seq<Message>, ms: seq<Match>): (msgs: seq<Message>)
    requires |data| > 0
    ensures |msgs| == |data| + 1
    ensures msgs[0] == Message(System, systemPrompt)
    ensures forall i :: 1 <= i < |data| ==> msgs[i] == data[i - 1]
    ensures msgs[|data|] == Message(User, AugmentedContent(data, ms))
  {
    [Message(System, systemPrompt)] + PriorHistory(data) + [Message(User, AugmentedContent(data, ms))]
  }

  /** The conversation can be read back from the completion request: drop
      the system instruction, and strip the results block from the final
      message's content (its role aside). */
  lemma CompletionRecoversConversation(systemPrompt: string, data: seq<Message>, ms: seq<Match>)
    requires |data| > 0
    ensures var msgs := CompletionMessages(systemPrompt, data, ms);
            var last := msgs[|msgs| - 1].content;
            |ResultBlock(ms)| <= |last| &&
            msgs[1..|msgs| - 1] + [data[|data| - 1].(content := last[..|last| - |ResultBlock(ms)|])] == data
  {
  }

  // ---------------------------------------------------------------------
  // Forwarding the completion stream
  // ---------------------------------------------------------------------

  /** How iteration over the completion stream ends. */
  datatype Outcome = Finished | Failed

  /** The completion stream: the delta contents it yields, in arrival order
      (`None` for an absent content field), then how it ends. A stream that
      fails at position k yields the k deltas before the failure. */
  datatype Upstream = Upstream(deltas: seq<Option<string>>, outcome: Outcome)

  /** The state the outgoing response stream is left in. */
  datatype StreamState = Closed | Errored

  /** A delta is forwarded when its content is present and non-empty. */
  predicate Forwardable(d: Option<string>)
  {
    d.Some? && d.value != ""
  }

  /** The text a delta carries, the empty string when absent. */
  function DeltaText(d: Option<string>): string
  {
    if d.Some? then d.value else ""
  }

  /** The deltas that reach the response stream, in arrival order. */
  function Forwarded(ds: seq<Option<string>>): (out: seq<string>)
    ensures |out| <= |ds|
    ensures forall j :: 0 <= j < |out| ==> out[j] != ""
  {
    if ds == [] then []
    else
      var last := ds[|ds| - 1];
      Forwarded(ds[..|ds| - 1]) + (if Forwardable(last) then [last.value] else [])
  }

  /** All the text the upstream produced, joined in arrival order. */
  function UpstreamText(ds: seq<Option<string>>): string
  {
    if ds == [] then "" else UpstreamText(ds[..|ds| - 1]) + DeltaText(ds[|ds| - 1])
  }

  /** The `for await` loop: enqueue each non-empty delta, then close, or
      put the stream in the error state when iteration fails. */
  method ForwardDeltas(up: Upstream) returns (sent: seq<string>, state: StreamState)
    ensures sent == Forwarded(up.deltas)
    ensures state == (if up.outcome == Failed then Errored else Closed)
  {
    sent := [];
    var i := 0;
    while i < |up.deltas|
      invariant 0 <= i <= |up.deltas|
      invariant sent == Forwarded(up.deltas[..i])
    {
      assert up.deltas[..i + 1][..i] == up.deltas[..i];
      var content := up.deltas[i];
      if Forwardable(content) {
        sent := sent + [content.value];
      }
      i := i + 1;
    }
    assert up.deltas[..i] == up.deltas;
    state := if up.outcome == Failed then Errored else Closed;
  }

  /** Dropping empty and absent deltas loses no text: the forwarded
      fragments join to everything the upstream produced. */
  lemma {:induction false} ForwardedText(ds: seq<Option<string>>)
    ensures Concat(Forwarded(ds)) == UpstreamText(ds)
  {
    if ds != [] {
      var init := ds[..|ds| - 1];
      var last := ds[|ds| - 1];
      ForwardedText(init);
      ConcatAppend(Forwarded(init), if Forwardable(last) then [last.value] else []);
      if Forwardable(last) {
        assert Concat([last.value]) == last.value + Concat([]);
      }
    }
  }

  /** Forwarding two runs of deltas forwards the first run's, then the second's. */
  lemma {:induction false} ForwardedAppend(a: seq<Option<string>>, b: seq<Option<string>>)
    ensures Forwarded(a + b) == Forwarded(a) + Forwarded(b)
  {
    if b == [] {
      assert a + b == a;
    } else {
      var b' := b[..|b| - 1];
      assert (a + b)[..|a + b| - 1] == a + b';
      assert (a + b)[|a + b| - 1] == b[|b| - 1];
      ForwardedAppend(a, b');
    }
  }

  /** An upstream that fails at position k has forwarded exactly the
      non-empty deltas before k: a prefix of what the complete stream
      forwards, and nothing from position k on. */
  lemma FailureTruncates(ds: seq<Option<string>>, k: nat)
    requires k <= |ds|
    ensures Forwarded(ds) == Forwarded(ds[..k]) + Forwarded(ds[k..])
    ensures Forwarded(ds[..k]) <= Forwarded(ds)
  {
    assert ds == ds[..k] + ds[k..];
    ForwardedAppend(ds[..k], ds[k..]);
  }

  /** A present, non-empty delta is forwarded, no later than its own
      position in the upstream. */
  lemma {:induction false} ForwardedIncludes(ds: seq<Option<string>>, i: nat)
    requires i < |ds| && Forwardable(ds[i])
    ensures exists j :: 0 <= j <= i && j < |Forwarded(ds)| && Forwarded(ds)[j] == ds[i].value
  {
    var init := ds[..|ds| - 1];
    if i == |ds| - 1 {
      var j := |Forwarded(init)|;
      assert Forwarded(ds)[j] == ds[i].value;
    } else {
      assert init[i] == ds[i];
      ForwardedIncludes(init, i);
      var j :| 0 <= j <= i && j < |Forwarded(init)| && Forwarded(init)[j] == ds[i].value;
      assert Forwarded(ds)[j] == ds[i].value;
    }
  }

  // ---------------------------------------------------------------------
  // The handler
  // ---------------------------------------------------------------------

  /** Why a request fails before any fragment is streamed. */
  datatype Fault = EmptyConversation | UpstreamRequestFailure

  /** What one request does: the query it retrieved for, the matches, the
      completion request, the fragments forwarded and the final state of
      the response stream. */
  datatype Reply = Reply(query: string, matches: seq<Match>, messages: seq<Message>,
                         sent: seq<string>, state: StreamState)

  /** POST. `retrieve` stands for the embedding call followed by the index
      query (`None` when either rejects); `complete` stands for the streaming
      completion call (`None` when it rejects). */
  method HandlePost(systemPrompt: string, data: seq<Message>,
                    retrieve: string -> Option<seq<Match>>,
                    complete: seq<Message> -> Option<Upstream>)
    returns (r: Result<Reply, Fault>)
    ensures |data| == 0 ==> r == Failure(EmptyConversation)
    ensures |data| > 0 && retrieve(Query(data)).None? ==> r == Failure(UpstreamRequestFailure)
    ensures |data| > 0 && retrieve(Query(data)).Some? ==>
              var ms := retrieve(Query(data)).value;
              var msgs := CompletionMessages(systemPrompt, data, ms);
              (complete(msgs).None? ==> r == Failure(UpstreamRequestFailure)) &&
              (complete(msgs).Some? ==>
                 r.Success? && r.value.query == Query(data) && r.value.matches == ms &&
                 r.value.messages == msgs &&
                 r.value.sent == Forwarded(complete(msgs).value.deltas) &&
                 r.value.state == (if complete(msgs).value.outcome == Failed then Errored else Closed))
  {
    if |data| == 0 {
      return Failure(EmptyConversation);
    }
    var text := data[|data| - 1].content;
    var results := retrieve(text);
    if results.None? {
      return Failure(UpstreamRequestFailure);
    }
    var resultString := RenderResults(results.value);
    var lastMessageContent := data[|data| - 1].content + resultString;
    var prior := data[..|data| - 1];
    var msgs := [Message(System, systemPrompt)] + prior + [Message(User, lastMessageContent)];
    var completion := complete(msgs);
    if completion.None? {
      return Failure(UpstreamRequestFailure);
    }
    var sent, state := ForwardDeltas(completion.value);
    return Success(Reply(text, results.value, msgs, sent, state));
  }
}
