/** The backend's chat route: it checks the question, builds the model
    input from the session history, and streams the model's reply as
    server-sent event records, writing the exchange back to the history
    when the stream ends. */
module AgriApi {
  import opened Wrappers
  import opened Text
  import Json
  import Storage

  type Message = Storage.Message

  /** What the language model's stream delivers: the `content` of each
      chunk in order and, when the stream raised, the exception's text. */
  datatype TokenStream = TokenStream(contents: seq<string>, failure: Option<string>)

  /** The fields of the request body; every field is text here. */
  type RequestBody = map<string, string>

  /** The question, place and optional crop one request asks about. */
  datatype Query = Query(question: string, location: string, crop: Option<string>)

  /** What the route answers: a JSON reply with a status, or an event stream. */
  datatype Response = JsonReply(status: int, body: Json.Document) | EventStream(records: seq<string>)

  const DefaultLocation: string := "India"
  const MissingQuestion: string := "Please provide a question."

  /** How many past messages go into the model input. */
  const HistoryWindow: int := 10

  /** The fixed instruction text that opens the system prompt, represented
      by its first line. */
  const Instructions: string := "You are a practical agriculture expert helping Indian farmers."

  const RecordPrefix: string := "data: "
  const RecordEnd: string := "\n\n"

  // ---------------------------------------------------------------------
  // Request handling and the model input.
  // ---------------------------------------------------------------------

  /** The body's fields with their defaults: no question is the empty
      question, no location is India, and no crop is absent. */
  function ReadQuery(body: RequestBody): (q: Query)
    ensures "question" in body ==> q.question == body["question"]
    ensures "question" !in body ==> q.question == ""
    ensures "location" in body ==> q.location == body["location"]
    ensures "location" !in body ==> q.location == DefaultLocation
    ensures q.crop.Some? <==> "crop" in body
    ensures q.crop.Some? ==> q.crop.value == body["crop"]
  {
    Query(if "question" in body then body["question"] else "",
          if "location" in body then body["location"] else DefaultLocation,
          if "crop" in body then Some(body["crop"]) else None)
  }

  /** How Python formats the optional crop inside the prompt. */
  function CropText(crop: Option<string>): (r: string)
    ensures crop.Some? ==> r == crop.value
    ensures crop.None? ==> r == "None"
  {
    match crop
    case Some(c) => c
    case None => "None"
  }

  /** The system prompt: the instructions, then the location and the crop
      on lines of their own. */
  function SystemPrompt(location: string, crop: Option<string>): (r: string)
    ensures StartsWith(r, "\n" + Instructions + "\n")
    ensures var tail := "\nLocation: " + location + "\nCrop (if provided): " + CropText(crop) + "\n";
            |tail| <= |r| && r[|r| - |tail|..] == tail
  {
    var head := "\n" + Instructions + "\n";
    var tail := "\nLocation: " + location + "\nCrop (if provided): " + CropText(crop) + "\n";
    assert (head + tail)[..|head|] == head;
    assert (head + tail)[|head|..] == tail;
    head + tail
  }

  /** The messages sent to the model: the system prompt, the last (at most
      ten) history entries in their order, then the question. */
  function ModelInput(systemPrompt: string, history: seq<Message>, question: string): (msgs: seq<Message>)
    ensures |msgs| == 2 + Storage.Min(HistoryWindow, |history|)
    ensures msgs[0] == Storage.Message("system", systemPrompt)
    ensures msgs[|msgs| - 1] == Storage.Message("user", question)
    ensures msgs[1..|msgs| - 1] == history[|history| - (|msgs| - 2)..]
  {
    var recent := Storage.LastItems(history, HistoryWindow);
    var msgs := [Storage.Message("system", systemPrompt)] + recent + [Storage.Message("user", question)];
    assert msgs[1..|msgs| - 1] == recent;
    msgs
  }

  /** The model input never holds more than twelve messages. */
  lemma ModelInputBound(systemPrompt: string, history: seq<Message>, question: string)
    ensures |ModelInput(systemPrompt, history, question)| <= 12
  {
  }

  // ---------------------------------------------------------------------
  // Event records.
  // ---------------------------------------------------------------------

  function TokenPayload(token: string): Json.Document
  {
    Json.Object([("token", Json.Str(token))])
  }

  function ErrorPayload(message: string): Json.Document
  {
    Json.Object([("error", Json.Str(message))])
  }

  const DonePayload: Json.Document := Json.Object([("done", Json.Bool(true))])

  /** One event record: `data: `, the payload's JSON text, a blank line. */
  function Record(payload: Json.Document): (r: string)
    ensures StartsWith(r, RecordPrefix)
    ensures r[|r| - |RecordEnd|..] == RecordEnd
  {
    RecordPrefix + Json.Dump(payload) + RecordEnd
  }

  /** A record ends in the only blank line it holds: the JSON text in it
      has no line break. */
  lemma RecordFraming(payload: Json.Document)
    ensures var body := Json.Dump(payload);
            Record(payload) == RecordPrefix + body + RecordEnd
            && forall i :: 0 <= i < |body| ==> body[i] != '\n'
  {
    Json.DumpPrintable(payload);
  }

  function Records(payloads: seq<Json.Document>): (r: seq<string>)
    ensures |r| == |payloads|
    ensures forall i :: 0 <= i < |r| ==> r[i] == Record(payloads[i])
  {
    seq(|payloads|, i requires 0 <= i < |payloads| => Record(payloads[i]))
  }

  function TokenPayloads(tokens: seq<string>): (r: seq<Json.Document>)
    ensures |r| == |tokens|
    ensures forall i :: 0 <= i < |r| ==> r[i] == TokenPayload(tokens[i])
  {
    seq(|tokens|, i requires 0 <= i < |tokens| => TokenPayload(tokens[i]))
  }

  /** The payloads of one run: a token payload per emitted token, an error
      payload when the model's stream raised, and the done payload. */
  function StreamPayloads(stream: TokenStream): (r: seq<Json.Document>)
    ensures r != [] && r[|r| - 1] == DonePayload
  {
    TokenPayloads(NonEmpty(stream.contents)) + ClosingPayloads(stream.failure)
  }

  /** What follows the tokens: the error payload when the model's stream
      raised, then the done payload. */
  function ClosingPayloads(failure: Option<string>): seq<Json.Document>
  {
    (if failure.Some? then [ErrorPayload(failure.value)] else []) + [DonePayload]
  }

  /** The shape of every stream: it ends with the done payload; before it
      comes an error payload exactly when the model's stream raised, and
      before that one token payload per non-empty chunk, in order. */
  lemma StreamShape(stream: TokenStream)
    ensures var ps := StreamPayloads(stream);
            var tokens := NonEmpty(stream.contents);
            var failed := if stream.failure.Some? then 1 else 0;
            && |ps| == |tokens| + failed + 1
            && (forall i :: 0 <= i < |tokens| ==> tokens[i] != "")
            && ps[|ps| - 1] == DonePayload
            && (forall i :: 0 <= i < |tokens| ==> ps[i] == TokenPayload(tokens[i]))
            && (stream.failure.Some? ==> ps[|tokens|] == ErrorPayload(stream.failure.value))
  {
    NonEmptyKeepsText(stream.contents);
  }

  /** The done payload is sent once, last; the payloads after the tokens
      carry no `token` member, so the page shows nothing for them. */
  lemma StreamMarkers(stream: TokenStream)
    ensures var ps := StreamPayloads(stream);
            var tokens := NonEmpty(stream.contents);
            && (forall i :: 0 <= i < |ps| - 1 ==> ps[i] != DonePayload)
            && (forall i :: |tokens| <= i < |ps| ==> ps[i].Object? && Json.Get(ps[i].members, "token").None?)
  {
    var ps := StreamPayloads(stream);
    var tokens := NonEmpty(stream.contents);
    forall i | 0 <= i < |ps| - 1
      ensures ps[i] != DonePayload
    {
      if i < |tokens| {
        assert ps[i] == TokenPayload(tokens[i]);
      }
    }
  }

  /** The history after one exchange: the question and then the reply are
      appended, and the list is trimmed to its last twenty entries. */
  function Exchange(files: Storage.Files, sessionId: string, question: string, reply: string): (r: Storage.Files)
    ensures r.Keys == files.Keys + {Storage.FilePath(sessionId)}
  {
    var withQuestion := Storage.Appended(files, sessionId, "user", question);
    var withReply := Storage.Appended(withQuestion, sessionId, "assistant", reply);
    Storage.Trimmed(withReply, sessionId, Storage.DefaultMaxMessages)
  }

  /** After an exchange the session's history is the newest twenty of the
      old history plus the question and the reply, which are its last two
      entries. */
  lemma ExchangeRecorded(files: Storage.Files, sessionId: string, question: string, reply: string)
    ensures var before := Storage.Load(files, sessionId);
            var after := Storage.Load(Exchange(files, sessionId, question, reply), sessionId);
            var added := [Storage.Message("user", question), Storage.Message("assistant", reply)];
            && after == Storage.LastItems(before + added, Storage.DefaultMaxMessages)
            && 2 <= |after| <= Storage.DefaultMaxMessages
            && after[|after| - 2..] == added
  {
    var withQuestion := Storage.Appended(files, sessionId, "user", question);
    var withReply := Storage.Appended(withQuestion, sessionId, "assistant", reply);
    var before := Storage.Load(files, sessionId);
    var added := [Storage.Message("user", question), Storage.Message("assistant", reply)];
    Storage.LoadAfterAppend(files, sessionId, "user", question);
    Storage.LoadAfterAppend(withQuestion, sessionId, "assistant", reply);
    assert Storage.Load(withReply, sessionId) == before + added;
    Storage.LoadAfterTrim(withReply, sessionId, Storage.DefaultMaxMessages);
    var after := Storage.LastItems(before + added, Storage.DefaultMaxMessages);
    assert after[|after| - 2..] == (before + added)[|before + added| - 2..] == added;
  }

  /** An exchange leaves every other session's history as it was. */
  lemma ExchangeIsolated(files: Storage.Files, sessionId: string, question: string, reply: string, other: string)
    requires other != sessionId
    ensures Storage.Load(Exchange(files, sessionId, question, reply), other) == Storage.Load(files, other)
  {
    var withQuestion := Storage.Appended(files, sessionId, "user", question);
    var withReply := Storage.Appended(withQuestion, sessionId, "assistant", reply);
    Storage.OtherSessionsUnaffected(files, sessionId, other, [], "user", question, 0);
    Storage.OtherSessionsUnaffected(withQuestion, sessionId, other, [], "assistant", reply, 0);
    Storage.OtherSessionsUnaffected(withReply, sessionId, other, [], "", "", Storage.DefaultMaxMessages);
  }

  // ---------------------------------------------------------------------
  // The generator and the route.
  // ---------------------------------------------------------------------

  lemma RecordsAppend(payloads: seq<Json.Document>, more: seq<Json.Document>)
    ensures Records(payloads + more) == Records(payloads) + Records(more)
  {
    var joined := Records(payloads + more);
    var parts := Records(payloads) + Records(more);
    forall i | 0 <= i < |joined|
      ensures joined[i] == parts[i]
    {
      if i < |payloads| {
        assert (payloads + more)[i] == payloads[i];
      } else {
        assert (payloads + more)[i] == more[i - |payloads|];
      }
    }
  }

  lemma TokenPayloadsAppend(tokens: seq<string>, token: string)
    ensures TokenPayloads(tokens + [token]) == TokenPayloads(tokens) + [TokenPayload(token)]
  {
    var joined := TokenPayloads(tokens + [token]);
    var parts := TokenPayloads(tokens) + [TokenPayload(token)];
    forall i | 0 <= i < |joined|
      ensures joined[i] == parts[i]
    {
      assert (tokens + [token])[i] == if i < |tokens| then tokens[i] else token;
    }
  }

  /** One more chunk: a non-empty one extends the reply by its text and
      the records by its token record; an empty one changes neither. */
  lemma ForwardStep(contents: seq<string>, i: nat)
    requires i < |contents|
    ensures var before := NonEmpty(contents[..i]);
            var after := NonEmpty(contents[..i + 1]);
            var token := contents[i];
            && (token != "" ==> Concat(after) == Concat(before) + token)
            && (token != "" ==> Records(TokenPayloads(after))
                                == Records(TokenPayloads(before)) + Records([TokenPayload(token)]))
            && (token == "" ==> after == before)
  {
    var before := NonEmpty(contents[..i]);
    var token := contents[i];
    NonEmptyStep(contents, i);
    if token != "" {
      ConcatLast(before, token);
      TokenPayloadsAppend(before, token);
      RecordsAppend(TokenPayloads(before), [TokenPayload(token)]);
    } else {
      assert before + [] == before;
    }
  }

  /** The records after the tokens: the error record, if any, then the
      done record. */
  lemma ClosingRecords(tokens: seq<string>, failure: Option<string>, errorRecords: seq<string>)
    requires errorRecords == if failure.Some? then Records([ErrorPayload(failure.value)]) else []
    ensures Records(TokenPayloads(tokens) + ClosingPayloads(failure))
         == Records(TokenPayloads(tokens)) + errorRecords + Records([DonePayload])
  {
    var errors := if failure.Some? then [ErrorPayload(failure.value)] else [];
    RecordsAppend(errors, [DonePayload]);
    if failure.None? {
      assert Records(errors) == [];
    }
    RecordsAppend(TokenPayloads(tokens), ClosingPayloads(failure));
    AppendAssociative(Records(TokenPayloads(tokens)), errorRecords, Records([DonePayload]));
  }

  /** The loop of `generate` over the model's chunks: each non-empty
      chunk is forwarded as a token record and appended to the reply;
      empty chunks are skipped. */
  method ForwardTokens(contents: seq<string>) returns (records: seq<string>, fullReply: string)
    ensures records == Records(TokenPayloads(NonEmpty(contents)))
    ensures fullReply == Concat(NonEmpty(contents))
  {
    fullReply := "";
    records := [];
    var i := 0;
    while i < |contents|
      invariant 0 <= i <= |contents|
      invariant fullReply == Concat(NonEmpty(contents[..i]))
      invariant records == Records(TokenPayloads(NonEmpty(contents[..i])))
    {
      var token := contents[i];
      ForwardStep(contents, i);
      if token != "" {
        fullReply := fullReply + token;
        records := records + Records([TokenPayload(token)]);
      }
      i := i + 1;
    }
    assert contents[..i] == contents;
  }

  /** `generate`, run to completion: forwards each non-empty chunk as a
      token record while growing the full reply, adds an error record when
      the model's stream raised, then writes the exchange to the history
      and ends with the done record. */
  method Generate(store: Storage.HistoryStore, sessionId: string, question: string, stream: TokenStream)
    returns (records: seq<string>, fullReply: string)
    modifies store
    ensures records == Records(StreamPayloads(stream))
    ensures fullReply == Concat(NonEmpty(stream.contents))
    ensures store.files == Exchange(old(store.files), sessionId, question, fullReply)
  {
    records, fullReply := ForwardTokens(stream.contents);
    var errorRecords := [];
    if stream.failure.Some? {
      errorRecords := Records([ErrorPayload(stream.failure.value)]);
    }
    ClosingRecords(NonEmpty(stream.contents), stream.failure, errorRecords);
    records := records + errorRecords;
    store.AppendMessage(sessionId, "user", question);
    store.AppendMessage(sessionId, "assistant", fullReply);
    store.TrimHistory(sessionId, Storage.DefaultMaxMessages);
    records := records + Records([DonePayload]);
  }

  /** `agri_agent`: an empty question is refused with status 400 and
      nothing stored; any other question is answered with the event stream
      of the model's reply to the input built from the stored history, and
      the exchange is recorded. */
  method AgriAgent(store: Storage.HistoryStore, sessionId: string, body: RequestBody,
                   model: seq<Message> -> TokenStream)
    returns (response: Response)
    modifies store
    ensures var q := ReadQuery(body);
            q.question == "" ==>
              && response == JsonReply(400, Json.Object([("error", Json.Str(MissingQuestion))]))
              && store.files == old(store.files)
    ensures var q := ReadQuery(body);
            var input := ModelInput(SystemPrompt(q.location, q.crop),
                                    Storage.Load(old(store.files), sessionId), q.question);
            var stream := model(input);
            q.question != "" ==>
              && response == EventStream(Records(StreamPayloads(stream)))
              && store.files == Exchange(old(store.files), sessionId, q.question,
                                         Concat(NonEmpty(stream.contents)))
  {
    var q := ReadQuery(body);
    if q.question == "" {
      return JsonReply(400, Json.Object([("error", Json.Str(MissingQuestion))]));
    }
    var prompt := SystemPrompt(q.location, q.crop);
    var history := store.LoadHistory(sessionId);
    var input := ModelInput(prompt, history, q.question);
    var records, fullReply := Generate(store, sessionId, q.question, model(input));
    response := EventStream(records);
  }

  /** The clear route: the session's history file is removed. */
  method ClearAgriHistory(store: Storage.HistoryStore, sessionId: string) returns (response: Response)
    modifies store
    ensures response == JsonReply(200, Json.Object([("status", Json.Str("cleared"))]))
    ensures store.files == Storage.Cleared(old(store.files), sessionId)
  {
    store.ClearHistory(sessionId);
    response := JsonReply(200, Json.Object([("status", Json.Str("cleared"))]));
  }
}
