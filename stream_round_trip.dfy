/** The backend's event records read by the browser: the records of one
    generator run, delivered in chunks of whole records, give the page
    exactly the reply the backend stored; a record cut across two chunks
    is not put back together. */
module RoundTrip {
  import opened Wrappers
  import opened Text
  import Json
  import AgriApi
  import opened EventStream

  /** The pieces a blank line closes in the records' text: each record
      without its final blank line. */
  function Bodies(payloads: seq<Json.Document>): (r: seq<string>)
    ensures |r| == |payloads|
    ensures forall i :: 0 <= i < |r| ==> r[i] == DataPrefix + Json.Dump(payloads[i])
  {
    seq(|payloads|, i requires 0 <= i < |payloads| => DataPrefix + Json.Dump(payloads[i]))
  }

  /** The payload lists of several chunks, one after the other. */
  function Flatten(groups: seq<seq<Json.Document>>): seq<Json.Document>
  {
    if groups == [] then [] else Flatten(groups[..|groups| - 1]) + groups[|groups| - 1]
  }

  /** The text of the records of `payloads`, back to back. */
  function RecordsText(payloads: seq<Json.Document>): string
  {
    Concat(AgriApi.Records(payloads))
  }

  // ---------------------------------------------------------------------
  // Splitting text made of lines that each end in a blank line.
  // ---------------------------------------------------------------------

  predicate NoLineFeed(line: string)
  {
    forall j :: 0 <= j < |line| ==> line[j] != '\n'
  }

  /** Each line followed by a blank line. */
  function Terminated(lines: seq<string>): (r: seq<string>)
    ensures |r| == |lines|
    ensures forall i :: 0 <= i < |r| ==> r[i] == lines[i] + Blank
  {
    seq(|lines|, i requires 0 <= i < |lines| => lines[i] + Blank)
  }

  lemma ConcatCons(x: string, rest: seq<string>)
    ensures Concat([x] + rest) == x + Concat(rest)
  {
    ConcatAppend([x], rest);
    var none: seq<string> := [];
    assert [x][..0] == none;
  }

  lemma TerminatedCons(lines: seq<string>)
    requires lines != []
    ensures Terminated(lines) == [lines[0] + Blank] + Terminated(lines[1..])
  {
    var whole := Terminated(lines);
    var parts := [lines[0] + Blank] + Terminated(lines[1..]);
    forall i | 0 <= i < |whole|
      ensures whole[i] == parts[i]
    {
      if i > 0 {
        assert lines[1..][i - 1] == lines[i];
      }
    }
  }

  /** The first line and its blank line split off the front. */
  lemma SplitTerminatedStep(lines: seq<string>)
    requires lines != [] && NoLineFeed(lines[0])
    ensures SplitOnBlank(Concat(Terminated(lines)))
         == [lines[0]] + SplitOnBlank(Concat(Terminated(lines[1..])))
  {
    TerminatedCons(lines);
    ConcatCons(lines[0] + Blank, Terminated(lines[1..]));
    SplitAfterLine(lines[0], Concat(Terminated(lines[1..])));
  }

  /** Lines free of line feeds, each ended by a blank line, split back
      into the lines and one empty piece after the last blank line. */
  lemma {:induction false} SplitTerminated(lines: seq<string>)
    requires forall i :: 0 <= i < |lines| ==> NoLineFeed(lines[i])
    ensures SplitOnBlank(Concat(Terminated(lines))) == lines + [""]
    decreases |lines|
  {
    if lines == [] {
      assert Terminated(lines) == [];
      assert SplitOnBlank("") == [""];
    } else {
      var rest := lines[1..];
      SplitTerminatedStep(lines);
      SplitTerminated(rest);
      AppendAssociative([lines[0]], rest, [""]);
      assert lines == [lines[0]] + rest;
    }
  }

  /** A chunk of such lines, none of them empty, has exactly the lines as
      its events. */
  lemma ChunkOfLines(lines: seq<string>)
    requires forall i :: 0 <= i < |lines| ==> NoLineFeed(lines[i]) && lines[i] != ""
    ensures ChunkEvents(Concat(Terminated(lines))) == lines
  {
    SplitTerminated(lines);
    assert (lines + [""])[..|lines|] == lines;
    NonEmptyIdentity(lines);
  }

  /** One record is its body and a blank line, and the body holds no line
      feed. */
  lemma BodyOfRecord(p: Json.Document)
    ensures AgriApi.Record(p) == (DataPrefix + Json.Dump(p)) + Blank
    ensures NoLineFeed(DataPrefix + Json.Dump(p))
  {
    AgriApi.RecordFraming(p);
    var body := DataPrefix + Json.Dump(p);
    forall i | 0 <= i < |body| ensures body[i] != '\n' {
      if i >= |DataPrefix| {
        assert body[i] == Json.Dump(p)[i - |DataPrefix|];
      }
    }
  }

  /** The records are the bodies, each ended by a blank line; no body is
      empty or holds a line feed. */
  lemma RecordsAreTerminated(payloads: seq<Json.Document>)
    ensures AgriApi.Records(payloads) == Terminated(Bodies(payloads))
    ensures forall i :: 0 <= i < |payloads| ==> NoLineFeed(Bodies(payloads)[i]) && Bodies(payloads)[i] != ""
  {
    var bodies := Bodies(payloads);
    forall i | 0 <= i < |payloads|
      ensures AgriApi.Records(payloads)[i] == bodies[i] + Blank
      ensures NoLineFeed(bodies[i]) && bodies[i] != ""
    {
      BodyOfRecord(payloads[i]);
    }
  }

  /** The events of a chunk holding whole records are the records' bodies. */
  lemma ChunkOfRecords(payloads: seq<Json.Document>)
    ensures ChunkEvents(RecordsText(payloads)) == Bodies(payloads)
  {
    RecordsAreTerminated(payloads);
    ChunkOfLines(Bodies(payloads));
  }

  /** Splitting the records' text closes every body and leaves nothing
      pending. */
  lemma SplitRecords(payloads: seq<Json.Document>)
    ensures SplitOnBlank(RecordsText(payloads)) == Bodies(payloads) + [""]
  {
    RecordsAreTerminated(payloads);
    SplitTerminated(Bodies(payloads));
  }

  // ---------------------------------------------------------------------
  // Reading the bodies.
  // ---------------------------------------------------------------------

  /** The texts reading `payloads` appends, in order: their truthy token
      fields. */
  function TokenTexts(payloads: seq<Json.Document>): seq<string>
  {
    if payloads == [] then []
    else
      var last := TokenOf(payloads[|payloads| - 1]);
      TokenTexts(payloads[..|payloads| - 1]) + (if last.Truthy? then [last.text] else [])
  }

  predicate NeverThrows(payloads: seq<Json.Document>)
  {
    forall i :: 0 <= i < |payloads| ==> TokenOf(payloads[i]) != Throws
  }

  /** `events` are the bodies of the records of `payloads`, one for one. */
  predicate BodiesOf(events: seq<string>, payloads: seq<Json.Document>)
    decreases |events|
  {
    |events| == |payloads| &&
    (events == [] ||
     (events[0] == DataPrefix + Json.Dump(payloads[0]) && BodiesOf(events[1..], payloads[1..])))
  }

  lemma {:induction false} BodiesOfIndex(events: seq<string>, payloads: seq<Json.Document>)
    requires BodiesOf(events, payloads)
    ensures |events| == |payloads|
    ensures forall i :: 0 <= i < |events| ==> events[i] == DataPrefix + Json.Dump(payloads[i])
    decreases |events|
  {
    if events != [] {
      BodiesOfIndex(events[1..], payloads[1..]);
      forall i | 0 <= i < |events|
        ensures events[i] == DataPrefix + Json.Dump(payloads[i])
      {
        if i > 0 {
          assert events[i] == events[1..][i - 1];
          assert payloads[i] == payloads[1..][i - 1];
        }
      }
    }
  }

  lemma {:induction false} BodiesOfFront(events: seq<string>, payloads: seq<Json.Document>, n: nat)
    requires BodiesOf(events, payloads) && n <= |events|
    ensures BodiesOf(events[..n], payloads[..n])
    decreases |events|
  {
    if n > 0 {
      BodiesOfFront(events[1..], payloads[1..], n - 1);
      assert events[..n][1..] == events[1..][..n - 1];
      assert payloads[..n][1..] == payloads[1..][..n - 1];
    }
  }

  /** The bodies the comprehension builds are the bodies of the payloads. */
  lemma {:induction false} BodiesAreBodiesOf(payloads: seq<Json.Document>)
    ensures BodiesOf(Bodies(payloads), payloads)
    decreases |payloads|
  {
    if payloads != [] {
      BodiesAreBodiesOf(payloads[1..]);
      assert Bodies(payloads)[1..] == Bodies(payloads[1..]);
    }
  }

  /** Reading the record of the last payload, which does not throw. */
  lemma FoldLastBody(p: Progress, events: seq<string>, payloads: seq<Json.Document>)
    requires BodiesOf(events, payloads) && events != []
    requires !FoldEvents(p, events[..|events| - 1]).threw && TokenOf(payloads[|payloads| - 1]) != Throws
    ensures var before := FoldEvents(p, events[..|events| - 1]);
            var after := FoldEvents(p, events);
            var last := TokenOf(payloads[|payloads| - 1]);
            !after.threw && after.full == before.full + (if last.Truthy? then last.text else "")
  {
    BodiesOfIndex(events, payloads);
    FoldRecord(p, events, payloads[|payloads| - 1]);
  }

  /** Reading the bodies of payloads that never throw appends their token
      texts and throws nothing. */
  lemma {:induction false} FoldBodies(p: Progress, events: seq<string>, payloads: seq<Json.Document>)
    requires !p.threw && NeverThrows(payloads) && BodiesOf(events, payloads)
    ensures var q := FoldEvents(p, events);
            q.full == p.full + Concat(TokenTexts(payloads)) && !q.threw
    decreases |payloads|
  {
    if payloads != [] {
      var n := |payloads| - 1;
      var front := payloads[..n];
      var last := payloads[n];
      BodiesOfFront(events, payloads, n);
      FoldBodies(p, events[..n], front);
      var texts := Concat(TokenTexts(front));
      assert TokenOf(last) != Throws;
      FoldLastBody(p, events, payloads);
      TextsStep(payloads);
      if TokenOf(last).Truthy? {
        ConcatLast(TokenTexts(front), TokenOf(last).text);
        AppendAssociative(p.full, texts, TokenOf(last).text);
      } else {
        assert TokenTexts(payloads) == TokenTexts(front);
        assert (p.full + texts) + "" == p.full + texts;
      }
    }
  }

  lemma TextsStep(payloads: seq<Json.Document>)
    requires payloads != []
    ensures var n := |payloads| - 1;
            var last := TokenOf(payloads[n]);
            TokenTexts(payloads) == TokenTexts(payloads[..n]) + (if last.Truthy? then [last.text] else [])
  {
  }

  lemma {:induction false} TokenTextsAppend(a: seq<Json.Document>, b: seq<Json.Document>)
    ensures TokenTexts(a + b) == TokenTexts(a) + TokenTexts(b)
    decreases |b|
  {
    if b == [] {
      assert a + b == a;
    } else {
      var b' := b[..|b| - 1];
      assert (a + b)[..|a + b| - 1] == a + b';
      TokenTextsAppend(a, b');
    }
  }

  /** Token payloads for non-empty tokens read back as those tokens. */
  lemma {:induction false} TokenTextsOfTokens(tokens: seq<string>)
    requires forall i :: 0 <= i < |tokens| ==> tokens[i] != ""
    ensures TokenTexts(AgriApi.TokenPayloads(tokens)) == tokens
    ensures NeverThrows(AgriApi.TokenPayloads(tokens))
    decreases |tokens|
  {
    if tokens != [] {
      var front := tokens[..|tokens| - 1];
      var ps := AgriApi.TokenPayloads(tokens);
      assert ps[..|ps| - 1] == AgriApi.TokenPayloads(front);
      TokenTextsOfTokens(front);
    }
  }

  /** One run's payloads never throw, and their token texts are the
      non-empty chunk contents: the error and done payloads add nothing. */
  lemma StreamTokenTexts(stream: AgriApi.TokenStream)
    ensures TokenTexts(AgriApi.StreamPayloads(stream)) == NonEmpty(stream.contents)
    ensures NeverThrows(AgriApi.StreamPayloads(stream))
  {
    NonEmptyKeepsText(stream.contents);
    PayloadTexts(NonEmpty(stream.contents), stream.failure);
  }

  lemma PayloadTexts(tokens: seq<string>, failure: Option<string>)
    requires forall i :: 0 <= i < |tokens| ==> tokens[i] != ""
    ensures var ps := AgriApi.TokenPayloads(tokens) + AgriApi.ClosingPayloads(failure);
            TokenTexts(ps) == tokens && NeverThrows(ps)
  {
    TokenTextsOfTokens(tokens);
    ClosingTexts(failure);
    TokenTextsAppend(AgriApi.TokenPayloads(tokens), AgriApi.ClosingPayloads(failure));
  }

  /** The payloads after the tokens: the error payload when the model's
      stream raised, then the done payload. */
  lemma ClosingTexts(failure: Option<string>)
    ensures TokenTexts(AgriApi.ClosingPayloads(failure)) == [] && NeverThrows(AgriApi.ClosingPayloads(failure))
  {
    var done := AgriApi.DonePayload;
    var none: seq<Json.Document> := [];
    assert TokenOf(done) == Falsy;
    if failure.Some? {
      var error := AgriApi.ErrorPayload(failure.value);
      assert TokenOf(error) == Falsy;
      var closing := [error, done];
      assert AgriApi.ClosingPayloads(failure) == closing;
      TextsStep(closing);
      assert closing[..1] == [error];
      TextsStep([error]);
      assert [error][..0] == none;
    } else {
      assert AgriApi.ClosingPayloads(failure) == [done];
      TextsStep([done]);
      assert [done][..0] == none;
    }
  }

  /** The bodies of one run's records, read from any reading state that
      has not thrown, append exactly the full reply and throw nothing. */
  lemma StreamBodiesRead(p: Progress, stream: AgriApi.TokenStream)
    requires !p.threw
    ensures var q := FoldEvents(p, Bodies(AgriApi.StreamPayloads(stream)));
            q.full == p.full + Concat(NonEmpty(stream.contents)) && !q.threw
  {
    StreamTokenTexts(stream);
    BodiesAreBodiesOf(AgriApi.StreamPayloads(stream));
    FoldBodies(p, Bodies(AgriApi.StreamPayloads(stream)), AgriApi.StreamPayloads(stream));
  }

  lemma BodiesAppend(a: seq<Json.Document>, b: seq<Json.Document>)
    ensures Bodies(a + b) == Bodies(a) + Bodies(b)
  {
    var joined := Bodies(a + b);
    var parts := Bodies(a) + Bodies(b);
    forall i | 0 <= i < |joined|
      ensures joined[i] == parts[i]
    {
      if i < |a| {
        assert (a + b)[i] == a[i];
      } else {
        assert (a + b)[i] == b[i - |a|];
      }
    }
  }

  // ---------------------------------------------------------------------
  // The round trip.
  // ---------------------------------------------------------------------

  /** The chunks that deliver `groups` of payloads, each chunk holding the
      records of one group. */
  function ChunksOf(groups: seq<seq<Json.Document>>): (chunks: seq<string>)
    ensures |chunks| == |groups|
    ensures forall i :: 0 <= i < |groups| ==> chunks[i] == RecordsText(groups[i])
  {
    seq(|groups|, i requires 0 <= i < |groups| => RecordsText(groups[i]))
  }

  /** Chunks made of whole records read as the records' bodies in order. */
  lemma {:induction false} ReadWholeRecords(groups: seq<seq<Json.Document>>)
    ensures ReadChunks(ChunksOf(groups)) == FoldEvents(Start, Bodies(Flatten(groups)))
    decreases |groups|
  {
    if groups != [] {
      var front := groups[..|groups| - 1];
      var last := groups[|groups| - 1];
      var chunks := ChunksOf(groups);
      assert chunks[..|chunks| - 1] == ChunksOf(front);
      ReadWholeRecords(front);
      ChunkOfRecords(last);
      BodiesAppend(Flatten(front), last);
      FoldEventsAppend(Start, Bodies(Flatten(front)), Bodies(last));
    }
  }

  /** The round trip: however the records of one run are grouped into
      chunks, as long as no record is cut, the page ends with the reply the
      backend stored, and no exception escapes. */
  lemma StreamRoundTrip(stream: AgriApi.TokenStream, groups: seq<seq<Json.Document>>)
    requires Flatten(groups) == AgriApi.StreamPayloads(stream)
    ensures var read := ReadChunks(ChunksOf(groups));
            read.full == Concat(NonEmpty(stream.contents)) && !read.threw
  {
    ReadWholeRecords(groups);
    StreamBodiesRead(Start, stream);
    EmptyAppend(Concat(NonEmpty(stream.contents)));
  }

  /** All records of one run in a single chunk give the full reply. */
  lemma SingleChunkRoundTrip(stream: AgriApi.TokenStream)
    ensures var read := ReadChunks([RecordsText(AgriApi.StreamPayloads(stream))]);
            read.full == Concat(NonEmpty(stream.contents)) && !read.threw
  {
    var ps := AgriApi.StreamPayloads(stream);
    SingleGroup(ps);
    StreamRoundTrip(stream, [ps]);
  }

  lemma SingleGroup(ps: seq<Json.Document>)
    ensures Flatten([ps]) == ps && ChunksOf([ps]) == [RecordsText(ps)]
  {
    var none: seq<seq<Json.Document>> := [];
    assert [ps][..0] == none;
  }

  // ---------------------------------------------------------------------
  // Records cut across chunks.
  // ---------------------------------------------------------------------

  /** Every run has payloads, and the first one is an object. */
  lemma StreamPayloadsObjects(stream: AgriApi.TokenStream)
    ensures |AgriApi.StreamPayloads(stream)| > 0
    ensures AgriApi.StreamPayloads(stream)[0].Object?
  {
    var tokens := NonEmpty(stream.contents);
    if tokens != [] {
      assert AgriApi.StreamPayloads(stream)[0] == AgriApi.TokenPayloads(tokens)[0];
    }
  }

  /** The body of an object's record starts with the prefix and a brace. */
  lemma BodyStart(p: Json.Document)
    requires p.Object?
    ensures var body := DataPrefix + Json.Dump(p);
            |body| > 7 && body[..7] == "data: {"
  {
    Json.DumpObjectText(p.members);
    var body := DataPrefix + Json.Dump(p);
    assert body[6] == '{';
    assert body[..7] == DataPrefix + [body[6]];
  }

  /** Text whose first part is a line starting with `data: {` starts
      with it too. */
  lemma TextStart(lines: seq<string>, body: string)
    requires lines != [] && lines[0] == body + Blank
    requires |body| > 7 && body[..7] == "data: {"
    ensures |Concat(lines)| > 7 && Concat(lines)[..7] == "data: {"
  {
    assert lines == [lines[0]] + lines[1..];
    ConcatCons(lines[0], lines[1..]);
    PrefixKept(body, Blank, 7);
    PrefixKept(lines[0], Concat(lines[1..]), 7);
  }

  /** Records whose first payload is an object start with `data: {`. */
  lemma RecordsTextStart(payloads: seq<Json.Document>)
    requires |payloads| > 0 && payloads[0].Object?
    ensures var text := RecordsText(payloads);
            |text| > 7 && text[..7] == "data: {"
  {
    var records := AgriApi.Records(payloads);
    assert records[0] == AgriApi.Record(payloads[0]);
    BodyOfRecord(payloads[0]);
    BodyStart(payloads[0]);
    TextStart(records, DataPrefix + Json.Dump(payloads[0]));
  }

  /** The chunk `data: {` alone is one record whose JSON does not parse. */
  lemma BraceChunkThrows()
    ensures ReadChunks(["data: {"]) == Start.(threw := true)
  {
    var first := "data: {";
    BraceChunkEvents();
    BracePieceThrows();
    var none: seq<string> := [];
    assert [first][..0] == none;
  }

  /** The chunk `data: {` holds no blank line: it is one event. */
  lemma BraceChunkEvents()
    ensures ChunkEvents("data: {") == ["data: {"]
  {
    var first := "data: {";
    assert FindBlank(first, 0) == None;
    assert SplitOnBlank(first) == [first];
    var none: seq<string> := [];
    assert [first][..0] == none;
  }

  /** The event `data: {` is a record whose JSON does not parse. */
  lemma BracePieceThrows()
    ensures Step(Start, "data: {") == Start.(threw := true)
  {
    var first := "data: {";
    assert StartsWith(first, DataPrefix);
    assert first[|DataPrefix|..] == "{";
    assert Json.Parse("{") == None;
  }

  lemma CutAfterBrace(rest: string)
    ensures var read := ReadChunks(["data: {", rest]);
            read.threw && read.full == ""
  {
    var chunks := ["data: {", rest];
    BraceChunkThrows();
    assert chunks[..1] == ["data: {"];
    FoldAfterThrow(ReadChunks(["data: {"]), ChunkEvents(rest));
  }

  /** As written, the page reads each chunk on its own. When a run's text
      is cut after its first seven characters, the first piece `data: {`
      fails to parse, the exception escapes, and the reply stays empty,
      though the same text in one chunk reads in full. */
  lemma CutRecordThrows(stream: AgriApi.TokenStream)
    ensures var text := RecordsText(AgriApi.StreamPayloads(stream));
            var read := ReadChunks([text[..7], text[7..]]);
            read.threw && read.full == ""
  {
    var text := RecordsText(AgriApi.StreamPayloads(stream));
    StreamPayloadsObjects(stream);
    RecordsTextStart(AgriApi.StreamPayloads(stream));
    CutAfterBrace(text[7..]);
  }

  /** With the unfinished piece carried over to the next chunk, any cut of
      the run's text into chunks gives the full reply, with nothing left
      pending and no exception. */
  lemma BufferedRoundTrip(stream: AgriApi.TokenStream, chunks: seq<string>)
    requires Concat(chunks) == RecordsText(AgriApi.StreamPayloads(stream))
    ensures var (read, pending) := ReadBuffered(chunks);
            read.full == Concat(NonEmpty(stream.contents)) && !read.threw && pending == ""
  {
    var ps := AgriApi.StreamPayloads(stream);
    ReadBufferedWhole(chunks);
    SplitRecords(ps);
    var bodies := Bodies(ps);
    assert Closed(bodies + [""]) == bodies;
    RecordsAreTerminated(ps);
    NonEmptyIdentity(bodies);
    StreamBodiesRead(Start, stream);
  }
}
