/** How the browser reads the reply stream: each decoded chunk is split on
    blank lines, empty pieces are dropped, and every piece that starts with
    `data: ` is parsed as JSON whose truthy `token` field is appended to the
    reply. Pieces are framed per chunk: nothing is carried from one chunk
    to the next except the reply itself. */
module EventStream {
  import opened Wrappers
  import opened Text
  import Json

  const Blank: string := "\n\n"
  const DataPrefix: string := "data: "

  // ---------------------------------------------------------------------
  // Splitting a chunk on blank lines (JavaScript `split("\n\n")`).
  // ---------------------------------------------------------------------

  /** Whether a blank line, two line feeds, starts at position `i` of `s`. */
  predicate BlankAt(s: string, i: int)
  {
    0 <= i && i + 1 < |s| && s[i] == '\n' && s[i + 1] == '\n'
  }

  predicate HasBlank(s: string)
  {
    exists i :: 0 <= i < |s| && BlankAt(s, i)
  }

  /** The first position at or after `from` where a blank line starts. */
  function FindBlank(s: string, from: nat): (r: Option<nat>)
    requires from <= |s|
    ensures r.Some? ==> from <= r.value && BlankAt(s, r.value)
    ensures r.Some? ==> forall j :: from <= j < r.value ==> !BlankAt(s, j)
    ensures r.None? ==> forall j :: from <= j ==> !BlankAt(s, j)
    decreases |s| - from
  {
    if from + 1 >= |s| then None
    else if s[from] == '\n' && s[from + 1] == '\n' then Some(from)
    else FindBlank(s, from + 1)
  }

  /** The pieces between blank lines, found left to right without overlap;
      a text with no blank line is one piece. */
  function SplitOnBlank(s: string): (pieces: seq<string>)
    ensures pieces != []
    decreases |s|
  {
    match FindBlank(s, 0)
    case None => [s]
    case Some(k) => [s[..k]] + SplitOnBlank(s[k + 2..])
  }

  /** The pieces joined back with a blank line between neighbours. */
  function JoinOnBlank(pieces: seq<string>): string
  {
    if pieces == [] then ""
    else if |pieces| == 1 then pieces[0]
    else pieces[0] + Blank + JoinOnBlank(pieces[1..])
  }

  lemma SplitPieceClean(s: string, k: nat)
    requires k <= |s|
    requires forall j :: 0 <= j < k ==> !BlankAt(s, j)
    ensures !HasBlank(s[..k])
  {
    forall j | BlankAt(s[..k], j) ensures false {
      assert BlankAt(s, j);
    }
  }

  lemma SplitText(s: string, k: nat)
    requires k + 2 <= |s| && BlankAt(s, k)
    ensures s == s[..k] + Blank + s[k + 2..]
  {
  }

  /** Splitting loses nothing: joining the pieces gives the text back, and
      no piece holds a blank line. */
  lemma {:induction false} SplitJoin(s: string)
    ensures JoinOnBlank(SplitOnBlank(s)) == s
    ensures forall i :: 0 <= i < |SplitOnBlank(s)| ==> !HasBlank(SplitOnBlank(s)[i])
    decreases |s|
  {
    match FindBlank(s, 0)
    case None =>
      SplitPieceClean(s, |s|);
      assert s[..|s|] == s;
    case Some(k) =>
      var rest := s[k + 2..];
      SplitJoin(rest);
      SplitPieceClean(s, k);
      SplitText(s, k);
      var pieces := SplitOnBlank(s);
      assert pieces[1..] == SplitOnBlank(rest);
      forall i | 0 <= i < |pieces| ensures !HasBlank(pieces[i]) {
        if i > 0 { assert pieces[i] == SplitOnBlank(rest)[i - 1]; }
      }
  }

  /** No piece but the last ends with a line feed. */
  predicate Leftmost(pieces: seq<string>)
  {
    forall i :: 0 <= i < |pieces| - 1 ==> pieces[i] == [] || pieces[i][|pieces[i]| - 1] != '\n'
  }

  /** The split is the leftmost one: a piece that ended with a line feed
      would, with the blank line after it, hold an earlier blank line. */
  lemma {:induction false} SplitLeftmost(s: string)
    ensures Leftmost(SplitOnBlank(s))
    decreases |s|
  {
    match FindBlank(s, 0)
    case None =>
    case Some(k) =>
      var rest := s[k + 2..];
      var later := SplitOnBlank(rest);
      SplitLeftmost(rest);
      var pieces := SplitOnBlank(s);
      assert pieces == [s[..k]] + later;
      if k > 0 {
        assert !BlankAt(s, k - 1);
        assert pieces[0][k - 1] == s[k - 1];
      }
      forall i | 1 <= i < |pieces| - 1
        ensures pieces[i] == [] || pieces[i][|pieces[i]| - 1] != '\n'
      {
        var q := later[i - 1];
        assert pieces[i] == q;
        assert q == [] || q[|q| - 1] != '\n';
      }
  }

  /** When `line` holds no line feed, the first blank line of
      `line + "\n\n" + rest` is the one right after `line`. */
  lemma FindBlankAfterLine(line: string, rest: string)
    requires forall i :: 0 <= i < |line| ==> line[i] != '\n'
    ensures var s := line + Blank + rest;
            FindBlank(s, 0) == Some(|line|) && s[..|line|] == line && s[|line| + 2..] == rest
  {
    var s := line + Blank + rest;
    assert BlankAt(s, |line|);
    assert forall j :: 0 <= j < |line| ==> s[j] == line[j];
    assert s[|line| + 2..] == rest;
  }

  lemma SplitAfterLine(line: string, rest: string)
    requires forall i :: 0 <= i < |line| ==> line[i] != '\n'
    ensures SplitOnBlank(line + Blank + rest) == [line] + SplitOnBlank(rest)
  {
    FindBlankAfterLine(line, rest);
  }

  /** The events of one chunk: its pieces with the empty ones dropped. */
  function ChunkEvents(chunk: string): seq<string>
  {
    NonEmpty(SplitOnBlank(chunk))
  }

  // ---------------------------------------------------------------------
  // Reading one event.
  // ---------------------------------------------------------------------

  /** What reading `payload.token` and testing it yields: a TypeError for
      the `null` payload, nothing for a field that is missing or falsy,
      and otherwise the text `full += payload.token` appends. */
  datatype TokenField = Throws | Falsy | Truthy(text: string)

  function TokenOf(payload: Json.Document): (r: TokenField)
    ensures r.Truthy? ==> r.text != ""
    ensures r == Throws <==> payload == Json.Atom(Json.Null)
    ensures payload.Atom? && payload.value != Json.Null ==> r == Falsy
    ensures payload.Object? ==>
              var v := Json.Get(payload.members, "token");
              && (v.Some? && v.value.Str? && v.value.s != "" ==> r == Truthy(v.value.s))
              && (v == Some(Json.Bool(true)) ==> r == Truthy("true"))
              && ((v.None? || v == Some(Json.Str("")) || v == Some(Json.Bool(false)) || v == Some(Json.Null))
                  ==> r == Falsy)
  {
    match payload
    case Atom(v) => if v == Json.Null then Throws else Falsy
    case Object(ms) =>
      match Json.Get(ms, "token")
      case None => Falsy
      case Some(Str(t)) => if t == "" then Falsy else Truthy(t)
      case Some(Bool(b)) => if b then Truthy("true") else Falsy
      case Some(Null) => Falsy
  }

  /** How far reading has got: the reply accumulated so far, every value
      published to the page in order, and whether an exception escaped. */
  datatype Progress = Progress(full: string, shown: seq<string>, threw: bool)

  const Start: Progress := Progress("", [], false)

  /** One event: pieces without the `data: ` prefix are skipped; the rest
      is parsed (a parse failure throws) and a truthy token is appended and
      published. Once an exception has escaped nothing more happens. */
  function Step(p: Progress, evt: string): Progress
  {
    if p.threw || !StartsWith(evt, DataPrefix) then p
    else
      match Json.Parse(evt[|DataPrefix|..])
      case None => p.(threw := true)
      case Some(payload) =>
        match TokenOf(payload)
        case Throws => p.(threw := true)
        case Falsy => p
        case Truthy(t) => Progress(p.full + t, p.shown + [p.full + t], false)
  }

  /** The events of one chunk, read in order. */
  function FoldEvents(p: Progress, events: seq<string>): Progress
  {
    if events == [] then p
    else Step(FoldEvents(p, events[..|events| - 1]), events[|events| - 1])
  }

  /** The whole response, chunk by chunk. */
  function ReadChunks(chunks: seq<string>): Progress
  {
    if chunks == [] then Start
    else FoldEvents(ReadChunks(chunks[..|chunks| - 1]), ChunkEvents(chunks[|chunks| - 1]))
  }

  // ---------------------------------------------------------------------
  // Properties of reading.
  // ---------------------------------------------------------------------

  /** A piece that is not a `data: ` record changes nothing. */
  lemma NonDataIgnored(p: Progress, evt: string)
    requires !StartsWith(evt, DataPrefix)
    ensures Step(p, evt) == p
  {
  }

  /** Payloads without a truthy token, such as the done and error
      payloads, leave the reply as it is and do not stop reading. */
  lemma FalsyPayloadIgnored(p: Progress, payload: Json.Document)
    requires !p.threw && TokenOf(payload) == Falsy
    ensures Step(p, DataPrefix + Json.Dump(payload)) == p
  {
    DataRecordParses(payload);
  }

  /** A `data: ` piece holding an encoded payload parses back to it. */
  lemma DataRecordParses(payload: Json.Document)
    ensures var evt := DataPrefix + Json.Dump(payload);
            StartsWith(evt, DataPrefix) && Json.Parse(evt[|DataPrefix|..]) == Some(payload)
  {
    var evt := DataPrefix + Json.Dump(payload);
    assert evt[..|DataPrefix|] == DataPrefix;
    assert evt[|DataPrefix|..] == Json.Dump(payload);
    Json.DumpParseRoundTrip(payload);
  }

  /** Reading the record of any payload: a `null` payload throws, a falsy
      token changes nothing, and a truthy one is appended and published. */
  lemma DataRecordRead(p: Progress, payload: Json.Document)
    requires !p.threw
    ensures var q := Step(p, DataPrefix + Json.Dump(payload));
            match TokenOf(payload)
            case Throws => q == p.(threw := true)
            case Falsy => q == p
            case Truthy(t) => q == Progress(p.full + t, p.shown + [p.full + t], false)
  {
    DataRecordParses(payload);
  }

  /** Reading one more event is one more step. */
  lemma FoldLast(p: Progress, events: seq<string>)
    requires events != []
    ensures FoldEvents(p, events) == Step(FoldEvents(p, events[..|events| - 1]), events[|events| - 1])
  {
  }

  /** A run of events ending in the record of a payload that does not
      throw: the reply grows by the payload's truthy token, if any. */
  lemma FoldRecord(p: Progress, events: seq<string>, payload: Json.Document)
    requires events != [] && events[|events| - 1] == DataPrefix + Json.Dump(payload)
    requires !FoldEvents(p, events[..|events| - 1]).threw && TokenOf(payload) != Throws
    ensures var before := FoldEvents(p, events[..|events| - 1]);
            var after := FoldEvents(p, events);
            !after.threw &&
            after.full == before.full + (if TokenOf(payload).Truthy? then TokenOf(payload).text else "")
  {
    var before := FoldEvents(p, events[..|events| - 1]);
    FoldLast(p, events);
    DataRecordRead(before, payload);
    if !TokenOf(payload).Truthy? {
      assert before.full + "" == before.full;
    }
  }

  /** Once an exception has escaped, later events change nothing. */
  lemma {:induction false} FoldAfterThrow(p: Progress, events: seq<string>)
    requires p.threw
    ensures FoldEvents(p, events) == p
    decreases |events|
  {
    if events != [] {
      FoldAfterThrow(p, events[..|events| - 1]);
    }
  }

  /** Reading two runs of events is reading one run after the other. */
  lemma {:induction false} FoldEventsAppend(p: Progress, a: seq<string>, b: seq<string>)
    ensures FoldEvents(p, a + b) == FoldEvents(FoldEvents(p, a), b)
    decreases |b|
  {
    if b == [] {
      assert a + b == a;
    } else {
      assert (a + b)[..|a + b| - 1] == a + b[..|b| - 1];
      FoldEventsAppend(p, a, b[..|b| - 1]);
    }
  }

  /** The published values form a chain: the first is non-empty, each
      strictly extends the one before, and the last is the reply. */
  predicate Chained(p: Progress)
  {
    && (p.shown == [] ==> p.full == "")
    && (p.shown != [] ==> p.shown[0] != "" && p.shown[|p.shown| - 1] == p.full)
    && (forall i :: 0 <= i < |p.shown| - 1 ==> StrictPrefix(p.shown[i], p.shown[i + 1]))
  }

  lemma StepChained(p: Progress, evt: string)
    requires Chained(p)
    ensures Chained(Step(p, evt))
    ensures StrictPrefix(p.full, Step(p, evt).full) || Step(p, evt).full == p.full
  {
    var q := Step(p, evt);
    if q.shown != p.shown {
      var t := q.full[|p.full|..];
      assert q.full == p.full + t && t != "";
      assert q.full[..|p.full|] == p.full;
      forall i | 0 <= i < |q.shown| - 1 ensures StrictPrefix(q.shown[i], q.shown[i + 1]) {
        if i < |p.shown| - 1 {
          assert q.shown[i] == p.shown[i] && q.shown[i + 1] == p.shown[i + 1];
        }
      }
    }
  }

  lemma {:induction false} FoldChained(p: Progress, events: seq<string>)
    requires Chained(p)
    ensures Chained(FoldEvents(p, events))
    decreases |events|
  {
    if events != [] {
      FoldChained(p, events[..|events| - 1]);
      StepChained(FoldEvents(p, events[..|events| - 1]), events[|events| - 1]);
    }
  }

  /** Whatever the chunks, every value published to the page strictly
      extends the one before, the first is non-empty, and the last is the
      final reply (which is empty when nothing was published). */
  lemma {:induction false} ReadChunksChained(chunks: seq<string>)
    ensures Chained(ReadChunks(chunks))
    decreases |chunks|
  {
    if chunks != [] {
      var front := chunks[..|chunks| - 1];
      ReadChunksChained(front);
      FoldChained(ReadChunks(front), ChunkEvents(chunks[|chunks| - 1]));
    }
  }

  // ---------------------------------------------------------------------
  // A reader that carries an unfinished piece over to the next chunk.
  // ---------------------------------------------------------------------

  /** All pieces but the last: the ones a blank line has closed. */
  function Closed(pieces: seq<string>): seq<string>
    requires pieces != []
  {
    pieces[..|pieces| - 1]
  }

  /** The last piece, which may still be growing. */
  function Pending(pieces: seq<string>): string
    requires pieces != []
  {
    pieces[|pieces| - 1]
  }

  /** Reading that keeps the unfinished last piece of each chunk and puts
      it in front of the next chunk; only pieces closed by a blank line are
      read. Yields the progress and the piece still pending. */
  function ReadBuffered(chunks: seq<string>): (r: (Progress, string))
    ensures !HasBlank(r.1)
  {
    if chunks == [] then (Start, "")
    else
      var (p, pending) := ReadBuffered(chunks[..|chunks| - 1]);
      var pieces := SplitOnBlank(pending + chunks[|chunks| - 1]);
      SplitJoin(pending + chunks[|chunks| - 1]);
      (FoldEvents(p, NonEmpty(Closed(pieces))), Pending(pieces))
  }

  /** A blank line inside `a` is still the first one once text is added. */
  lemma FindBlankExtend(a: string, c: string, k: nat)
    requires FindBlank(a, 0) == Some(k)
    ensures FindBlank(a + c, 0) == Some(k)
  {
    var s := a + c;
    assert BlankAt(s, k);
    forall j | 0 <= j < k ensures !BlankAt(s, j) {
      assert s[j] == a[j] && s[j + 1] == a[j + 1];
      assert !BlankAt(a, j);
    }
  }

  /** Splitting `a + c` closes the same pieces as splitting `a`, then goes
      on from `a`'s last piece followed by `c`. */
  lemma {:induction false} SplitAppend(a: string, c: string)
    ensures var pa := SplitOnBlank(a);
            SplitOnBlank(a + c) == Closed(pa) + SplitOnBlank(Pending(pa) + c)
    decreases |a|
  {
    match FindBlank(a, 0)
    case None =>
    case Some(k) =>
      FindBlankExtend(a, c, k);
      var rest := a[k + 2..];
      assert (a + c)[..k] == a[..k];
      assert (a + c)[k + 2..] == rest + c;
      SplitAppend(rest, c);
      var pr := SplitOnBlank(rest);
      assert SplitOnBlank(a) == [a[..k]] + pr;
      assert Closed([a[..k]] + pr) == [a[..k]] + Closed(pr);
  }

  /** However the text is cut into chunks, the carrying reader reads the
      pieces the whole text's blank lines close, and keeps the rest. */
  lemma {:induction false} ReadBufferedWhole(chunks: seq<string>)
    ensures var all := SplitOnBlank(Concat(chunks));
            ReadBuffered(chunks) == (FoldEvents(Start, NonEmpty(Closed(all))), Pending(all))
    decreases |chunks|
  {
    if chunks == [] {
      assert SplitOnBlank("") == [""];
    } else {
      var front := chunks[..|chunks| - 1];
      var c := chunks[|chunks| - 1];
      ReadBufferedWhole(front);
      var before := SplitOnBlank(Concat(front));
      SplitAppend(Concat(front), c);
      var more := SplitOnBlank(Pending(before) + c);
      var all := Closed(before) + more;
      assert Closed(all) == Closed(before) + Closed(more);
      NonEmptyAppend(Closed(before), Closed(more));
      FoldEventsAppend(Start, NonEmpty(Closed(before)), NonEmpty(Closed(more)));
    }
  }
}
