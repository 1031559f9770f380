/** The advisor page in the browser: its state, the theme switch kept in
    local storage, and `ask`, which sends the question to the backend and
    shows the streamed reply as it arrives. */
module AgriClient {
  import opened Wrappers
  import opened Text
  import opened EventStream
  import Json

  /** The browser's local storage, key to stored text. */
  type LocalStorage = map<string, string>

  const ThemeKey: string := "agri_theme"
  const SessionKey: string := "agri_session_id"
  const Dark: string := "dark"
  const Light: string := "light"
  const DefaultLocation: string := "Kurukshetra, Haryana"
  const ApiBase: string := "https://api-agri-agent.aryaorganicfarm.com"

  /** The POST request `ask` sends: its URL and the JSON body's two fields. */
  datatype Request = Request(url: string, question: string, location: string)

  /** What `fetch` and the body reader produce: a rejected fetch; the
      decoded chunks in the order the reader returns them, up to its `done`;
      or the chunks returned before a `read()` that rejects (a connection
      dropped mid-stream). */
  datatype Transport = Unreachable | Delivered(chunks: seq<string>) | Broken(chunks: seq<string>)

  // ---------------------------------------------------------------------
  // Whitespace and `trim()`.
  // ---------------------------------------------------------------------

  /** The characters JavaScript's `trim()` removes: white space and line
      terminators. */
  predicate IsJsWhitespace(c: char)
  {
    || c == '\t' || c == '\U{B}' || c == '\U{C}' || c == ' ' || c == '\U{A0}' || c == '\U{FEFF}'
    || c == '\U{1680}' || ('\U{2000}' <= c <= '\U{200A}') || c == '\U{202F}' || c == '\U{205F}'
    || c == '\U{3000}'
    || c == '\n' || c == '\r' || c == '\U{2028}' || c == '\U{2029}'
  }

  predicate AllWhitespace(s: string)
  {
    forall i :: 0 <= i < |s| ==> IsJsWhitespace(s[i])
  }

  function TrimStart(s: string): (r: string)
    ensures r == [] || !IsJsWhitespace(r[0])
  {
    if s != [] && IsJsWhitespace(s[0]) then TrimStart(s[1..]) else s
  }

  function TrimEnd(s: string): (r: string)
    ensures r == [] || !IsJsWhitespace(r[|r| - 1])
    ensures |r| <= |s| && r == s[..|r|]
  {
    if s != [] && IsJsWhitespace(s[|s| - 1]) then TrimEnd(s[..|s| - 1]) else s
  }

  /** `s.trim()`. */
  function Trim(s: string): (r: string)
    ensures r == [] || (!IsJsWhitespace(r[0]) && !IsJsWhitespace(r[|r| - 1]))
  {
    TrimEnd(TrimStart(s))
  }

  /** `TrimStart` removes only leading white space: what is left is a
      suffix of the text, and everything before it is white space. */
  lemma {:induction false} TrimStartRemoves(s: string)
    ensures var r := TrimStart(s);
            |r| <= |s| && r == s[|s| - |r|..] && AllWhitespace(s[..|s| - |r|])
    decreases |s|
  {
    if s != [] && IsJsWhitespace(s[0]) {
      TrimStartRemoves(s[1..]);
      var r := TrimStart(s);
      var gone := s[..|s| - |r|];
      forall i | 0 <= i < |gone| ensures IsJsWhitespace(gone[i]) {
        if i > 0 { assert gone[i] == s[1..][..|s| - 1 - |r|][i - 1]; }
      }
    }
  }

  /** `TrimEnd` removes only trailing white space. */
  lemma {:induction false} TrimEndRemoves(s: string)
    ensures var r := TrimEnd(s);
            AllWhitespace(s[|r|..])
    decreases |s|
  {
    if s != [] && IsJsWhitespace(s[|s| - 1]) {
      var front := s[..|s| - 1];
      TrimEndRemoves(front);
      var r := TrimEnd(s);
      var gone := s[|r|..];
      forall i | 0 <= i < |gone| ensures IsJsWhitespace(gone[i]) {
        if i < |gone| - 1 { assert gone[i] == front[|r|..][i]; }
      }
    }
  }

  lemma {:induction false} TrimStartBlank(s: string)
    ensures TrimStart(s) == "" <==> AllWhitespace(s)
    decreases |s|
  {
    if s != [] && IsJsWhitespace(s[0]) {
      TrimStartBlank(s[1..]);
      assert AllWhitespace(s) <==> AllWhitespace(s[1..]) by {
        if AllWhitespace(s[1..]) {
          forall i | 0 < i < |s| ensures IsJsWhitespace(s[i]) { assert s[i] == s[1..][i - 1]; }
        }
      }
    }
  }

  lemma {:induction false} TrimEndBlank(s: string)
    ensures TrimEnd(s) == "" <==> AllWhitespace(s)
    decreases |s|
  {
    if s != [] && IsJsWhitespace(s[|s| - 1]) {
      var front := s[..|s| - 1];
      TrimEndBlank(front);
      assert AllWhitespace(s) <==> AllWhitespace(front) by {
        if AllWhitespace(front) {
          forall i | 0 <= i < |s| - 1 ensures IsJsWhitespace(s[i]) { assert s[i] == front[i]; }
        }
      }
    }
  }

  /** A question is refused exactly when it is empty or all white space. */
  lemma TrimBlank(s: string)
    ensures Trim(s) == "" <==> AllWhitespace(s)
  {
    var t := TrimStart(s);
    TrimStartBlank(s);
    TrimEndBlank(t);
  }

  // ---------------------------------------------------------------------
  // Stored settings.
  // ---------------------------------------------------------------------

  /** `localStorage.getItem(key) || fallback`: a missing or empty entry
      falls back. */
  function StoredOr(storage: LocalStorage, key: string, fallback: string): (r: string)
    ensures key in storage && storage[key] != "" ==> r == storage[key]
    ensures key !in storage || storage[key] == "" ==> r == fallback
  {
    if key in storage && storage[key] != "" then storage[key] else fallback
  }

  /** The theme the page starts with: the stored one, dark by default. */
  function InitialTheme(storage: LocalStorage): (theme: string)
    ensures theme != ""
    ensures ThemeKey !in storage ==> theme == Dark
    ensures ThemeKey in storage && storage[ThemeKey] != "" ==> theme == storage[ThemeKey]
  {
    StoredOr(storage, ThemeKey, Dark)
  }

  /** The toggle: light from dark, dark from anything else. */
  function NextTheme(theme: string): (r: string)
    ensures r != theme
    ensures r == Dark || r == Light
    ensures theme == Dark ==> r == Light
    ensures theme != Dark ==> r == Dark
  {
    if theme == Dark then Light else Dark
  }

  /** Toggling twice returns to a dark or light theme. */
  lemma ToggleTwice(theme: string)
    requires theme == Dark || theme == Light
    ensures NextTheme(NextTheme(theme)) == theme
  {
  }

  /** The session id a question is sent under: the stored one, or the
      fresh one when none is stored. */
  function SessionIdFor(storage: LocalStorage, freshId: string): (id: string)
    ensures SessionKey in storage && storage[SessionKey] != "" ==> id == storage[SessionKey]
    ensures SessionKey !in storage || storage[SessionKey] == "" ==> id == freshId
  {
    StoredOr(storage, SessionKey, freshId)
  }

  /** Once a non-empty id is stored, every later question reuses it
      whatever fresh id is offered. */
  lemma SessionIdReused(storage: LocalStorage, freshId: string, laterId: string)
    requires SessionIdFor(storage, freshId) != ""
    ensures var id := SessionIdFor(storage, freshId);
            SessionIdFor(storage[SessionKey := id], laterId) == id
  {
  }

  /** The request URL names the session. */
  function RequestUrl(sessionId: string): (url: string)
    ensures StartsWith(url, ApiBase + "/api/agri/")
    ensures url[|ApiBase + "/api/agri/"|..] == sessionId
  {
    ApiBase + "/api/agri/" + sessionId
  }

  lemma {:induction false} ReadAfterThrow(chunks: seq<string>, i: nat)
    requires i <= |chunks| && ReadChunks(chunks[..i]).threw
    ensures ReadChunks(chunks) == ReadChunks(chunks[..i])
    decreases |chunks| - i
  {
    if i < |chunks| {
      ChunkStep(chunks, i);
      FoldAfterThrow(ReadChunks(chunks[..i]), ChunkEvents(chunks[i]));
      ReadAfterThrow(chunks, i + 1);
    } else {
      assert chunks[..i] == chunks;
    }
  }

  lemma ThrowInChunk(chunks: seq<string>, i: nat, j: nat)
    requires i < |chunks| && j < |ChunkEvents(chunks[i])|
    requires FoldEvents(ReadChunks(chunks[..i]), ChunkEvents(chunks[i])[..j + 1]).threw
    ensures ReadChunks(chunks) == FoldEvents(ReadChunks(chunks[..i]), ChunkEvents(chunks[i])[..j + 1])
  {
    var events := ChunkEvents(chunks[i]);
    var p := ReadChunks(chunks[..i]);
    var q := FoldEvents(p, events[..j + 1]);
    assert events == events[..j + 1] + events[j + 1..];
    FoldEventsAppend(p, events[..j + 1], events[j + 1..]);
    FoldAfterThrow(q, events[j + 1..]);
    ChunkStep(chunks, i);
    ReadAfterThrow(chunks, i + 1);
  }

  lemma EventStep(p: Progress, events: seq<string>, j: nat)
    requires j < |events|
    ensures FoldEvents(p, events[..j + 1]) == Step(FoldEvents(p, events[..j]), events[j])
  {
    assert events[..j + 1][..j] == events[..j];
  }

  lemma ChunkStep(chunks: seq<string>, i: nat)
    requires i < |chunks|
    ensures ReadChunks(chunks[..i + 1])
         == FoldEvents(ReadChunks(chunks[..i]), ChunkEvents(chunks[i]))
  {
    assert chunks[..i + 1][..i] == chunks[..i];
  }

  // ---------------------------------------------------------------------
  // The page.
  // ---------------------------------------------------------------------

  class AgriAgentView {
    var question: string
    var location: string
    var reply: string
    var loading: bool
    var theme: string
    var storage: LocalStorage

    /** Local storage always holds the current theme. */
    predicate Valid()
      reads this
    {
      ThemeKey in storage && storage[ThemeKey] == theme
    }

    /** The page as mounted: empty question, the default place, no reply,
        idle, the stored theme (dark by default) written back to storage. */
    constructor(saved: LocalStorage)
      ensures question == "" && location == DefaultLocation && reply == "" && !loading
      ensures theme == InitialTheme(saved)
      ensures storage == saved[ThemeKey := theme]
      ensures Valid()
    {
      question := "";
      location := DefaultLocation;
      reply := "";
      loading := false;
      var initial := InitialTheme(saved);
      theme := initial;
      storage := saved[ThemeKey := initial];
    }

    method SetQuestion(text: string)
      modifies this
      ensures question == text
      ensures location == old(location) && reply == old(reply) && loading == old(loading)
      ensures theme == old(theme) && storage == old(storage)
    {
      question := text;
    }

    method SetLocation(text: string)
      modifies this
      ensures location == text
      ensures question == old(question) && reply == old(reply) && loading == old(loading)
      ensures theme == old(theme) && storage == old(storage)
    {
      location := text;
    }

    /** The theme button, and the effect that stores the new theme. */
    method ToggleTheme()
      requires Valid()
      modifies this
      ensures theme == NextTheme(old(theme))
      ensures storage == old(storage)[ThemeKey := theme]
      ensures question == old(question) && location == old(location)
      ensures reply == old(reply) && loading == old(loading)
      ensures Valid()
    {
      theme := NextTheme(theme);
      storage := storage[ThemeKey := theme];
    }

    /** `ask`. A blank question changes nothing and sends nothing.
        Otherwise the page starts loading with an empty reply, stores the
        session id it uses (the stored one or the fresh one) and sends the
        question under it. A rejected fetch leaves the page loading. The
        chunks are read in order; each truthy token grows the reply, and
        each new value is published. The page is idle again when the
        reader reports `done`, unless an exception escaped first, which
        leaves it loading with the reply as far as it got; a reader that
        rejects after some chunks leaves it loading the same way. */
    method Ask(freshId: string, transport: Transport) returns (sent: Option<Request>, shown: seq<string>)
      requires Valid()
      modifies this
      ensures Valid()
      ensures question == old(question) && location == old(location) && theme == old(theme)
      ensures AllWhitespace(question) ==>
                && sent == None && shown == []
                && reply == old(reply) && loading == old(loading) && storage == old(storage)
      ensures !AllWhitespace(question) ==>
                var id := SessionIdFor(old(storage), freshId);
                && storage == old(storage)[SessionKey := id]
                && sent == Some(Request(RequestUrl(id), question, location))
      ensures !AllWhitespace(question) && transport.Unreachable? ==>
                loading && reply == "" && shown == []
      ensures !AllWhitespace(question) && transport.Delivered? ==>
                var read := ReadChunks(transport.chunks);
                reply == read.full && shown == read.shown && loading == read.threw
      ensures !AllWhitespace(question) && transport.Broken? ==>
                var read := ReadChunks(transport.chunks);
                reply == read.full && shown == read.shown && loading
    {
      TrimBlank(question);
      shown := [];
      if Trim(question) == "" {
        return None, [];
      }
      loading := true;
      reply := "";
      var sessionId := StoredOr(storage, SessionKey, freshId);
      storage := storage[SessionKey := sessionId];
      sent := Some(Request(RequestUrl(sessionId), question, location));
      if transport.Unreachable? {
        return;
      }
      var chunks := transport.chunks;
      var full := "";
      var i := 0;
      while i < |chunks|
        invariant 0 <= i <= |chunks|
        invariant ReadChunks(chunks[..i]) == Progress(full, shown, false)
        invariant reply == full && loading
        invariant question == old(question) && location == old(location) && theme == old(theme)
        invariant storage == old(storage)[SessionKey := sessionId]
      {
        var events := ChunkEvents(chunks[i]);
        var j := 0;
        while j < |events|
          invariant 0 <= j <= |events|
          invariant FoldEvents(ReadChunks(chunks[..i]), events[..j]) == Progress(full, shown, false)
          invariant reply == full && loading
          invariant question == old(question) && location == old(location) && theme == old(theme)
          invariant storage == old(storage)[SessionKey := sessionId]
        {
          var evt := events[j];
          EventStep(ReadChunks(chunks[..i]), events, j);
          if StartsWith(evt, DataPrefix) {
            var parsed := Json.Parse(evt[|DataPrefix|..]);
            if parsed.None? {
              ThrowInChunk(chunks, i, j);
              return;
            }
            var field := TokenOf(parsed.value);
            if field.Throws? {
              ThrowInChunk(chunks, i, j);
              return;
            }
            if field.Truthy? {
              full := full + field.text;
              reply := full;
              shown := shown + [full];
            }
          }
          j := j + 1;
        }
        assert events[..j] == events;
        ChunkStep(chunks, i);
        i := i + 1;
      }
      assert chunks[..i] == chunks;
      if transport.Broken? {
        return;
      }
      loading := false;
    }
  }
}
