# Agri advisor: chat route, history store and streaming page

This project models the three parts of the Agri advisor that carry its
behaviour:

- **History store** (`backend/storage.py`). The backend keeps one JSON file
  per chat session, `data/<session id>.json`. A missing or unreadable file
  loads as the empty history. Appending loads, extends and saves the list.
  Clearing removes the file. Trimming keeps the newest `max_messages`
  entries with Python's `history[-max_messages:]`.
- **Chat route** (`backend/app.py`). `agri_agent` refuses an empty question
  with status 400. Otherwise it builds the model input: the system prompt,
  the last ten stored messages, then the question. `generate` then forwards
  every non-empty chunk of the model's stream as a `data: {"token": ...}`
  record. When the stream raises it adds a `data: {"error": ...}` record.
  It then stores the question and the reply, trims the history to twenty
  entries, and ends with `data: {"done": true}`. The clear route removes the
  session's history.
- **Page** (`frontend/src/App.jsx`). The theme is read from and written back
  to local storage, and the button toggles it. `ask` ignores a blank
  question. It reuses the stored session id, or stores a fresh one, and
  posts the question. It then reads the response chunk by chunk: each chunk
  is split on blank lines, and each `data: ` piece is parsed as JSON. A
  truthy `token` is appended to the reply and published.

The model is organised in these modules:

- `Storage`: the data directory as a map from file path to file content, and
  a `HistoryStore` class whose methods update it.
- `AgriApi`: the route, the prompt, the model input and the generator. The
  generator's loop is a method with loop invariants.
- `Json`: Python's `json.dumps` and JavaScript's `JSON.parse` for the
  payloads the two sides exchange.
- `EventStream`: the page's reading of the stream, as functions.
- `AgriClient`: the page as a class. `Ask` reads the chunks with two
  nested loops.
- `RoundTrip`: the records the backend writes, read by the page.
- `Text` and `Wrappers`: shared helpers.

The central results are:

- `Json.DumpParseRoundTrip`: `JSON.parse` reads back exactly what
  `json.dumps` wrote.
- `Json.DumpPrintable`: the JSON text never holds a line feed. So each
  record ends at its own blank line.
- `RoundTrip.StreamRoundTrip`: however whole records are grouped into
  chunks, the page ends with exactly the reply the backend stored, and no
  exception escapes.
- `EventStream.ReadChunksChained`: every published value strictly extends
  the one before it.

The page frames each chunk on its own (`frontend/src/App.jsx:46-47`), so a
record cut across two chunks is not put back together (see "## Findings").
The model follows the code.

## Model

| member | source | states |
|---|---|---|
| Storage.FilePath | backend/storage.py:9-10 | `_file_path`: the path is `data/`, the session id and `.json`, with the id recoverable from between them |
| Storage.FilePathInjective | backend/storage.py:9-10 | two sessions with the same file path are the same session |
| Storage.LastItems | backend/storage.py:38 | Python's `s[-m:]` for every integer `m`: positive `m` keeps the last `min(m, len)` items in order, zero keeps all, negative `m` drops the first `-m` |
| Storage.Load | backend/storage.py:12-19 | `load_history` on the data directory: a non-empty result is exactly the list stored in the session's file; a missing or unreadable file gives the empty list |
| Storage.Saved | backend/storage.py:21-23 | `save_history`: the session's file is created or replaced and every other file keeps its content |
| Storage.Appended | backend/storage.py:25-28 | `append_message`: afterwards the session's file exists and holds a readable list |
| Storage.Cleared | backend/storage.py:30-33 | `clear_history`: the session's file is removed and every other file keeps its content |
| Storage.Trimmed | backend/storage.py:35-38 | `trim_history`: with a non-negative bound no file is created or removed; in any case at most the session's file is added |
| Storage.HistoryStore.constructor | backend/storage.py:6-7 | the store starts with the files already in the data directory |
| Storage.HistoryStore.LoadHistory | backend/storage.py:12-19 | the result is the stored list, or empty when the file is missing or unreadable; nothing changes |
| Storage.HistoryStore.SaveHistory | backend/storage.py:21-23 | the session's file now holds the given list; every other file is unchanged |
| Storage.HistoryStore.AppendMessage | backend/storage.py:25-28 | the session's file holds the loaded history plus one `{role, content}` message |
| Storage.HistoryStore.ClearHistory | backend/storage.py:30-33 | the session's file is gone; the others are unchanged |
| Storage.HistoryStore.TrimHistory | backend/storage.py:35-38 | a history longer than the bound is saved as its last `max_messages` entries; otherwise nothing is written |
| Storage.LoadMissingOrUnreadable | backend/storage.py:12-19 | a missing or unreadable file loads as the empty history |
| Storage.LoadAfterSave | backend/storage.py:12-23 | loading after a save gives back the saved list |
| Storage.LoadAfterAppend | backend/storage.py:25-28 | appending extends the loaded history by exactly that message, also after a missing or unreadable file |
| Storage.LoadAfterClear | backend/storage.py:30-33 | after clearing, the session loads as empty |
| Storage.ClearAbsentUnchanged | backend/storage.py:30-33 | clearing a session without a file changes nothing |
| Storage.LoadAfterTrim | backend/storage.py:35-38 | for every integer bound `m`, the trimmed history loads as `history[-m:]`, whether or not the file was rewritten |
| Storage.TrimBound | backend/storage.py:35-38 | for a positive bound, the trimmed history has `min(m, len)` entries and they are the newest ones in order |
| Storage.TrimIdempotent | backend/storage.py:35-38 | trimming twice with the same non-negative bound equals trimming once |
| Storage.OtherSessionsUnaffected | backend/storage.py:9-38 | save, append, clear and trim on one session leave every other session's history as it was |
| AgriApi.ReadQuery | backend/app.py:21-24 | a missing question is empty, a missing location is "India", a missing crop is absent; present fields are taken as given |
| AgriApi.CropText | backend/app.py:65 | how the f-string prints the optional crop: a given crop as it is, a missing one as Python's `None` |
| AgriApi.SystemPrompt | backend/app.py:29-66 | the prompt starts with a line break, the instructions and a line break, and ends with the `Location:` and `Crop (if provided):` lines |
| AgriApi.ModelInput | backend/app.py:68-72 | the input is the system message, the last `min(10, len)` history entries in order, then the question as a user message |
| AgriApi.ModelInputBound | backend/app.py:70-72 | the model never receives more than twelve messages |
| AgriApi.Record | backend/app.py:81-89 | one event record: it starts with `data: ` and ends with a blank line |
| AgriApi.RecordFraming | backend/app.py:81-89 | a record is `data: `, the payload's JSON text and a blank line, and the JSON text holds no line feed |
| AgriApi.StreamPayloads | backend/app.py:74-89 | the payloads one run yields, in order; the list is never empty and its last payload is `{"done": true}` |
| AgriApi.StreamShape | backend/app.py:74-89 | a run's payloads are one token payload per non-empty chunk in order, then the error payload exactly when the stream raised, then the done payload last |
| AgriApi.StreamMarkers | backend/app.py:82-89 | the done payload appears only at the end, and no payload after the tokens has a `token` member |
| AgriApi.Exchange | backend/app.py:84-88 | the data directory after a run's `finally` block: the session always has a history file afterwards, and no other file is created or removed |
| AgriApi.ExchangeRecorded | backend/app.py:84-88 | after a run, the session history is the newest twenty of the old history plus the question and the reply; it has between 2 and 20 entries and ends with those two |
| AgriApi.ExchangeIsolated | backend/app.py:84-88 | a run leaves every other session's history unchanged |
| AgriApi.ForwardStep | backend/app.py:77-81 | a non-empty chunk extends the reply by its text and the records by its token record; an empty chunk changes neither |
| AgriApi.ClosingRecords | backend/app.py:82-89 | after the token records come the error record (only when the stream raised) and then the done record |
| AgriApi.ForwardTokens | backend/app.py:75-81 | the loop yields one token record per non-empty chunk and the reply is the chunks' texts joined |
| AgriApi.Generate | backend/app.py:74-89 | the records are those of the run's payloads, the reply is the non-empty chunks joined, and the history holds the exchange |
| AgriApi.AgriAgent | backend/app.py:19-91 | an empty question gets status 400 with the error message and stores nothing; any other question gets the event stream of the model's reply to its input and the exchange is stored |
| AgriApi.ClearAgriHistory | backend/app.py:93-97 | the session's history file is removed and the reply is `{"status": "cleared"}` |
| Json.Get | frontend/src/App.jsx:53 | the member lookup finds nothing exactly when no member has the key, and otherwise finds the value of the last member with that key, as `JSON.parse` keeps duplicates |
| Json.Dump | backend/app.py:81 | `json.dumps` of a payload: never empty, and an object's text is braced; `DumpParseRoundTrip` and `DumpPrintable` state its meaning |
| Json.Parse | frontend/src/App.jsx:51 | `JSON.parse` of the modelled subset, with no result for a syntax error; `DumpParseRoundTrip` states that it inverts `Dump` |
| Json.Hex4RoundTrip | backend/app.py:81 | the four hexadecimal digits `json.dumps` writes read back as the same code unit |
| Json.StringRoundTrip | backend/app.py:81 | an escaped string body followed by its closing quote reads back as the same string, leaving the rest of the text |
| Json.ScalarRoundTrip | backend/app.py:81 | a string, boolean or null written by `json.dumps` reads back as itself |
| Json.MembersRoundTrip | backend/app.py:81 | the members of an object, written with `", "` and `": "`, read back in order |
| Json.DumpParseRoundTrip | backend/app.py:81-89 | `JSON.parse(json.dumps(d))` is `d` for every payload shape modelled |
| Json.DumpPrintable | backend/app.py:81-89 | `json.dumps` text is printable ASCII and holds no line feed |
| EventStream.SplitOnBlank | frontend/src/App.jsx:47 | `chunk.split("\n\n")`: at least one piece; `SplitJoin` states that the pieces join back to the text and hold no blank line |
| EventStream.ChunkEvents | frontend/src/App.jsx:47 | `split("\n\n").filter(Boolean)`: the non-empty pieces of a chunk, in order; `ChunkOfRecords` states what they are for whole records |
| EventStream.FindBlank | frontend/src/App.jsx:47 | the result is the first blank line at or after the start position, or none exists |
| EventStream.SplitJoin | frontend/src/App.jsx:47 | `split("\n\n")` loses nothing: joining the pieces gives the text back, and no piece holds a blank line |
| EventStream.SplitLeftmost | frontend/src/App.jsx:47 | `split("\n\n")` splits at the leftmost blank line: no piece but the last ends with a line feed |
| EventStream.SplitAfterLine | frontend/src/App.jsx:47 | a line without line feeds, followed by a blank line, splits off as one piece |
| EventStream.TokenOf | frontend/src/App.jsx:53-54 | reading `payload.token` throws exactly for a `null` payload; a scalar payload or a missing, empty, `false` or `null` token adds nothing; a non-empty string token adds that string and `true` adds `"true"` |
| EventStream.Step | frontend/src/App.jsx:49-57 | one event: a piece without the `data: ` prefix is skipped, a parse failure or a `null` payload throws, and a truthy token is appended and published; `NonDataIgnored`, `DataRecordRead` and `StepChained` state these |
| EventStream.FoldEvents | frontend/src/App.jsx:49-57 | the events of one chunk read in order; `FoldAfterThrow`, `FoldEventsAppend` and `FoldChained` state its properties |
| EventStream.ReadChunks | frontend/src/App.jsx:42-58 | the whole read loop, chunk by chunk; `ReadChunksChained` and `RoundTrip.StreamRoundTrip` state its properties |
| EventStream.NonDataIgnored | frontend/src/App.jsx:50 | a piece not starting with `data: ` changes nothing |
| EventStream.FalsyPayloadIgnored | frontend/src/App.jsx:53-56 | the record of a payload without a truthy token, such as the done or error payload, changes nothing |
| EventStream.DataRecordParses | frontend/src/App.jsx:50-51 | a record's body starts with `data: ` and parses back to the payload |
| EventStream.DataRecordRead | frontend/src/App.jsx:49-57 | reading one record: a `null` payload throws, a falsy token changes nothing, a truthy token is appended and published |
| EventStream.FoldRecord | frontend/src/App.jsx:49-57 | after the record of a non-throwing payload, the reply has grown by its truthy token or not at all |
| EventStream.FoldAfterThrow | frontend/src/App.jsx:51 | once an exception has escaped, later events change nothing |
| EventStream.FoldEventsAppend | frontend/src/App.jsx:49-57 | reading two runs of events equals reading one after the other |
| EventStream.StepChained | frontend/src/App.jsx:53-55 | one event keeps the published values chained and the reply only grows |
| EventStream.FoldChained | frontend/src/App.jsx:49-57 | a run of events keeps the published values chained |
| EventStream.ReadChunksChained | frontend/src/App.jsx:42-58 | for any chunks, every published value strictly extends the previous one, the first is non-empty, and the last is the final reply |
| EventStream.SplitAppend | frontend/src/App.jsx:47 | splitting `a + c` closes the pieces of `a`, then continues from the last piece of `a` followed by `c` |
| EventStream.ReadBuffered | frontend/src/App.jsx:42-58 | the corrected reader: it reads only pieces a blank line has closed and carries the last piece to the next chunk; the carried piece never holds a blank line |
| EventStream.ReadBufferedWhole | frontend/src/App.jsx:42-58 | the carrying reader reads the pieces closed in the joined text, however that text is cut into chunks |
| AgriClient.TrimStart | frontend/src/App.jsx:23 | the result does not start with JavaScript whitespace |
| AgriClient.TrimStartRemoves | frontend/src/App.jsx:23 | the left half of `trim()` removes only white space: the result is a suffix of the text and everything before it is white space |
| AgriClient.TrimEnd | frontend/src/App.jsx:23 | the result is a prefix of the text and does not end with JavaScript whitespace |
| AgriClient.TrimEndRemoves | frontend/src/App.jsx:23 | the right half of `trim()` removes only white space: everything after the result is white space |
| AgriClient.Trim | frontend/src/App.jsx:23 | `question.trim()`: the result neither starts nor ends with JavaScript whitespace |
| AgriClient.TrimBlank | frontend/src/App.jsx:23 | `question.trim()` is empty exactly when the question is all whitespace |
| AgriClient.StoredOr | frontend/src/App.jsx:11 | `getItem(key) \|\| fallback`: a stored non-empty value wins, otherwise the fallback |
| AgriClient.InitialTheme | frontend/src/App.jsx:10-12 | the theme at mount: the stored non-empty theme, otherwise dark; never empty |
| AgriClient.NextTheme | frontend/src/App.jsx:109 | the toggle always changes the theme: light from dark, and dark from every other value, including a stored theme that is neither |
| AgriClient.RequestUrl | frontend/src/App.jsx:32 | the request URL is the API base, `/api/agri/`, then the session id |
| AgriClient.SessionIdFor | frontend/src/App.jsx:28-29 | the stored non-empty session id, otherwise the fresh one |
| AgriClient.ToggleTwice | frontend/src/App.jsx:109 | toggling twice restores a light or dark theme |
| AgriClient.SessionIdReused | frontend/src/App.jsx:28-30 | once an id is stored, every later question uses it whatever fresh id is offered |
| AgriClient.ReadAfterThrow | frontend/src/App.jsx:42-58 | after an exception, the remaining chunks change nothing |
| AgriClient.ThrowInChunk | frontend/src/App.jsx:49-51 | an exception in the middle of a chunk fixes the final result there |
| AgriClient.AgriAgentView.constructor | frontend/src/App.jsx:6-18 | the page mounts with an empty question, the default place, no reply, idle, and the stored theme (dark by default) written back |
| AgriClient.AgriAgentView.SetQuestion | frontend/src/App.jsx:145-146 | typing replaces the question and nothing else |
| AgriClient.AgriAgentView.SetLocation | frontend/src/App.jsx:126-127 | typing replaces the location and nothing else |
| AgriClient.AgriAgentView.ToggleTheme | frontend/src/App.jsx:16-18 | the theme toggles, is written to local storage, and nothing else changes |
| AgriClient.AgriAgentView.Ask | frontend/src/App.jsx:22-61 | a blank question changes nothing; otherwise the session id is stored, the request is sent, and reply, published values and loading flag are those of reading the chunks in order (a rejected fetch leaves it loading with an empty reply; a reader that rejects mid-stream leaves it loading with the reply read so far) |
| RoundTrip.SplitTerminated | backend/app.py:81-89 | lines without line feeds, each ended by a blank line, split back into the lines plus one empty piece |
| RoundTrip.RecordsAreTerminated | backend/app.py:81-89 | the records are their bodies each followed by a blank line, and no body is empty or holds a line feed |
| RoundTrip.ChunkOfRecords | frontend/src/App.jsx:46-47 | a chunk of whole records has exactly the records' bodies as its events |
| RoundTrip.FoldBodies | frontend/src/App.jsx:49-57 | reading the bodies of payloads that never throw appends their token texts in order and throws nothing |
| RoundTrip.TokenTextsOfTokens | backend/app.py:79-81 | token payloads of non-empty tokens read back as those tokens and never throw |
| RoundTrip.StreamTokenTexts | backend/app.py:74-89 | a run's payloads never throw, and their token texts are the non-empty chunks: the error and done payloads add nothing |
| RoundTrip.ClosingTexts | backend/app.py:82-89 | the error and done payloads neither throw nor add text |
| RoundTrip.ReadWholeRecords | frontend/src/App.jsx:42-58 | chunks that each hold whole records are read as all the bodies in order |
| RoundTrip.StreamRoundTrip | frontend/src/App.jsx:42-58 | with whole records in every chunk, the page's reply is the backend's stored reply and no exception escapes |
| RoundTrip.SingleChunkRoundTrip | frontend/src/App.jsx:42-58 | a run delivered in one chunk gives the stored reply |
| RoundTrip.StreamPayloadsObjects | backend/app.py:74-89 | every run has payloads, and the first is an object |
| RoundTrip.RecordsTextStart | backend/app.py:81-89 | the text of a run starts with `data: {` |
| RoundTrip.BraceChunkThrows | frontend/src/App.jsx:49-51 | the lone chunk `data: {` is one `data: ` piece whose JSON does not parse, so the exception escapes with the reply still empty |
| RoundTrip.CutAfterBrace | frontend/src/App.jsx:46-51 | a first chunk of exactly `data: {` throws before anything is shown |
| RoundTrip.CutRecordThrows | frontend/src/App.jsx:46-51 | any run's text cut after seven characters leaves the page with an empty reply and an escaped exception |
| RoundTrip.BufferedRoundTrip | frontend/src/App.jsx:42-58 | the carrying reader gives the stored reply for any cut of the text into chunks, with nothing left pending |

## Left out

- JSON numbers, arrays and nested objects: the payloads are flat objects of strings, booleans and null. The model's `JSON.parse` returns a parse failure for anything else, so such payloads count as an exception. The backend never sends them.
- Lone surrogates: Dafny's `char` is a Unicode scalar value, so `json.dumps` of a lone surrogate is not modelled, and `Json.Parse` gives no result for an escaped lone surrogate such as `"\ud800"`, which JavaScript's `JSON.parse` accepts.
- `TextDecoder`: chunks are modelled as already-decoded text. A multi-byte character cut across two byte chunks is not modelled.
- `fetch`, `await` and the body reader: they become the `Transport` parameter. It is a rejected fetch, the decoded chunks up to the reader's `done`, or the chunks read before a `read()` that rejects.
- Flask, CORS and the `Response` object: the route returns a `Response` value. `request.json` is a map of text fields, so a body that is not a JSON object, and fields that are not strings, are not modelled.
- The language model: it is a parameter, a function from the input messages to a `TokenStream` (the chunk contents and an optional exception text).
- AgriApi.Instructions: the instruction text of `backend/app.py:30-62` is represented by its first line. The rest of the fixed text is omitted because the solver expands a 1,030-character literal in every proof that mentions the prompt. The prompt's layout is kept.
- AgriApi.Generate: the generator runs to completion. A client that disconnects mid-stream, where Python raises `GeneratorExit` at a `yield`, is not modelled. Neither are failures of the history writes inside `finally`.
- The history file's text: a file is either a list of messages or unreadable. A file holding valid JSON that is not a list is not modelled, and neither is `json.dumps(indent=2)` formatting.
- `crypto.randomUUID()`: it is the `freshId` parameter of `Ask`.
- The request body text written by `JSON.stringify`: `Ask` returns the request's URL and its two fields.
- Concurrency: two requests on the same session interleaving their read-modify-write of the history file are not modelled.
- Rendering (styles, `ReactMarkdown`, the disabled state of the button): not modelled.

## Findings

| source | as written | input that shows it | evidently intended | confidence | as-written member | corrected member |
|---|---|---|---|---|---|---|
| frontend/src/App.jsx:46-51 | each chunk is split on blank lines and parsed on its own, so a record cut across two chunks is parsed in halves | the text of any run, delivered as its first seven characters (`data: {`) and then the rest | the page reads the stored reply whatever the cut, by carrying the unfinished piece over to the next chunk | not executed | RoundTrip.CutRecordThrows | RoundTrip.BufferedRoundTrip |

`RoundTrip.CutRecordThrows` proves that with this cut, `JSON.parse("{")` throws. The page keeps an empty reply and stays loading, even when the model produced tokens. `EventStream.ReadBuffered` is the corrected reader. It keeps the last, unfinished piece of each chunk and puts it in front of the next. `RoundTrip.BufferedRoundTrip` proves that it yields the stored reply for every cut of the text into chunks.

`AgriClient.AgriAgentView.Ask` still models the page's reader as written. Under whole-record chunking, `RoundTrip.StreamRoundTrip` proves that the as-written reader is also correct.
