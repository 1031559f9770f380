/** The conversation history of each chat session, kept by the backend as one
    JSON file per session in a data directory. The directory is a map from
    file path to what the file holds; the JSON text written by `save_history`
    and read back by `load_history` is abstracted to the list it encodes. */
module Storage {

  /** One stored message, the `{"role": ..., "content": ...}` record. */
  datatype Message = Message(role: string, content: string)

  /** What a history file holds: a list `load_history` can read back, or
      text that makes reading fail. */
  datatype StoredFile = History(messages: seq<Message>) | Unreadable

  type Files = map<string, StoredFile>

  const DataDir: string := "data"

  /** The maximum history length the server keeps after each exchange. */
  const DefaultMaxMessages: int := 20

  function Min(a: int, b: int): int { if a <= b then a else b }

  /** The file holding one session's history: `data/<session id>.json`. */
  function FilePath(sessionId: string): (path: string)
    ensures |path| == |DataDir| + |sessionId| + 6
    ensures path[..|DataDir| + 1] == DataDir + "/" && path[|path| - 5..] == ".json"
    ensures path[|DataDir| + 1..|path| - 5] == sessionId
  {
    DataDir + "/" + sessionId + ".json"
  }

  /** Distinct sessions never share a file. */
  lemma FilePathInjective(a: string, b: string)
    requires FilePath(a) == FilePath(b)
    ensures a == b
  {
    var n := |DataDir + "/"|;
    assert |a| == |b|;
    assert a == FilePath(a)[n..n + |a|];
    assert b == FilePath(b)[n..n + |b|];
  }

  /** Python's `s[-m:]` for any integer `m`: a positive `m` keeps the last
      `m` items (all of them when there are fewer), zero keeps everything
      (`-0` is `0`), and a negative `m` drops the first `-m` items. */
  function LastItems<T>(s: seq<T>, m: int): (r: seq<T>)
    ensures m > 0 ==> |r| == Min(m, |s|) && r == s[|s| - |r|..]
    ensures m == 0 ==> r == s
    ensures m < 0 ==> r == s[Min(-m, |s|)..]
  {
    // Python adds the length to a negative start, clamps it at zero, and
    // clamps a start past the end to the length.
    var start := -m;
    var from := if start < 0 then (if start + |s| < 0 then 0 else start + |s|)
                else if start > |s| then |s| else start;
    s[from..]
  }

  /** `load_history`: the stored list, or the empty list when the file is
      missing or cannot be read. */
  function Load(files: Files, sessionId: string): (history: seq<Message>)
    ensures history != [] ==> FilePath(sessionId) in files
                              && files[FilePath(sessionId)] == History(history)
  {
    var path := FilePath(sessionId);
    if path in files && files[path].History? then files[path].messages else []
  }

  /** `save_history`: the session's file now holds `history`. */
  function Saved(files: Files, sessionId: string, history: seq<Message>): (r: Files)
    ensures r.Keys == files.Keys + {FilePath(sessionId)}
    ensures forall path :: path in files && path != FilePath(sessionId) ==> r[path] == files[path]
  {
    files[FilePath(sessionId) := History(history)]
  }

  /** `append_message`: the loaded history with one message added, saved. */
  function Appended(files: Files, sessionId: string, role: string, content: string): (r: Files)
    ensures r.Keys == files.Keys + {FilePath(sessionId)}
    ensures r[FilePath(sessionId)].History?
  {
    Saved(files, sessionId, Load(files, sessionId) + [Message(role, content)])
  }

  /** `clear_history`: the session's file is removed when it exists. */
  function Cleared(files: Files, sessionId: string): (r: Files)
    ensures r.Keys == files.Keys - {FilePath(sessionId)}
    ensures forall path :: path in r ==> r[path] == files[path]
  {
    files - {FilePath(sessionId)}
  }

  /** `trim_history`: a history longer than `maxMessages` is cut to its
      last `maxMessages` entries; otherwise nothing is written. */
  function Trimmed(files: Files, sessionId: string, maxMessages: int): (r: Files)
    ensures maxMessages >= 0 ==> r.Keys == files.Keys
    ensures r.Keys <= files.Keys + {FilePath(sessionId)}
  {
    var history := Load(files, sessionId);
    if |history| > maxMessages then Saved(files, sessionId, LastItems(history, maxMessages))
    else files
  }

  /** The data directory, changed only through the five operations. */
  class HistoryStore {
    var files: Files

    constructor(existing: Files)
      ensures files == existing
    {
      files := existing;
    }

    method LoadHistory(sessionId: string) returns (history: seq<Message>)
      ensures history == Load(files, sessionId)
    {
      var path := FilePath(sessionId);
      if path !in files {
        return [];
      }
      match files[path]
      case History(ms) => history := ms;
      case Unreadable => history := [];
    }

    method SaveHistory(sessionId: string, history: seq<Message>)
      modifies this
      ensures files == Saved(old(files), sessionId, history)
    {
      files := files[FilePath(sessionId) := History(history)];
    }

    method AppendMessage(sessionId: string, role: string, content: string)
      modifies this
      ensures files == Appended(old(files), sessionId, role, content)
    {
      var history := LoadHistory(sessionId);
      history := history + [Message(role, content)];
      SaveHistory(sessionId, history);
    }

    method ClearHistory(sessionId: string)
      modifies this
      ensures files == Cleared(old(files), sessionId)
    {
      var path := FilePath(sessionId);
      if path in files {
        files := files - {path};
      }
    }

    method TrimHistory(sessionId: string, maxMessages: int)
      modifies this
      ensures files == Trimmed(old(files), sessionId, maxMessages)
    {
      var history := LoadHistory(sessionId);
      if |history| > maxMessages {
        SaveHistory(sessionId, LastItems(history, maxMessages));
      }
    }
  }

  // ---------------------------------------------------------------------
  // Properties of the operations.
  // ---------------------------------------------------------------------

  /** A missing file and an unreadable file both load as the empty history. */
  lemma LoadMissingOrUnreadable(files: Files, sessionId: string)
    requires FilePath(sessionId) !in files || files[FilePath(sessionId)] == Unreadable
    ensures Load(files, sessionId) == []
  {
  }

  /** What is saved is what is loaded next. */
  lemma LoadAfterSave(files: Files, sessionId: string, history: seq<Message>)
    ensures Load(Saved(files, sessionId, history), sessionId) == history
  {
  }

  /** Appending extends the loaded history by exactly one message, even
      when the file was missing or unreadable before. */
  lemma LoadAfterAppend(files: Files, sessionId: string, role: string, content: string)
    ensures Load(Appended(files, sessionId, role, content), sessionId)
         == Load(files, sessionId) + [Message(role, content)]
  {
  }

  /** After clearing, the session loads as empty. */
  lemma LoadAfterClear(files: Files, sessionId: string)
    ensures Load(Cleared(files, sessionId), sessionId) == []
  {
  }

  /** Clearing a session that has no file changes nothing. */
  lemma ClearAbsentUnchanged(files: Files, sessionId: string)
    requires FilePath(sessionId) !in files
    ensures Cleared(files, sessionId) == files
  {
  }

  /** For a non-negative bound, trimming leaves exactly Python's
      `history[-max_messages:]` behind whether or not it writes. */
  lemma LoadAfterTrim(files: Files, sessionId: string, maxMessages: int)
    ensures Load(Trimmed(files, sessionId, maxMessages), sessionId)
         == LastItems(Load(files, sessionId), maxMessages)
  {
    var history := Load(files, sessionId);
    if |history| <= maxMessages && maxMessages > 0 {
      assert history[|history| - |history|..] == history;
    }
  }

  /** For a positive bound the trimmed history holds at most `maxMessages`
      entries, and they are the newest ones in their original order. */
  lemma TrimBound(files: Files, sessionId: string, maxMessages: int)
    requires maxMessages > 0
    ensures var before := Load(files, sessionId);
            var after := Load(Trimmed(files, sessionId, maxMessages), sessionId);
            |after| == Min(maxMessages, |before|) && after == before[|before| - |after|..]
  {
    LoadAfterTrim(files, sessionId, maxMessages);
  }

  /** Trimming twice with the same non-negative bound is trimming once. */
  lemma TrimIdempotent(files: Files, sessionId: string, maxMessages: int)
    requires maxMessages >= 0
    ensures Trimmed(Trimmed(files, sessionId, maxMessages), sessionId, maxMessages)
         == Trimmed(files, sessionId, maxMessages)
  {
    var history := Load(files, sessionId);
    if |history| > maxMessages {
      var once := Trimmed(files, sessionId, maxMessages);
      var kept := LastItems(history, maxMessages);
      assert Load(once, sessionId) == kept;
      if maxMessages == 0 {
        assert Saved(once, sessionId, LastItems(kept, 0)) == once;
      }
    }
  }

  /** No operation on one session changes what another session loads. */
  lemma OtherSessionsUnaffected(files: Files, sessionId: string, other: string,
                                history: seq<Message>, role: string, content: string,
                                maxMessages: int)
    requires other != sessionId
    ensures Load(Saved(files, sessionId, history), other) == Load(files, other)
    ensures Load(Appended(files, sessionId, role, content), other) == Load(files, other)
    ensures Load(Cleared(files, sessionId), other) == Load(files, other)
    ensures Load(Trimmed(files, sessionId, maxMessages), other) == Load(files, other)
  {
    if FilePath(other) == FilePath(sessionId) {
      FilePathInjective(other, sessionId);
    }
  }
}
