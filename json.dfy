/** The JSON text of the event payloads: the server writes it with Python's
    `json.dumps` (default separators, `ensure_ascii`), the browser reads it
    with `JSON.parse`. Only the shapes the two sides exchange are modelled: a
    flat object whose members are strings, booleans or null, or one such
    scalar on its own. */
module Json {
  import opened Wrappers

  /** A JSON scalar. */
  datatype Scalar = Str(s: string) | Bool(b: bool) | Null

  /** A parsed document: one scalar, or an object as its list of members in
      text order (duplicate keys are kept; lookups take the last one, as
      `JSON.parse` does). */
  datatype Document = Atom(value: Scalar) | Object(members: seq<(string, Scalar)>)

  /** The value of the last member named `key`, if any. */
  function Get(members: seq<(string, Scalar)>, key: string): (r: Option<Scalar>)
    ensures r.None? <==> forall i :: 0 <= i < |members| ==> members[i].0 != key
    ensures r.Some? ==> exists i :: 0 <= i < |members| && members[i] == (key, r.value)
                                 && forall j :: i < j < |members| ==> members[j].0 != key
  {
    if members == [] then None
    else if members[|members| - 1].0 == key then Some(members[|members| - 1].1)
    else Get(members[..|members| - 1], key)
  }

  // ---------------------------------------------------------------------
  // Encoding (Python json.dumps)
  // ---------------------------------------------------------------------

  /** Characters `json.dumps` writes unescaped: space through tilde. */
  predicate IsPrintableAscii(c: char)
  {
    ' ' <= c <= '~'
  }

  predicate AllPrintable(s: string)
  {
    forall i :: 0 <= i < |s| ==> IsPrintableAscii(s[i])
  }

  const HexDigits: string := "0123456789abcdef"

  /** Four lower-case hexadecimal digits, most significant first. */
  function Hex4(n: nat): (r: string)
    requires n < 0x1_0000
    ensures |r| == 4
  {
    var n1 := n / 16;
    var n2 := n1 / 16;
    [HexDigits[n2 / 16], HexDigits[n2 % 16], HexDigits[n1 % 16], HexDigits[n % 16]]
  }

  /** `\uXXXX` for one UTF-16 code unit. */
  function UnitEscape(n: nat): (r: string)
    requires n < 0x1_0000
    ensures |r| == 6 && r[0] == '\\'
  {
    "\\u" + Hex4(n)
  }

  /** The letter of the two-character escape `json.dumps` uses for `c`, if
      it uses one: the two quoting characters and five control characters. */
  function EscapeLetter(c: char): Option<char>
  {
    if c == '"' then Some('"')
    else if c == '\\' then Some('\\')
    else if c == '\n' then Some('n')
    else if c == '\r' then Some('r')
    else if c == '\t' then Some('t')
    else if c == '\U{8}' then Some('b')
    else if c == '\U{C}' then Some('f')
    else None
  }

  /** How `json.dumps` writes one character inside a string literal: a
      two-character escape where there is one, printable ASCII as itself,
      every other character below U+10000 as `\uXXXX`, and the rest as a
      UTF-16 surrogate pair of two such escapes. */
  function EscapeChar(c: char): (r: string)
    ensures r != [] && r[0] != '"'
  {
    match EscapeLetter(c)
    case Some(letter) => ['\\', letter]
    case None =>
      if IsPrintableAscii(c) then [c]
      else if c as int < 0x1_0000 then UnitEscape(c as int)
      else
        var (hi, lo) := SurrogatePair(c);
        UnitEscape(hi) + UnitEscape(lo)
  }

  /** The escaped body of a string literal. */
  function EscapeString(s: string): string
  {
    if s == [] then [] else EscapeChar(s[0]) + EscapeString(s[1..])
  }

  function DumpString(s: string): (r: string)
    ensures r != [] && r[0] == '"'
  {
    "\"" + EscapeString(s) + "\""
  }

  function DumpScalar(v: Scalar): (r: string)
    ensures r != []
  {
    match v
    case Str(s) => DumpString(s)
    case Bool(b) => if b then "true" else "false"
    case Null => "null"
  }

  function DumpMember(m: (string, Scalar)): (r: string)
    ensures r != [] && r[0] == '"'
  {
    DumpString(m.0) + ": " + DumpScalar(m.1)
  }

  /** Members separated by `", "`, as `json.dumps` writes them. */
  function DumpMembers(ms: seq<(string, Scalar)>): (r: string)
    ensures ms != [] ==> r != [] && r[0] == '"'
  {
    if ms == [] then ""
    else if |ms| == 1 then DumpMember(ms[0])
    else DumpMember(ms[0]) + ", " + DumpMembers(ms[1..])
  }

  /** `json.dumps` of a document. */
  function Dump(d: Document): (r: string)
    ensures r != []
    ensures d.Object? ==> r[0] == '{' && r[|r| - 1] == '}'
  {
    match d
    case Atom(v) => DumpScalar(v)
    case Object(ms) => "{" + DumpMembers(ms) + "}"
  }

  // ---------------------------------------------------------------------
  // Parsing (JavaScript JSON.parse). Each parser takes the unread text and
  // returns what it read together with the text that follows it.
  // ---------------------------------------------------------------------

  predicate IsWhitespace(c: char)
  {
    c == ' ' || c == '\t' || c == '\n' || c == '\r'
  }

  function SkipWhitespace(t: string): (r: string)
    ensures |r| <= |t|
    ensures r == [] || !IsWhitespace(r[0])
  {
    if t != [] && IsWhitespace(t[0]) then SkipWhitespace(t[1..]) else t
  }

  function HexValue(c: char): Option<nat>
  {
    if '0' <= c <= '9' then Some(c as int - '0' as int)
    else if 'a' <= c <= 'f' then Some(c as int - 'a' as int + 10)
    else if 'A' <= c <= 'F' then Some(c as int - 'A' as int + 10)
    else None
  }

  function ParseHex4(t: string): (r: Option<(nat, string)>)
    ensures r.Some? ==> |t| >= 4 && r.value.0 < 0x1_0000 && r.value.1 == t[4..]
  {
    if |t| < 4 then None
    else match (HexValue(t[0]), HexValue(t[1]), HexValue(t[2]), HexValue(t[3]))
      case (Some(a), Some(b), Some(c), Some(d)) =>
        if a < 16 && b < 16 && c < 16 && d < 16 then Some((((a * 16 + b) * 16 + c) * 16 + d, t[4..]))
        else None
      case _ => None
  }

  predicate IsHighSurrogate(n: int) { 0xD800 <= n < 0xDC00 }
  predicate IsLowSurrogate(n: int) { 0xDC00 <= n < 0xE000 }

  /** The character a one-letter escape stands for. */
  function ShortEscape(letter: char): Option<char>
  {
    if letter == '"' then Some('"')
    else if letter == '\\' then Some('\\')
    else if letter == '/' then Some('/')
    else if letter == 'b' then Some('\U{8}')
    else if letter == 'f' then Some('\U{C}')
    else if letter == 'n' then Some('\n')
    else if letter == 'r' then Some('\r')
    else if letter == 't' then Some('\t')
    else None
  }

  /** The character a `\u` escape stands for; `t` starts just after the `u`.
      A high surrogate must be followed by the `\u` escape of a low one, and
      the pair stands for one character. */
  function ParseUnicodeEscape(t: string): (r: Option<(char, string)>)
    ensures r.Some? ==> |r.value.1| < |t|
  {
    match ParseHex4(t)
    case None => None
    case Some((hi, rest)) =>
      if IsLowSurrogate(hi) then None
      else if !IsHighSurrogate(hi) then Some((hi as char, rest))
      else ParseLowSurrogate(hi, rest)
  }

  /** The second half of a surrogate pair whose first half is `hi`. */
  function ParseLowSurrogate(hi: nat, t: string): (r: Option<(char, string)>)
    requires IsHighSurrogate(hi)
    ensures r.Some? ==> |r.value.1| < |t|
  {
    if |t| < 2 || t[0] != '\\' || t[1] != 'u' then None
    else match ParseHex4(t[2..])
      case None => None
      case Some((lo, rest)) =>
        if IsLowSurrogate(lo) then Some(((0x1_0000 + (hi - 0xD800) * 0x400 + (lo - 0xDC00)) as char, rest))
        else None
  }

  /** The character an escape sequence stands for; `t` starts just after the
      backslash. */
  function ParseEscape(t: string): (r: Option<(char, string)>)
    ensures r.Some? ==> |r.value.1| < |t|
  {
    if t == [] then None
    else if t[0] == 'u' then ParseUnicodeEscape(t[1..])
    else match ShortEscape(t[0])
      case None => None
      case Some(c) => Some((c, t[1..]))
  }

  /** The characters of a string literal up to its closing quote; `t` starts
      just after the opening quote. Raw control characters are refused. */
  function ParseStringBody(t: string): (r: Option<(string, string)>)
    ensures r.Some? ==> |r.value.1| < |t|
    decreases |t|
  {
    if t == [] then None
    else if t[0] == '"' then Some(([], t[1..]))
    else if t[0] < ' ' then None
    else
      var head := if t[0] == '\\' then ParseEscape(t[1..]) else Some((t[0], t[1..]));
      match head
      case None => None
      case Some((c, rest)) =>
        match ParseStringBody(rest)
        case None => None
        case Some((cs, rest')) => Some(([c] + cs, rest'))
  }

  function ParseScalar(t: string): (r: Option<(Scalar, string)>)
    ensures r.Some? ==> |r.value.1| < |t|
  {
    if t == [] then None
    else if t[0] == '"' then
      match ParseStringBody(t[1..])
      case None => None
      case Some((s, rest)) => Some((Str(s), rest))
    else if |t| >= 4 && t[..4] == "true" then Some((Bool(true), t[4..]))
    else if |t| >= 5 && t[..5] == "false" then Some((Bool(false), t[5..]))
    else if |t| >= 4 && t[..4] == "null" then Some((Null, t[4..]))
    else None
  }

  /** One member: a key, a colon and a scalar, with whitespace around the
      colon; `t` starts at the key's opening quote. */
  function ParseMember(t: string): (r: Option<((string, Scalar), string)>)
    ensures r.Some? ==> |r.value.1| < |t|
  {
    if t == [] || t[0] != '"' then None
    else match ParseStringBody(t[1..])
      case None => None
      case Some((key, afterKey)) =>
        var t2 := SkipWhitespace(afterKey);
        if t2 == [] || t2[0] != ':' then None
        else match ParseScalar(SkipWhitespace(t2[1..]))
          case None => None
          case Some((v, afterValue)) => Some(((key, v), afterValue))
  }

  /** One or more members and the closing brace; `t` starts at the first
      member's key. A comma must be followed by another member. */
  function ParseMembers(t: string): (r: Option<(seq<(string, Scalar)>, string)>)
    ensures r.Some? ==> |r.value.1| < |t|
    decreases |t|
  {
    match ParseMember(t)
    case None => None
    case Some((m, afterValue)) =>
      var t4 := SkipWhitespace(afterValue);
      if t4 == [] then None
      else if t4[0] == '}' then Some(([m], t4[1..]))
      else if t4[0] == ',' then
        match ParseMembers(SkipWhitespace(t4[1..]))
        case None => None
        case Some((more, rest)) => Some(([m] + more, rest))
      else None
  }

  /** The members of an object and the text after it; `t` starts just after
      the opening brace. */
  function ParseObjectBody(t: string): (r: Option<(seq<(string, Scalar)>, string)>)
  {
    var t1 := SkipWhitespace(t);
    if t1 != [] && t1[0] == '}' then Some(([], t1[1..])) else ParseMembers(t1)
  }

  /** `JSON.parse`: one document, optionally surrounded by whitespace, and
      nothing else. `None` stands for the `SyntaxError` it throws. */
  function Parse(text: string): Option<Document>
  {
    var t := SkipWhitespace(text);
    if t != [] && t[0] == '{' then
      match ParseObjectBody(t[1..])
      case None => None
      case Some((ms, rest)) => if SkipWhitespace(rest) == [] then Some(Object(ms)) else None
    else
      match ParseScalar(t)
      case None => None
      case Some((v, rest)) => if SkipWhitespace(rest) == [] then Some(Atom(v)) else None
  }

  // ---------------------------------------------------------------------
  // Regrouping lemmas. They are stated over plain variables so that the
  // solver proves them without unfolding the encoders; the round-trip
  // proofs below call them instead of asserting equalities of encoded text.
  // ---------------------------------------------------------------------

  lemma Regroup3(a: string, b: string, c: string)
    ensures a + b + c == a + (b + c)
  {
  }

  lemma Regroup4(a: string, b: string, c: string, d: string)
    ensures a + b + c + d == a + (b + (c + d))
  {
  }

  lemma Regroup5(a: string, b: string, c: string, d: string, e: string)
    ensures (a + b + c) + d + e == a + (b + (c + d + e))
  {
  }

  lemma RegroupHead(a: string, b: string, c: string, d: string)
    ensures (a + b) + c + d == a + (b + c + d)
  {
  }

  lemma DropPrefix(a: string, b: string)
    ensures (a + b)[|a|..] == b
  {
  }

  lemma DropHead(x: char, a: string)
    ensures ([x] + a)[1..] == a
  {
  }

  // ---------------------------------------------------------------------
  // Round trip: what json.dumps writes, JSON.parse reads back unchanged.
  // ---------------------------------------------------------------------

  lemma HexValueOfDigit(d: nat)
    requires d < 16
    ensures HexValue(HexDigits[d]) == Some(d)
  {
  }

  lemma Hex4Value(n: nat)
    requires n < 0x1_0000
    ensures var n1 := n / 16; var n2 := n1 / 16;
      ((n2 / 16 * 16 + n2 % 16) * 16 + n1 % 16) * 16 + n % 16 == n
  {
  }

  lemma {:induction false} Hex4RoundTrip(n: nat, rest: string)
    requires n < 0x1_0000
    ensures ParseHex4(Hex4(n) + rest) == Some((n, rest))
  {
    var n1 := n / 16;
    var n2 := n1 / 16;
    var h := Hex4(n);
    var t := h + rest;
    assert t[0] == h[0] && t[1] == h[1] && t[2] == h[2] && t[3] == h[3];
    DropPrefix(h, rest);
    HexValueOfDigit(n2 / 16);
    HexValueOfDigit(n2 % 16);
    HexValueOfDigit(n1 % 16);
    HexValueOfDigit(n % 16);
    Hex4Value(n);
  }

  /** What ParseStringBody does with one (possibly escaped) character that
      stands for `c` and is followed by `rest`. */
  function AfterChar(c: char, rest: string): Option<(string, string)>
  {
    match ParseStringBody(rest)
    case None => None
    case Some((cs, rest')) => Some(([c] + cs, rest'))
  }

  lemma StringBodyStep(t: string, c: char, rest: string)
    requires t != [] && t[0] != '"' && ' ' <= t[0]
    requires if t[0] == '\\' then ParseEscape(t[1..]) == Some((c, rest)) else t[0] == c && t[1..] == rest
    ensures ParseStringBody(t) == AfterChar(c, rest)
  {
  }

  lemma {:induction false} EscapeCharRoundTrip(c: char, rest: string)
    ensures ParseStringBody(EscapeChar(c) + rest) == AfterChar(c, rest)
  {
    match EscapeLetter(c)
    case Some(letter) => LetterEscapeRoundTrip(c, letter, rest);
    case None =>
      if IsPrintableAscii(c) {
        assert EscapeChar(c) == [c];
        DropHead(c, rest);
        StringBodyStep([c] + rest, c, rest);
      } else if c as int < 0x1_0000 {
        assert EscapeChar(c) == UnitEscape(c as int);
        UnitEscapeRoundTrip(c as int, rest);
        StringBodyStep(UnitEscape(c as int) + rest, c, rest);
      } else {
        AstralEscapeRoundTrip(c, rest);
      }
  }

  lemma {:induction false} LetterEscapeRoundTrip(c: char, letter: char, rest: string)
    requires EscapeLetter(c) == Some(letter)
    ensures ParseStringBody(EscapeChar(c) + rest) == AfterChar(c, rest)
  {
    var t := ['\\', letter] + rest;
    assert EscapeChar(c) == ['\\', letter];
    assert t == ['\\'] + ([letter] + rest);
    DropHead('\\', [letter] + rest);
    DropHead(letter, rest);
    assert ShortEscape(letter) == Some(c);
    StringBodyStep(t, c, rest);
  }

  /** `UnitEscape(n) + rest` with its backslash and `u` taken apart. */
  lemma UnitEscapeText(n: nat, rest: string)
    requires n < 0x1_0000
    ensures (UnitEscape(n) + rest)[0] == '\\'
    ensures (UnitEscape(n) + rest)[1..] == ['u'] + (Hex4(n) + rest)
  {
    var h := Hex4(n);
    assert UnitEscape(n) == ['\\'] + (['u'] + h);
    Regroup3(['\\'], ['u'] + h, rest);
    DropHead('\\', ['u'] + h + rest);
    Regroup3(['u'], h, rest);
  }

  /** A `\u` escape of a code unit that is not a surrogate. */
  lemma {:induction false} UnitEscapeRoundTrip(n: nat, rest: string)
    requires n < 0x1_0000 && !IsHighSurrogate(n) && !IsLowSurrogate(n)
    ensures (UnitEscape(n) + rest)[0] == '\\'
    ensures ParseEscape((UnitEscape(n) + rest)[1..]) == Some((n as char, rest))
  {
    UnitEscapeText(n, rest);
    DropHead('u', Hex4(n) + rest);
    Hex4RoundTrip(n, rest);
  }

  /** The two halves of the UTF-16 surrogate pair for a character above
      U+FFFF; combined again they give back the character. */
  function SurrogatePair(c: char): (r: (nat, nat))
    requires c as int >= 0x1_0000
    ensures IsHighSurrogate(r.0) && IsLowSurrogate(r.1)
    ensures CombineSurrogates(r.0, r.1) == c as int
  {
    var u := c as int - 0x1_0000;
    (0xD800 + u / 0x400, 0xDC00 + u % 0x400)
  }

  function CombineSurrogates(hi: int, lo: int): int
  {
    0x1_0000 + (hi - 0xD800) * 0x400 + (lo - 0xDC00)
  }

  /** A character above U+FFFF, written as a surrogate pair. */
  lemma {:induction false} AstralEscapeRoundTrip(c: char, rest: string)
    requires EscapeLetter(c).None? && !IsPrintableAscii(c) && c as int >= 0x1_0000
    ensures ParseStringBody(EscapeChar(c) + rest) == AfterChar(c, rest)
  {
    var (hi, lo) := SurrogatePair(c);
    assert EscapeChar(c) == UnitEscape(hi) + UnitEscape(lo);
    Regroup3(UnitEscape(hi), UnitEscape(lo), rest);
    PairEscapeRoundTrip(hi, lo, rest);
    StringBodyStep(UnitEscape(hi) + (UnitEscape(lo) + rest), c, rest);
  }

  /** A surrogate pair written as two `\u` escapes. */
  lemma {:induction false} PairEscapeRoundTrip(hi: nat, lo: nat, rest: string)
    requires IsHighSurrogate(hi) && IsLowSurrogate(lo)
    ensures (UnitEscape(hi) + (UnitEscape(lo) + rest))[0] == '\\'
    ensures ParseEscape((UnitEscape(hi) + (UnitEscape(lo) + rest))[1..]) == Some((CombineSurrogates(hi, lo) as char, rest))
  {
    var afterHi := UnitEscape(lo) + rest;
    UnitEscapeText(hi, afterHi);
    DropHead('u', Hex4(hi) + afterHi);
    Hex4RoundTrip(hi, afterHi);
    LowSurrogateRoundTrip(hi, lo, rest);
  }

  lemma {:induction false} LowSurrogateRoundTrip(hi: nat, lo: nat, rest: string)
    requires IsHighSurrogate(hi) && IsLowSurrogate(lo)
    ensures ParseLowSurrogate(hi, UnitEscape(lo) + rest) == Some((CombineSurrogates(hi, lo) as char, rest))
  {
    var t := UnitEscape(lo) + rest;
    UnitEscapeText(lo, rest);
    DropHead('u', Hex4(lo) + rest);
    assert t[1] == 'u';
    assert t[2..] == t[1..][1..];
    Hex4RoundTrip(lo, rest);
  }

  lemma {:induction false} StringRoundTrip(s: string, rest: string)
    ensures ParseStringBody(EscapeString(s) + "\"" + rest) == Some((s, rest))
    decreases |s|
  {
    if s == [] {
      assert EscapeString(s) == [];
      assert EscapeString(s) + "\"" + rest == ['"'] + rest;
      DropHead('"', rest);
    } else {
      var e, es := EscapeChar(s[0]), EscapeString(s[1..]);
      assert EscapeString(s) == e + es;
      RegroupHead(e, es, "\"", rest);
      EscapeCharRoundTrip(s[0], es + "\"" + rest);
      StringRoundTrip(s[1..], rest);
      assert [s[0]] + s[1..] == s;
    }
  }

  lemma {:induction false} DumpStringRoundTrip(s: string, rest: string)
    ensures (DumpString(s) + rest)[0] == '"'
    ensures ParseStringBody((DumpString(s) + rest)[1..]) == Some((s, rest))
  {
    var es := EscapeString(s);
    assert DumpString(s) == ['"'] + es + "\"";
    Regroup4(['"'], es, "\"", rest);
    DropHead('"', es + ("\"" + rest));
    Regroup3(es, "\"", rest);
    StringRoundTrip(s, rest);
  }

  lemma {:induction false} ScalarRoundTrip(v: Scalar, rest: string)
    ensures ParseScalar(DumpScalar(v) + rest) == Some((v, rest))
  {
    match v
    case Str(s) => DumpStringRoundTrip(s, rest);
    case Bool(b) =>
      var word := if b then "true" else "false";
      assert DumpScalar(v) == word;
      var t := word + rest;
      assert t[..|word|] == word;
      DropPrefix(word, rest);
    case Null =>
      var t := "null" + rest;
      assert t[..4] == "null";
      DropPrefix("null", rest);
  }

  lemma SkipNonWhitespace(t: string)
    requires t != [] && !IsWhitespace(t[0])
    ensures SkipWhitespace(t) == t
  {
  }

  lemma SkipOneSpace(t: string)
    requires t != [] && !IsWhitespace(t[0])
    ensures SkipWhitespace([' '] + t) == t
  {
    DropHead(' ', t);
  }

  /** The separator `x` followed by one space and then `t`. */
  lemma SeparatorText(x: char, t: string)
    requires t != [] && !IsWhitespace(t[0])
    ensures ([x, ' '] + t)[0] == x
    ensures SkipWhitespace(([x, ' '] + t)[1..]) == t
  {
    assert [x, ' '] + t == [x] + ([' '] + t);
    DropHead(x, [' '] + t);
    SkipOneSpace(t);
  }

  lemma {:induction false} MemberRoundTrip(m: (string, Scalar), after: string)
    ensures ParseMember(DumpMember(m) + after) == Some((m, after))
  {
    var k, v := DumpString(m.0), DumpScalar(m.1);
    var valueText := v + after;
    assert DumpMember(m) == k + ": " + v;
    Regroup4(k, ": ", v, after);
    DumpStringRoundTrip(m.0, ": " + valueText);
    SeparatorText(':', valueText);
    ScalarRoundTrip(m.1, after);
  }

  /** The last member, followed by the closing brace. */
  lemma {:induction false} LastMemberRoundTrip(m: (string, Scalar), rest: string)
    ensures ParseMembers(DumpMember(m) + (['}'] + rest)) == Some(([m], rest))
  {
    MemberRoundTrip(m, ['}'] + rest);
    DropHead('}', rest);
  }

  /** One member followed by `", "` and further members. */
  lemma {:induction false} MembersStep(m: (string, Scalar), tail: string, more: seq<(string, Scalar)>, rest: string)
    requires tail != [] && tail[0] == '"'
    requires ParseMembers(tail) == Some((more, rest))
    ensures ParseMembers(DumpMember(m) + (", " + tail)) == Some(([m] + more, rest))
  {
    MemberRoundTrip(m, ", " + tail);
    SeparatorText(',', tail);
  }

  lemma {:induction false} MembersRoundTrip(ms: seq<(string, Scalar)>, rest: string)
    requires ms != []
    ensures ParseMembers(DumpMembers(ms) + "}" + rest) == Some((ms, rest))
    decreases |ms|
  {
    if |ms| == 1 {
      OneMemberText(ms, rest);
      LastMemberRoundTrip(ms[0], rest);
      assert ms == [ms[0]];
    } else {
      MembersRoundTrip(ms[1..], rest);
      MembersText(ms, rest);
      MembersStep(ms[0], DumpMembers(ms[1..]) + "}" + rest, ms[1..], rest);
      assert [ms[0]] + ms[1..] == ms;
    }
  }

  lemma OneMemberText(ms: seq<(string, Scalar)>, rest: string)
    requires |ms| == 1
    ensures DumpMembers(ms) + "}" + rest == DumpMember(ms[0]) + (['}'] + rest)
  {
    var a := DumpMember(ms[0]);
    assert DumpMembers(ms) == a;
    Regroup3(a, "}", rest);
  }

  lemma MembersText(ms: seq<(string, Scalar)>, rest: string)
    requires |ms| > 1
    ensures DumpMembers(ms) + "}" + rest == DumpMember(ms[0]) + (", " + (DumpMembers(ms[1..]) + "}" + rest))
  {
    var a, d := DumpMember(ms[0]), DumpMembers(ms[1..]);
    assert DumpMembers(ms) == a + ", " + d;
    Regroup5(a, ", ", d, "}", rest);
  }

  lemma {:induction false} ObjectBodyRoundTrip(ms: seq<(string, Scalar)>)
    ensures ParseObjectBody(DumpMembers(ms) + "}") == Some((ms, ""))
  {
    if ms == [] {
      assert DumpMembers(ms) + "}" == ['}'] + "";
      DropHead('}', "");
    } else {
      var text := DumpMembers(ms) + "}";
      SkipNonWhitespace(text);
      MembersRoundTrip(ms, "");
      assert text + "" == text;
    }
  }

  /** `JSON.parse` reads back every document `json.dumps` writes. */
  lemma {:induction false} DumpParseRoundTrip(d: Document)
    ensures Parse(Dump(d)) == Some(d)
  {
    var text := Dump(d);
    SkipNonWhitespace(text);
    match d
    case Atom(v) =>
      ScalarRoundTrip(v, "");
      assert DumpScalar(v) + "" == text;
    case Object(ms) =>
      var body := DumpMembers(ms) + "}";
      assert text == ['{'] + body;
      DropHead('{', body);
      ObjectBodyRoundTrip(ms);
  }

  // ---------------------------------------------------------------------
  // The encoded text is printable ASCII: json.dumps never writes a raw
  // line break, which is what lets a blank line end an event record.
  // ---------------------------------------------------------------------

  /** An object's text is its members between braces. */
  lemma DumpObjectText(ms: seq<(string, Scalar)>)
    ensures Dump(Object(ms)) == "{" + DumpMembers(ms) + "}"
  {
  }

  lemma PrintableAppend(a: string, b: string)
    requires AllPrintable(a) && AllPrintable(b)
    ensures AllPrintable(a + b)
  {
    forall i | 0 <= i < |a + b| ensures IsPrintableAscii((a + b)[i]) {
      if i >= |a| { assert (a + b)[i] == b[i - |a|]; }
    }
  }

  lemma UnitEscapePrintable(n: nat)
    requires n < 0x1_0000
    ensures AllPrintable(UnitEscape(n))
  {
    var n1 := n / 16;
    var n2 := n1 / 16;
    assert forall d :: 0 <= d < 16 ==> IsPrintableAscii(HexDigits[d]);
    assert AllPrintable(Hex4(n));
    PrintableAppend("\\u", Hex4(n));
  }

  lemma EscapeCharPrintable(c: char)
    ensures AllPrintable(EscapeChar(c))
  {
    match EscapeLetter(c)
    case Some(letter) =>
      assert letter in "\\\"nrtbf";
    case None =>
      if IsPrintableAscii(c) {
      } else if c as int < 0x1_0000 {
        UnitEscapePrintable(c as int);
      } else {
        var (hi, lo) := SurrogatePair(c);
        UnitEscapePrintable(hi);
        UnitEscapePrintable(lo);
        PrintableAppend(UnitEscape(hi), UnitEscape(lo));
      }
  }

  lemma {:induction false} EscapeStringPrintable(s: string)
    ensures AllPrintable(EscapeString(s))
    decreases |s|
  {
    if s != [] {
      EscapeCharPrintable(s[0]);
      EscapeStringPrintable(s[1..]);
      PrintableAppend(EscapeChar(s[0]), EscapeString(s[1..]));
    }
  }

  lemma DumpStringPrintable(s: string)
    ensures AllPrintable(DumpString(s))
  {
    EscapeStringPrintable(s);
    PrintableAppend("\"", EscapeString(s));
    PrintableAppend("\"" + EscapeString(s), "\"");
  }

  lemma DumpScalarPrintable(v: Scalar)
    ensures AllPrintable(DumpScalar(v))
  {
    if v.Str? { DumpStringPrintable(v.s); }
  }

  lemma {:induction false} DumpMembersPrintable(ms: seq<(string, Scalar)>)
    ensures AllPrintable(DumpMembers(ms))
    decreases |ms|
  {
    if ms != [] {
      var m := ms[0];
      DumpStringPrintable(m.0);
      DumpScalarPrintable(m.1);
      PrintableAppend(DumpString(m.0), ": ");
      PrintableAppend(DumpString(m.0) + ": ", DumpScalar(m.1));
      if |ms| > 1 {
        DumpMembersPrintable(ms[1..]);
        PrintableAppend(DumpMember(m), ", ");
        PrintableAppend(DumpMember(m) + ", ", DumpMembers(ms[1..]));
      }
    }
  }

  /** Every character `json.dumps` writes is printable ASCII; in particular
      the text holds no line break. */
  lemma {:induction false} DumpPrintable(d: Document)
    ensures AllPrintable(Dump(d))
    ensures forall i :: 0 <= i < |Dump(d)| ==> Dump(d)[i] != '\n'
  {
    match d
    case Atom(v) => DumpScalarPrintable(v);
    case Object(ms) =>
      DumpMembersPrintable(ms);
      PrintableAppend("{", DumpMembers(ms));
      PrintableAppend("{" + DumpMembers(ms), "}");
  }
}
