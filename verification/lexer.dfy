// The tokenizer shared by the two UI languages: `tokenize` and `read_string` of
// core/protocol/src/ui.rs, and the same functions of core/runtime/src/ui/mod.rs,
// which also know `=` and allow `.` inside identifiers.

module Lexer {
  import opened Prelude
  import opened Uri

  /** Which of the two languages is being read. */
  datatype Dialect = VoidUi | Surface

  datatype Token = Ident(name: string) | Str(value: string) | Equals | LBrace | RBrace

  /** Errors report the byte offset of the character, or of the opening quote. */
  datatype LexError =
    | UnexpectedChar(ch: char, offset: nat)
    | UnterminatedString(start: nat)
    | InvalidEscape(ch: char, start: nat)

  // ---- Characters -------------------------------------------------------

  predicate IsIdentStart(ch: char) {
    'a' <= ch <= 'z' || 'A' <= ch <= 'Z' || ch == '_'
  }

  predicate IsIdentContinue(dialect: Dialect, ch: char) {
    IsAsciiAlphanumeric(ch) || ch == '_' || ch == '-' || (dialect.Surface? && ch == '.')
  }

  /** `char::is_whitespace`: the Unicode White_Space property. */
  predicate IsWhitespace(ch: char) {
    || '\U{0009}' <= ch <= '\U{000D}' || ch == ' ' || ch == '\U{0085}' || ch == '\U{00A0}' || ch == '\U{1680}'
    || '\U{2000}' <= ch <= '\U{200A}' || ch == '\U{2028}' || ch == '\U{2029}' || ch == '\U{202F}'
    || ch == '\U{205F}' || ch == '\U{3000}'
  }

  /** Bytes of a character in UTF-8. */
  function Utf8Width(ch: char): nat {
    if ch < '\U{0080}' then 1 else if ch < '\U{0800}' then 2 else if ch < '\U{10000}' then 3 else 4
  }

  /** The byte offset of a character in the UTF-8 text, as `char_indices` counts it. */
  function ByteOffset(source: string, position: nat): nat
    requires position <= |source|
  {
    if position == 0 then 0 else ByteOffset(source, position - 1) + Utf8Width(source[position - 1])
  }

  function Unescape(ch: char): Option<char> {
    match ch
    case '"' => Some('"')
    case '\\' => Some('\\')
    case 'n' => Some('\n')
    case 't' => Some('\t')
    case _ => None
  }

  // ---- The token list of a text -----------------------------------------

  /** The end of the run of identifier characters that starts at `pos`. */
  function IdentEnd(dialect: Dialect, source: string, pos: nat): (end: nat)
    requires pos <= |source|
    ensures pos <= end <= |source|
    decreases |source| - pos
  {
    if pos == |source| || !IsIdentContinue(dialect, source[pos]) then pos else IdentEnd(dialect, source, pos + 1)
  }

  /** The value of a string literal whose opening quote, at byte `start`, has been
      consumed up to `pos`, and the position after its closing quote. */
  function ReadString(source: string, pos: nat, start: nat): (r: Result<(string, nat), LexError>)
    requires pos <= |source|
    ensures r.Ok? ==> pos < r.value.1 <= |source|
    decreases |source| - pos
  {
    if pos == |source| then Err(UnterminatedString(start))
    else if source[pos] == '"' then Ok(("", pos + 1))
    else if source[pos] == '\\' then
      if pos + 1 == |source| then Err(UnterminatedString(start))
      else
        match Unescape(source[pos + 1])
        case None => Err(InvalidEscape(source[pos + 1], start))
        case Some(ch) => Extend([ch], ReadString(source, pos + 2, start))
    else Extend([source[pos]], ReadString(source, pos + 1, start))
  }

  /** A literal's value, continued from a prefix already read. */
  function Extend(value: string, r: Result<(string, nat), LexError>): Result<(string, nat), LexError> {
    match r
    case Ok((more, end)) => Ok((value + more, end))
    case Err(e) => Err(e)
  }

  lemma ExtendLaws(value: string, more: string, r: Result<(string, nat), LexError>)
    ensures Extend("", r) == r
    ensures Extend(value, Extend(more, r)) == Extend(value + more, r)
  {
    if r.Ok? {
      assert "" + r.value.0 == r.value.0;
      assert value + (more + r.value.0) == value + more + r.value.0;
    }
  }

  /** Puts tokens already read in front of the rest's tokens. */
  function After(tokens: seq<Token>, r: Result<seq<Token>, LexError>): Result<seq<Token>, LexError> {
    match r
    case Ok(more) => Ok(tokens + more)
    case Err(e) => Err(e)
  }

  lemma AfterLaws(a: seq<Token>, b: seq<Token>, r: Result<seq<Token>, LexError>)
    ensures After([], r) == r
    ensures After(a, After(b, r)) == After(a + b, r)
  {
    if r.Ok? {
      assert [] + r.value == r.value;
      assert a + (b + r.value) == a + b + r.value;
    }
  }

  /** One turn of the tokenizer at `pos`: the token read, if any, and the position after it. */
  function LexOne(dialect: Dialect, source: string, pos: nat): (r: Result<(Option<Token>, nat), LexError>)
    requires pos < |source|
    ensures r.Ok? ==> pos < r.value.1 <= |source|
  {
    var ch := source[pos];
    if ch == '{' then Ok((Some(LBrace), pos + 1))
    else if ch == '}' then Ok((Some(RBrace), pos + 1))
    else if ch == '=' && dialect.Surface? then Ok((Some(Equals), pos + 1))
    else if ch == '"' then
      match ReadString(source, pos + 1, ByteOffset(source, pos))
      case Err(e) => Err(e)
      case Ok((value, end)) => Ok((Some(Str(value)), end))
    else if IsWhitespace(ch) then Ok((None, pos + 1))
    else if IsIdentStart(ch) then
      var end := IdentEnd(dialect, source, pos + 1);
      Ok((Some(Ident(source[pos..end])), end))
    else Err(UnexpectedChar(ch, ByteOffset(source, pos)))
  }

  function Listed(t: Option<Token>): seq<Token> {
    if t.Some? then [t.value] else []
  }

  /** The tokens of `source` from `pos` on. */
  function TokensFrom(dialect: Dialect, source: string, pos: nat): Result<seq<Token>, LexError>
    requires pos <= |source|
    decreases |source| - pos
  {
    if pos == |source| then Ok([])
    else
      match LexOne(dialect, source, pos)
      case Err(e) => Err(e)
      case Ok((token, end)) => After(Listed(token), TokensFrom(dialect, source, end))
  }

  // ---- The tokenizer loops ----------------------------------------------

  method ReadStringLoop(source: string, from: nat, start: nat) returns (r: Result<(string, nat), LexError>)
    requires from <= |source|
    ensures r == ReadString(source, from, start)
  {
    var value, pos := "", from;
    ExtendLaws("", "", ReadString(source, from, start));
    while pos < |source|
      invariant from <= pos <= |source|
      invariant ReadString(source, from, start) == Extend(value, ReadString(source, pos, start))
    {
      var ch := source[pos];
      ghost var before := value;
      pos := pos + 1;
      if ch == '"' {
        assert value + "" == value;
        return Ok((value, pos));
      } else if ch == '\\' {
        if pos == |source| {
          return Err(UnterminatedString(start));
        }
        match Unescape(source[pos]) {
          case None =>
            return Err(InvalidEscape(source[pos], start));
          case Some(plain) =>
            value := value + [plain];
            pos := pos + 1;
            ExtendLaws(before, [plain], ReadString(source, pos, start));
        }
      } else {
        value := value + [ch];
        ExtendLaws(before, [ch], ReadString(source, pos, start));
      }
    }
    return Err(UnterminatedString(start));
  }

  method IdentLoop(dialect: Dialect, source: string, from: nat) returns (end: nat)
    requires from <= |source|
    ensures end == IdentEnd(dialect, source, from)
  {
    end := from;
    while end < |source| && IsIdentContinue(dialect, source[end])
      invariant from <= end <= |source|
      invariant IdentEnd(dialect, source, from) == IdentEnd(dialect, source, end)
    {
      end := end + 1;
    }
  }

  method ReadToken(dialect: Dialect, source: string, pos: nat) returns (r: Result<(Option<Token>, nat), LexError>)
    requires pos < |source|
    ensures r == LexOne(dialect, source, pos)
  {
    var ch, offset := source[pos], ByteOffset(source, pos);
    if ch == '{' {
      return Ok((Some(LBrace), pos + 1));
    } else if ch == '}' {
      return Ok((Some(RBrace), pos + 1));
    } else if ch == '=' && dialect.Surface? {
      return Ok((Some(Equals), pos + 1));
    } else if ch == '"' {
      var literal := ReadStringLoop(source, pos + 1, offset);
      if literal.Err? {
        return Err(literal.error);
      }
      return Ok((Some(Str(literal.value.0)), literal.value.1));
    } else if IsWhitespace(ch) {
      return Ok((None, pos + 1));
    } else if IsIdentStart(ch) {
      var end := IdentLoop(dialect, source, pos + 1);
      return Ok((Some(Ident(source[pos..end])), end));
    }
    return Err(UnexpectedChar(ch, offset));
  }

  method Tokenize(dialect: Dialect, source: string) returns (r: Result<seq<Token>, LexError>)
    ensures r == TokensFrom(dialect, source, 0)
  {
    var tokens: seq<Token> := [];
    var pos: nat := 0;
    AfterLaws([], [], TokensFrom(dialect, source, 0));
    while pos < |source|
      invariant pos <= |source|
      invariant TokensFrom(dialect, source, 0) == After(tokens, TokensFrom(dialect, source, pos))
    {
      var step := ReadToken(dialect, source, pos);
      if step.Err? {
        return Err(step.error);
      }
      var (token, end) := step.value;
      AfterLaws(tokens, Listed(token), TokensFrom(dialect, source, end));
      tokens := tokens + Listed(token);
      pos := end;
    }
    assert tokens + [] == tokens;
    return Ok(tokens);
  }

  lemma EndOfText(dialect: Dialect, source: string)
    ensures TokensFrom(dialect, source, |source|) == Ok([])
  {
  }

  // ---- What the tokenizer produces --------------------------------------

  predicate IsIdentifier(dialect: Dialect, name: string) {
    name != "" && IsIdentStart(name[0]) && forall k :: 0 <= k < |name| ==> IsIdentContinue(dialect, name[k])
  }

  /** Identifier tokens are identifiers, and only the surface dialect has `=`. */
  predicate Printable(dialect: Dialect, ts: seq<Token>) {
    forall k :: 0 <= k < |ts| ==> (ts[k].Ident? ==> IsIdentifier(dialect, ts[k].name)) && (ts[k].Equals? ==> dialect.Surface?)
  }

  lemma {:induction false} IdentRun(dialect: Dialect, source: string, pos: nat)
    requires pos <= |source|
    ensures forall k :: pos <= k < IdentEnd(dialect, source, pos) ==> IsIdentContinue(dialect, source[k])
    decreases |source| - pos
  {
    if pos < |source| && IsIdentContinue(dialect, source[pos]) {
      IdentRun(dialect, source, pos + 1);
    }
  }

  lemma LexedTokenPrintable(dialect: Dialect, source: string, pos: nat)
    requires pos < |source| && LexOne(dialect, source, pos).Ok?
    ensures Printable(dialect, Listed(LexOne(dialect, source, pos).value.0))
  {
    IdentRun(dialect, source, pos + 1);
  }

  /** Every lexed token list can be printed. */
  lemma {:induction false} LexedPrintable(dialect: Dialect, source: string, pos: nat)
    requires pos <= |source| && TokensFrom(dialect, source, pos).Ok?
    ensures Printable(dialect, TokensFrom(dialect, source, pos).value)
    decreases |source| - pos
  {
    hide LexOne;
    if pos < |source| {
      LexedTokenPrintable(dialect, source, pos);
      LexedPrintable(dialect, source, LexOne(dialect, source, pos).value.1);
    }
  }
}
