// The characters of the two UI languages, written out: which of them only separate
// tokens, which runs of them are one word, which escapes a quoted string knows, and
// what the byte offsets in error messages count (core/protocol/src/ui.rs,
// core/runtime/src/ui/mod.rs).

module Characters {
  import opened Prelude
  import opened Lexer
  import opened LexicalGrammar

  // ---- Separators -------------------------------------------------------

  /** Space, tab, line feed and carriage return: what text files are laid out with. */
  predicate IsLayout(ch: char) {
    ch in [' ', '\t', '\n', '\r']
  }

  /** The 25 code points with the Unicode property White_Space. */
  const WHITE_SPACE: seq<char> :=
    ['\t', '\n', '\U{000B}', '\U{000C}', '\r', ' ', '\U{0085}', '\U{00A0}', '\U{1680}',
     '\U{2000}', '\U{2001}', '\U{2002}', '\U{2003}', '\U{2004}', '\U{2005}', '\U{2006}', '\U{2007}', '\U{2008}', '\U{2009}', '\U{200A}',
     '\U{2028}', '\U{2029}', '\U{202F}', '\U{205F}', '\U{3000}']

  /** A character alone separates tokens exactly when it is white space. */
  lemma SeparatesIff(dialect: Dialect, source: string, pos: nat)
    requires pos < |source|
    ensures LexOne(dialect, source, pos) == Ok((None, pos + 1)) <==> source[pos] in WHITE_SPACE
  {
    hide ReadString, ByteOffset, IdentEnd;
    BlankIff(source[pos]);
  }

  lemma BlankIff(ch: char)
    ensures IsWhitespace(ch) <==> ch in WHITE_SPACE
  {
    var w := WHITE_SPACE;
    assert w[0] == '\t' && w[1] == '\n' && w[2] == '\U{000B}' && w[3] == '\U{000C}' && w[4] == '\r' && w[5] == ' ';
    assert w[6] == '\U{0085}' && w[7] == '\U{00A0}' && w[8] == '\U{1680}';
    assert w[9] == '\U{2000}' && w[10] == '\U{2001}' && w[11] == '\U{2002}' && w[12] == '\U{2003}' && w[13] == '\U{2004}';
    assert w[14] == '\U{2005}' && w[15] == '\U{2006}' && w[16] == '\U{2007}' && w[17] == '\U{2008}' && w[18] == '\U{2009}';
    assert w[19] == '\U{200A}' && w[20] == '\U{2028}' && w[21] == '\U{2029}' && w[22] == '\U{202F}' && w[23] == '\U{205F}';
    assert w[24] == '\U{3000}';
  }

  /** A layout character, wherever a token may start, is skipped and leaves no trace. */
  lemma LayoutIsSkipped(dialect: Dialect, source: string, pos: nat)
    requires pos < |source| && IsLayout(source[pos])
    ensures TokensFrom(dialect, source, pos) == TokensFrom(dialect, source, pos + 1)
  {
    hide ReadString, ByteOffset, IdentEnd;
    AfterLaws([], [], TokensFrom(dialect, source, pos + 1));
  }

  /** The pieces other than blanks. */
  function Solid(pieces: seq<Piece>): seq<Piece> {
    if pieces == [] then []
    else (if pieces[0].Blank? then [] else [pieces[0]]) + Solid(pieces[1..])
  }

  /** Pieces of which the blanks are layout characters, and in which words never touch. */
  predicate LaidOut(dialect: Dialect, pieces: seq<Piece>) {
    && (forall k :: 0 <= k < |pieces| ==> if pieces[k].Blank? then IsLayout(pieces[k].ch) else PieceFits(dialect, pieces[k]))
    && (forall k :: 0 <= k < |pieces| - 1 ==> !(pieces[k].Word? && pieces[k + 1].Word?))
  }

  function SolidTokens(dialect: Dialect, pieces: seq<Piece>): seq<Token>
    requires forall k :: 0 <= k < |pieces| ==> PieceFits(dialect, pieces[k])
  {
    if pieces == [] then [] else Listed(PieceToken(dialect, pieces[0])) + SolidTokens(dialect, pieces[1..])
  }

  lemma {:induction false} SolidFits(dialect: Dialect, pieces: seq<Piece>)
    requires Spelled(dialect, pieces)
    ensures forall k :: 0 <= k < |Solid(pieces)| ==> PieceFits(dialect, Solid(pieces)[k])
    decreases pieces
  {
    if pieces != [] {
      SolidFits(dialect, pieces[1..]);
    }
  }

  lemma {:induction false} OnlySolidDenotes(dialect: Dialect, pieces: seq<Piece>)
    requires Spelled(dialect, pieces)
    ensures (forall k :: 0 <= k < |Solid(pieces)| ==> PieceFits(dialect, Solid(pieces)[k]))
    ensures Tokens(dialect, pieces) == SolidTokens(dialect, Solid(pieces))
    decreases pieces
  {
    hide PieceFits, PieceToken;
    SolidFits(dialect, pieces);
    if pieces != [] {
      OnlySolidDenotes(dialect, pieces[1..]);
      var rest := Solid(pieces[1..]);
      if pieces[0].Blank? {
        BlankDenotesNothing(dialect, pieces[0].ch);
        assert Solid(pieces) == rest && [] + Tokens(dialect, pieces[1..]) == Tokens(dialect, pieces[1..]);
      } else {
        assert Solid(pieces) == [pieces[0]] + rest && Solid(pieces)[1..] == rest;
      }
    }
  }

  lemma LaidOutIsSpelled(dialect: Dialect, pieces: seq<Piece>)
    requires LaidOut(dialect, pieces)
    ensures Spelled(dialect, pieces)
  {
  }

  /** Layout is free: texts with the same words, marks and strings have the same tokens,
      however many spaces, tabs and line breaks of whatever kind stand between them. */
  lemma LayoutIsFree(dialect: Dialect, p: seq<Piece>, q: seq<Piece>)
    requires LaidOut(dialect, p) && LaidOut(dialect, q) && Solid(p) == Solid(q)
    ensures TokensFrom(dialect, Text(p), 0).Ok? && TokensFrom(dialect, Text(p), 0) == TokensFrom(dialect, Text(q), 0)
  {
    LaidOutIsSpelled(dialect, p);
    LaidOutIsSpelled(dialect, q);
    OnlySolidDenotes(dialect, p);
    OnlySolidDenotes(dialect, q);
    SpelledReads(dialect, Text(p), 0, p);
    SpelledReads(dialect, Text(q), 0, q);
  }

  // ---- Words ------------------------------------------------------------

  predicate IsLetter(ch: char) {
    'A' <= ch <= 'Z' || 'a' <= ch <= 'z'
  }

  /** A letter or `_`, then letters, digits, `_` and `-`; in surfaces also `.`. */
  predicate IsWord(dialect: Dialect, name: string) {
    && name != "" && (IsLetter(name[0]) || name[0] == '_')
    && forall k :: 0 <= k < |name| ==>
         IsLetter(name[k]) || '0' <= name[k] <= '9' || name[k] == '_' || name[k] == '-' || (dialect == Surface && name[k] == '.')
  }

  /** A text is one word exactly when it is spelled so. */
  lemma OneWordIff(dialect: Dialect, name: string)
    ensures TokensFrom(dialect, name, 0) == Ok([Ident(name)]) <==> IsWord(dialect, name)
  {
    if IsWord(dialect, name) {
      assert IsIdentifier(dialect, name);
      WordReads(dialect, name, 0, name);
      EndOfText(dialect, name);
      assert [Ident(name)] + [] == [Ident(name)];
    }
    if TokensFrom(dialect, name, 0) == Ok([Ident(name)]) {
      LexedPrintable(dialect, name, 0);
      assert [Ident(name)][0] == Ident(name);
      assert IsIdentifier(dialect, name);
    }
  }

  /** The whole run is taken: a word, wherever a token may start, that no further word
      character follows, is read as one token. */
  lemma WordIsOneToken(dialect: Dialect, source: string, pos: nat, name: string)
    requires At(source, pos, name) && IsWord(dialect, name)
    requires var end := pos + |name|; end < |source| ==> !IsWord(dialect, name + [source[end]])
    ensures TokensFrom(dialect, source, pos) == After([Ident(name)], TokensFrom(dialect, source, pos + |name|))
  {
    hide TokensFrom;
    var end := pos + |name|;
    if end < |source| && IsIdentContinue(dialect, source[end]) {
      LongerWord(dialect, name, source[end]);
      assert false;
    }
    WordIsIdentifier(dialect, name);
    WordReads(dialect, source, pos, name);
    OneTurn(dialect, source, pos);
  }

  lemma WordIsIdentifier(dialect: Dialect, name: string)
    requires IsWord(dialect, name)
    ensures IsIdentifier(dialect, name)
  {
  }

  lemma LongerWord(dialect: Dialect, name: string, ch: char)
    requires IsWord(dialect, name) && IsIdentContinue(dialect, ch)
    ensures IsWord(dialect, name + [ch])
  {
  }

  lemma OneTurn(dialect: Dialect, source: string, pos: nat)
    requires pos < |source| && LexOne(dialect, source, pos).Ok?
    ensures var (token, end) := LexOne(dialect, source, pos).value;
            TokensFrom(dialect, source, pos) == After(Listed(token), TokensFrom(dialect, source, end))
  {
    hide LexOne;
  }

  // ---- Escapes ----------------------------------------------------------

  /** What a backslash and `ch` stand for. */
  function EscapeOf(ch: char): Option<char> {
    if ch == 'n' then Some('\n') else if ch == 't' then Some('\t')
    else if ch == '"' || ch == '\\' then Some(ch) else None
  }

  /** Inside quotes a backslash makes exactly four escapes, and anything else after it is
      an error at the opening quote. */
  lemma EscapesAre(dialect: Dialect, ch: char)
    ensures TokensFrom(dialect, ['"', '\\', ch, '"'], 0)
         == (if EscapeOf(ch).Some? then Ok([Str([EscapeOf(ch).value])]) else Err(InvalidEscape(ch, 0)))
  {
    var source := ['"', '\\', ch, '"'];
    assert ReadString(source, 3, 0) == Ok(("", 4));
    assert ByteOffset(source, 0) == 0;
    if EscapeOf(ch).Some? {
      var plain := EscapeOf(ch).value;
      assert [plain] + "" == [plain];
      assert ReadString(source, 1, 0) == Ok(([plain], 4));
      EndOfText(dialect, source);
      assert Listed(Some(Str([plain]))) + [] == [Str([plain])];
    }
  }

  // ---- Byte offsets -----------------------------------------------------

  /** The UTF-8 encoding of a character, by the table of section 3 of RFC 3629. */
  function Utf8(ch: char): seq<nat> {
    var c := ch as int;
    if c <= 0x7F then [c]
    else if c <= 0x7FF then [0xC0 + c / 0x40, 0x80 + c % 0x40]
    else if c <= 0xFFFF then [0xE0 + c / 0x1000, 0x80 + c / 0x40 % 0x40, 0x80 + c % 0x40]
    else [0xF0 + c / 0x4_0000, 0x80 + c / 0x1000 % 0x40, 0x80 + c / 0x40 % 0x40, 0x80 + c % 0x40]
  }

  function Encoded(source: string): seq<nat> {
    if source == "" then [] else Encoded(source[..|source| - 1]) + Utf8(source[|source| - 1])
  }

  /** An offset is the number of bytes that encode the text before the character. */
  lemma {:induction false} OffsetIsEncodedLength(source: string, pos: nat)
    requires pos <= |source|
    ensures ByteOffset(source, pos) == |Encoded(source[..pos])|
    decreases pos
  {
    if pos > 0 {
      OffsetIsEncodedLength(source, pos - 1);
      assert source[..pos][..pos - 1] == source[..pos - 1];
    }
  }

  /** A rejected text: the reported character stands where the offset says, at a place
      where a token may start, and it can start none; or the offset is that of a quote. */
  predicate Blames(dialect: Dialect, source: string, pos: nat, e: LexError) {
    && pos < |source|
    && match e
       case UnexpectedChar(ch, offset) =>
         && source[pos] == ch && offset == |Encoded(source[..pos])|
         && ch !in WHITE_SPACE && ch !in ['{', '}', '"', '_'] && !IsLetter(ch) && !(dialect == Surface && ch == '=')
       case UnterminatedString(start) => source[pos] == '"' && start == |Encoded(source[..pos])|
       case InvalidEscape(ch, start) =>
         && source[pos] == '"' && start == |Encoded(source[..pos])| && EscapeOf(ch).None?
  }

  lemma {:induction false} StringError(source: string, pos: nat, start: nat)
    requires pos <= |source| && ReadString(source, pos, start).Err?
    ensures var e := ReadString(source, pos, start).error;
            e == UnterminatedString(start) || (e.InvalidEscape? && e.start == start && EscapeOf(e.ch).None?)
    decreases |source| - pos
  {
    if pos < |source| && source[pos] == '\\' && pos + 1 < |source| {
      if Unescape(source[pos + 1]).Some? {
        StringError(source, pos + 2, start);
      }
    } else if pos < |source| {
      StringError(source, pos + 1, start);
    }
  }

  lemma TokenError(dialect: Dialect, source: string, pos: nat)
    requires pos < |source| && LexOne(dialect, source, pos).Err?
    ensures Blames(dialect, source, pos, LexOne(dialect, source, pos).error)
  {
    hide ReadString, ByteOffset, WHITE_SPACE, Encoded;
    OffsetIsEncodedLength(source, pos);
    BlankIff(source[pos]);
    if source[pos] == '"' {
      StringError(source, pos + 1, ByteOffset(source, pos));
    }
  }

  /** Errors point at what is wrong, wherever in the text reading started. */
  lemma {:induction false} ErrorsPoint(dialect: Dialect, source: string, from: nat) returns (pos: nat)
    requires from <= |source| && TokensFrom(dialect, source, from).Err?
    ensures from <= pos && Blames(dialect, source, pos, TokensFrom(dialect, source, from).error)
    decreases |source| - from
  {
    hide LexOne, Blames;
    match LexOne(dialect, source, from)
    case Err(_) =>
      TokenError(dialect, source, from);
      pos := from;
    case Ok((_, end)) =>
      pos := ErrorsPoint(dialect, source, end);
  }
}
