// The lexical grammar of the two UI languages, independent of the tokenizer: a text
// is a sequence of pieces, each a blank, a mark, a word or a quoted string. The
// tokenizer accepts exactly the texts that are so spelled, and returns what their
// pieces denote.

module LexicalGrammar {
  import opened Prelude
  import opened Lexer

  /** A character inside quotes: itself, or a backslash and its escape. */
  datatype Part = Plain(ch: char) | Escaped(ch: char)

  datatype Piece = Blank(ch: char) | Mark(token: Token) | Word(name: string) | Quoted(parts: seq<Part>)

  // ---- Text and meaning -------------------------------------------------

  predicate PartFits(p: Part) {
    match p
    case Plain(ch) => ch != '"' && ch != '\\'
    case Escaped(ch) => Unescape(ch).Some?
  }

  predicate PartsFit(parts: seq<Part>) {
    forall k :: 0 <= k < |parts| ==> PartFits(parts[k])
  }

  function PartText(p: Part): string {
    match p
    case Plain(ch) => [ch]
    case Escaped(ch) => ['\\', ch]
  }

  function PartsText(parts: seq<Part>): string {
    if parts == [] then "" else PartText(parts[0]) + PartsText(parts[1..])
  }

  function PartValue(p: Part): char
    requires PartFits(p)
  {
    match p
    case Plain(ch) => ch
    case Escaped(ch) => Unescape(ch).value
  }

  function PartsValue(parts: seq<Part>): string
    requires PartsFit(parts)
  {
    if parts == [] then "" else [PartValue(parts[0])] + PartsValue(parts[1..])
  }

  predicate PieceFits(dialect: Dialect, p: Piece) {
    match p
    case Blank(ch) => IsWhitespace(ch)
    case Mark(token) => token.LBrace? || token.RBrace? || (token.Equals? && dialect.Surface?)
    case Word(name) => IsIdentifier(dialect, name)
    case Quoted(parts) => PartsFit(parts)
  }

  function MarkText(token: Token): string {
    match token
    case LBrace => "{"
    case RBrace => "}"
    case _ => "="
  }

  function PieceText(p: Piece): string {
    match p
    case Blank(ch) => [ch]
    case Mark(token) => MarkText(token)
    case Word(name) => name
    case Quoted(parts) => "\"" + (PartsText(parts) + "\"")
  }

  function PieceToken(dialect: Dialect, p: Piece): Option<Token>
    requires PieceFits(dialect, p)
  {
    match p
    case Blank(_) => None
    case Mark(token) => Some(token)
    case Word(name) => Some(Ident(name))
    case Quoted(parts) => Some(Str(PartsValue(parts)))
  }

  /** Every piece fits its place; two words never touch. */
  predicate Spelled(dialect: Dialect, pieces: seq<Piece>) {
    && (forall k :: 0 <= k < |pieces| ==> PieceFits(dialect, pieces[k]))
    && (forall k :: 0 <= k < |pieces| - 1 ==> !(pieces[k].Word? && pieces[k + 1].Word?))
  }

  function Text(pieces: seq<Piece>): string {
    if pieces == [] then "" else PieceText(pieces[0]) + Text(pieces[1..])
  }

  function Tokens(dialect: Dialect, pieces: seq<Piece>): seq<Token>
    requires Spelled(dialect, pieces)
  {
    if pieces == [] then [] else Listed(PieceToken(dialect, pieces[0])) + Tokens(dialect, pieces[1..])
  }

  // ---- Parts of a text --------------------------------------------------

  /** `text` stands in `source` at `pos`. */
  predicate At(source: string, pos: nat, text: string) {
    pos + |text| <= |source| && forall k :: 0 <= k < |text| ==> source[pos + k] == text[k]
  }

  lemma AtParts(source: string, pos: nat, a: string, b: string)
    requires At(source, pos, a + b)
    ensures At(source, pos, a) && At(source, pos + |a|, b)
  {
    assert forall k :: 0 <= k < |a| ==> (a + b)[k] == a[k];
    assert forall k :: 0 <= k < |b| ==> (a + b)[|a| + k] == b[k];
  }

  lemma AtChar(source: string, pos: nat, text: string, k: nat)
    requires At(source, pos, text) && k < |text|
    ensures source[pos + k] == text[k]
  {
  }

  // ---- What is spelled is read ------------------------------------------

  lemma PartReads(source: string, pos: nat, p: Part, start: nat)
    requires PartFits(p) && At(source, pos, PartText(p))
    ensures ReadString(source, pos, start) == Extend([PartValue(p)], ReadString(source, pos + |PartText(p)|, start))
  {
    AtChar(source, pos, PartText(p), 0);
    if p.Escaped? {
      AtChar(source, pos, PartText(p), 1);
    }
  }

  lemma {:induction false} PartsRead(source: string, pos: nat, parts: seq<Part>, start: nat)
    requires PartsFit(parts) && At(source, pos, PartsText(parts) + "\"")
    ensures ReadString(source, pos, start) == Ok((PartsValue(parts), pos + |PartsText(parts)| + 1))
    decreases parts
  {
    if parts == [] {
      assert PartsText(parts) + "\"" == "\"";
      AtChar(source, pos, "\"", 0);
    } else {
      var head, tail := PartText(parts[0]), PartsText(parts[1..]) + "\"";
      assert PartsText(parts) + "\"" == head + tail;
      AtParts(source, pos, head, tail);
      PartReads(source, pos, parts[0], start);
      PartsRead(source, pos + |head|, parts[1..], start);
    }
  }

  /** A run of identifier characters ends at `end`. */
  lemma {:induction false} RunEnds(dialect: Dialect, source: string, pos: nat, end: nat)
    requires pos <= end <= |source| && (end < |source| ==> !IsIdentContinue(dialect, source[end]))
    requires forall k :: pos <= k < end ==> IsIdentContinue(dialect, source[k])
    ensures IdentEnd(dialect, source, pos) == end
    decreases end - pos
  {
    if pos < end {
      RunEnds(dialect, source, pos + 1, end);
    }
  }

  lemma WordReads(dialect: Dialect, source: string, pos: nat, name: string)
    requires IsIdentifier(dialect, name) && At(source, pos, name)
    requires var end := pos + |name|; end < |source| ==> !IsIdentContinue(dialect, source[end])
    ensures LexOne(dialect, source, pos) == Ok((Some(Ident(name)), pos + |name|))
  {
    forall k | pos <= k < pos + |name| ensures IsIdentContinue(dialect, source[k]) && source[k] == name[k - pos] {
      AtChar(source, pos, name, k - pos);
    }
    RunEnds(dialect, source, pos + 1, pos + |name|);
    assert source[pos..pos + |name|] == name;
  }

  lemma QuotedReads(dialect: Dialect, source: string, pos: nat, parts: seq<Part>)
    requires PartsFit(parts) && At(source, pos, PieceText(Quoted(parts)))
    ensures LexOne(dialect, source, pos) == Ok((Some(Str(PartsValue(parts))), pos + |PieceText(Quoted(parts))|))
  {
    hide ReadString, ByteOffset, PartsText, PartsValue;
    AtParts(source, pos, "\"", PartsText(parts) + "\"");
    AtChar(source, pos, "\"", 0);
    PartsRead(source, pos + 1, parts, ByteOffset(source, pos));
  }

  lemma PieceReads(dialect: Dialect, source: string, pos: nat, p: Piece)
    requires PieceFits(dialect, p) && At(source, pos, PieceText(p))
    requires var end := pos + |PieceText(p)|; p.Word? && end < |source| ==> !IsIdentContinue(dialect, source[end])
    ensures pos < |source| && LexOne(dialect, source, pos) == Ok((PieceToken(dialect, p), pos + |PieceText(p)|))
  {
    match p
    case Blank(ch) => AtChar(source, pos, [ch], 0);
    case Mark(token) => AtChar(source, pos, MarkText(token), 0);
    case Word(name) => WordReads(dialect, source, pos, name);
    case Quoted(parts) => QuotedReads(dialect, source, pos, parts);
  }

  /** No piece but a word starts with an identifier character. */
  lemma OthersEndWords(dialect: Dialect, p: Piece)
    requires PieceFits(dialect, p) && !p.Word?
    ensures PieceText(p) != "" && !IsIdentContinue(dialect, PieceText(p)[0])
  {
  }

  lemma NextEndsWord(dialect: Dialect, source: string, pos: nat, pieces: seq<Piece>)
    requires Spelled(dialect, pieces) && At(source, pos, Text(pieces)) && pos + |Text(pieces)| == |source|
    requires pieces != [] ==> !pieces[0].Word?
    ensures pos < |source| ==> !IsIdentContinue(dialect, source[pos])
  {
    if pieces != [] {
      OthersEndWords(dialect, pieces[0]);
      AtChar(source, pos, Text(pieces), 0);
    }
  }

  lemma {:induction false} SpelledReads(dialect: Dialect, source: string, pos: nat, pieces: seq<Piece>)
    requires Spelled(dialect, pieces) && At(source, pos, Text(pieces)) && pos + |Text(pieces)| == |source|
    ensures TokensFrom(dialect, source, pos) == Ok(Tokens(dialect, pieces))
    decreases pieces
  {
    hide LexOne, PieceText, PieceFits, At;
    if pieces == [] {
      EndOfText(dialect, source);
    } else {
      var p, rest := pieces[0], pieces[1..];
      AtParts(source, pos, PieceText(p), Text(rest));
      if p.Word? {
        NextEndsWord(dialect, source, pos + |PieceText(p)|, rest);
      }
      PieceReads(dialect, source, pos, p);
      SpelledReads(dialect, source, pos + |PieceText(p)|, rest);
    }
  }

  // ---- What is read is spelled ------------------------------------------

  lemma AtJoin(source: string, pos: nat, a: string, b: string)
    requires At(source, pos, a) && At(source, pos + |a|, b)
    ensures At(source, pos, a + b)
  {
    forall k | 0 <= k < |a + b| ensures source[pos + k] == (a + b)[k] {
      if k >= |a| {
        assert source[pos + |a| + (k - |a|)] == b[k - |a|];
      }
    }
  }

  lemma {:induction false} PartsOf(source: string, pos: nat, start: nat) returns (parts: seq<Part>)
    requires pos <= |source| && ReadString(source, pos, start).Ok?
    ensures PartsFit(parts) && At(source, pos, PartsText(parts) + "\"")
    ensures ReadString(source, pos, start) == Ok((PartsValue(parts), pos + |PartsText(parts)| + 1))
    decreases |source| - pos
  {
    if source[pos] == '"' {
      parts := [];
      assert PartsText(parts) + "\"" == "\"";
    } else {
      var first := if source[pos] == '\\' then Escaped(source[pos + 1]) else Plain(source[pos]);
      var rest := PartsOf(source, pos + |PartText(first)|, start);
      parts := [first] + rest;
      assert parts[1..] == rest;
      AtJoin(source, pos, PartText(first), PartsText(rest) + "\"");
      assert PartText(first) + (PartsText(rest) + "\"") == PartsText(parts) + "\"";
      PartReads(source, pos, first, start);
    }
  }

  lemma PieceOf(dialect: Dialect, source: string, pos: nat) returns (p: Piece)
    requires pos < |source| && LexOne(dialect, source, pos).Ok?
    ensures PieceFits(dialect, p) && At(source, pos, PieceText(p))
    ensures LexOne(dialect, source, pos) == Ok((PieceToken(dialect, p), pos + |PieceText(p)|))
    ensures var end := pos + |PieceText(p)|; p.Word? && end < |source| ==> !IsIdentContinue(dialect, source[end])
  {
    var ch := source[pos];
    if ch == '"' {
      var parts := PartsOf(source, pos + 1, ByteOffset(source, pos));
      p := Quoted(parts);
      AtJoin(source, pos, "\"", PartsText(parts) + "\"");
    } else if ch == '{' {
      p := Mark(LBrace);
    } else if ch == '}' {
      p := Mark(RBrace);
    } else if ch == '=' && dialect.Surface? {
      p := Mark(Equals);
    } else if IsWhitespace(ch) {
      p := Blank(ch);
    } else {
      p := WordOf(dialect, source, pos);
    }
  }

  lemma WordOf(dialect: Dialect, source: string, pos: nat) returns (p: Piece)
    requires pos < |source| && IsIdentStart(source[pos])
    ensures p.Word? && IsIdentifier(dialect, p.name) && At(source, pos, p.name)
    ensures LexOne(dialect, source, pos) == Ok((Some(Ident(p.name)), pos + |p.name|))
    ensures var end := pos + |p.name|; end < |source| ==> !IsIdentContinue(dialect, source[end])
  {
    p := Word(source[pos..IdentEnd(dialect, source, pos + 1)]);
    IdentRun(dialect, source, pos + 1);
    RunStops(dialect, source, pos + 1);
  }

  lemma {:induction false} RunStops(dialect: Dialect, source: string, pos: nat)
    requires pos <= |source|
    ensures var end := IdentEnd(dialect, source, pos); end < |source| ==> !IsIdentContinue(dialect, source[end])
    decreases |source| - pos
  {
    if pos < |source| && IsIdentContinue(dialect, source[pos]) {
      RunStops(dialect, source, pos + 1);
    }
  }

  lemma FirstIsNoWord(dialect: Dialect, source: string, pos: nat, pieces: seq<Piece>)
    requires Spelled(dialect, pieces) && At(source, pos, Text(pieces))
    requires pos < |source| ==> !IsIdentContinue(dialect, source[pos])
    ensures pieces != [] ==> !pieces[0].Word?
  {
    if pieces != [] && pieces[0].Word? {
      AtChar(source, pos, Text(pieces), 0);
    }
  }

  lemma SpelledCons(dialect: Dialect, p: Piece, rest: seq<Piece>)
    requires PieceFits(dialect, p) && Spelled(dialect, rest) && (p.Word? && rest != [] ==> !rest[0].Word?)
    ensures Spelled(dialect, [p] + rest)
    ensures Text([p] + rest) == PieceText(p) + Text(rest)
    ensures Tokens(dialect, [p] + rest) == Listed(PieceToken(dialect, p)) + Tokens(dialect, rest)
  {
    assert ([p] + rest)[1..] == rest;
    forall k | 0 <= k < |[p] + rest| - 1 ensures !(([p] + rest)[k].Word? && ([p] + rest)[k + 1].Word?) {
      if k > 0 {
        assert ([p] + rest)[k] == rest[k - 1] && ([p] + rest)[k + 1] == rest[k];
      }
    }
  }

  lemma {:induction false} PiecesOf(dialect: Dialect, source: string, pos: nat) returns (pieces: seq<Piece>)
    requires pos <= |source| && TokensFrom(dialect, source, pos).Ok?
    ensures Spelled(dialect, pieces) && At(source, pos, Text(pieces)) && pos + |Text(pieces)| == |source|
    ensures TokensFrom(dialect, source, pos) == Ok(Tokens(dialect, pieces))
    decreases |source| - pos
  {
    hide LexOne, PieceText, PieceFits, At, Spelled;
    if pos == |source| {
      pieces := [];
      NothingSpelled(dialect, source, pos);
    } else {
      var p := PieceOf(dialect, source, pos);
      var end := pos + |PieceText(p)|;
      var rest := PiecesOf(dialect, source, end);
      if p.Word? {
        FirstIsNoWord(dialect, source, end, rest);
      }
      pieces := [p] + rest;
      SpelledCons(dialect, p, rest);
      AtJoin(source, pos, PieceText(p), Text(rest));
    }
  }

  lemma NothingSpelled(dialect: Dialect, source: string, pos: nat)
    requires pos == |source|
    ensures Spelled(dialect, []) && At(source, pos, Text([])) && Tokens(dialect, []) == []
  {
  }

  /** The tokenizer is exact: it returns a token list for a text precisely when some
      spelling of that text denotes those tokens. */
  lemma TokenizerIsExact(dialect: Dialect, source: string, tokens: seq<Token>)
    ensures TokensFrom(dialect, source, 0) == Ok(tokens)
       <==> exists pieces :: Spelled(dialect, pieces) && Text(pieces) == source && Tokens(dialect, pieces) == tokens
  {
    if TokensFrom(dialect, source, 0) == Ok(tokens) {
      var pieces := PiecesOf(dialect, source, 0);
      assert Text(pieces) == source;
    }
    if exists pieces :: Spelled(dialect, pieces) && Text(pieces) == source && Tokens(dialect, pieces) == tokens {
      var pieces :| Spelled(dialect, pieces) && Text(pieces) == source && Tokens(dialect, pieces) == tokens;
      SpelledReads(dialect, source, 0, pieces);
    }
  }

  // ---- Printing ---------------------------------------------------------

  function EscapePart(ch: char): Part {
    match ch
    case '"' => Escaped('"')
    case '\\' => Escaped('\\')
    case '\n' => Escaped('n')
    case '\t' => Escaped('t')
    case _ => Plain(ch)
  }

  function EscapeParts(s: string): seq<Part> {
    if s == "" then [] else [EscapePart(s[0])] + EscapeParts(s[1..])
  }

  function PieceFor(t: Token): Piece {
    match t
    case Ident(name) => Word(name)
    case Str(value) => Quoted(EscapeParts(value))
    case _ => Mark(t)
  }

  /** Every token, escaped, followed by a space. */
  function SpellingOf(ts: seq<Token>): seq<Piece> {
    if ts == [] then [] else [PieceFor(ts[0]), Blank(' ')] + SpellingOf(ts[1..])
  }

  function Print(ts: seq<Token>): string {
    Text(SpellingOf(ts))
  }

  /** Escaping is undone by reading. */
  lemma {:induction false} EscapeMeans(s: string)
    ensures PartsFit(EscapeParts(s)) && PartsValue(EscapeParts(s)) == s
  {
    if s != "" {
      EscapeMeans(s[1..]);
      assert EscapeParts(s)[1..] == EscapeParts(s[1..]);
      assert s == [s[0]] + s[1..];
    }
  }

  lemma TokenMeans(dialect: Dialect, t: Token)
    requires Printable(dialect, [t])
    ensures PieceFits(dialect, PieceFor(t)) && PieceToken(dialect, PieceFor(t)) == Some(t)
    ensures PieceFits(dialect, Blank(' '))
  {
    assert [t][0] == t;
    if t.Str? {
      EscapeMeans(t.value);
    }
  }

  lemma TokenThenBlank(dialect: Dialect, t: Token, rest: seq<Piece>)
    requires Printable(dialect, [t]) && Spelled(dialect, rest)
    ensures Spelled(dialect, [PieceFor(t), Blank(' ')] + rest)
    ensures Tokens(dialect, [PieceFor(t), Blank(' ')] + rest) == [t] + Tokens(dialect, rest)
  {
    hide PieceFits, PieceToken, PieceFor, Spelled, Tokens;
    var blank := Blank(' ');
    TokenMeans(dialect, t);
    BlankDenotesNothing(dialect, ' ');
    SpelledCons(dialect, blank, rest);
    SpelledCons(dialect, PieceFor(t), [blank] + rest);
    assert [PieceFor(t), blank] + rest == [PieceFor(t)] + ([blank] + rest);
  }

  lemma {:induction false} SpellingMeans(dialect: Dialect, ts: seq<Token>)
    requires Printable(dialect, ts)
    ensures Spelled(dialect, SpellingOf(ts)) && Tokens(dialect, SpellingOf(ts)) == ts
    decreases ts
  {
    hide PieceFor, Spelled, Tokens;
    if ts == [] {
      NothingSpelled(dialect, "", 0);
    } else {
      SpellingMeans(dialect, ts[1..]);
      TokenThenBlank(dialect, ts[0], SpellingOf(ts[1..]));
      assert ts == [ts[0]] + ts[1..];
    }
  }

  lemma BlankDenotesNothing(dialect: Dialect, ch: char)
    requires PieceFits(dialect, Blank(ch))
    ensures PieceToken(dialect, Blank(ch)) == None
  {
  }

  /** Tokenizing the printed text of a token list gives the list back. */
  lemma PrintReadsBack(dialect: Dialect, ts: seq<Token>)
    requires Printable(dialect, ts)
    ensures TokensFrom(dialect, Print(ts), 0) == Ok(ts)
  {
    SpellingMeans(dialect, ts);
    SpelledReads(dialect, Print(ts), 0, SpellingOf(ts));
  }
}
