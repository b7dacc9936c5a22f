// Reading a token list: the primitive steps both recursive-descent parsers share,
// as functions of the tokens and a position, and as a class that advances its
// position (`Parser` in core/protocol/src/ui.rs and core/runtime/src/ui/mod.rs).

module TokenStream {
  import opened Prelude
  import opened Uri
  import opened Lexer

  datatype UiError =
    | Lexical(lex: LexError)
    | UnexpectedEof
    | UnexpectedToken(token: Token)
    | ExpectedIdent(expected: string, actual: string)
    | UnknownNode(name: string)
    | UnknownProperty(name: string)
    | MissingProperty(name: string)
    | InvalidBool(text: string)
    | InvalidAction(uri: UriError)

  /** A parse step: its value and the position after it. */
  type Parsed<+T> = Result<(T, nat), UiError>

  // ---- Single tokens ----------------------------------------------------

  function Next(tokens: seq<Token>, pos: nat): Parsed<Token> {
    if pos < |tokens| then Ok((tokens[pos], pos + 1)) else Err(UnexpectedEof)
  }

  function NextIdent(tokens: seq<Token>, pos: nat): Parsed<string> {
    var (token, end) :- Next(tokens, pos);
    if token.Ident? then Ok((token.name, end)) else Err(UnexpectedToken(token))
  }

  function NextString(tokens: seq<Token>, pos: nat): Parsed<string> {
    var (token, end) :- Next(tokens, pos);
    if token.Str? then Ok((token.value, end)) else Err(UnexpectedToken(token))
  }

  function Expect(tokens: seq<Token>, pos: nat, expected: Token): Parsed<()> {
    var (token, end) :- Next(tokens, pos);
    if token == expected then Ok(((), end)) else Err(UnexpectedToken(token))
  }

  function ExpectIdent(tokens: seq<Token>, pos: nat, expected: string): Parsed<()> {
    var (actual, end) :- NextIdent(tokens, pos);
    if actual == expected then Ok(((), end)) else Err(ExpectedIdent(expected, actual))
  }

  /** `part` stands in `tokens` at `pos`. */
  predicate Stands(tokens: seq<Token>, pos: nat, part: seq<Token>) {
    pos + |part| <= |tokens| && forall k :: 0 <= k < |part| ==> tokens[pos + k] == part[k]
  }

  predicate AtRBrace(tokens: seq<Token>, pos: nat) {
    pos < |tokens| && tokens[pos] == RBrace
  }

  /** A method's result and final position are those of the parse step. */
  predicate Follows<T(==)>(r: Result<T, UiError>, position: nat, spec: Parsed<T>) {
    match spec
    case Ok((value, end)) => r == Ok(value) && position == end
    case Err(e) => r == Err(e)
  }

  function ToOption<T>(r: Result<T, UiError>): Option<T> {
    if r.Ok? then Some(r.value) else None
  }

  class Parser {
    const tokens: seq<Token>
    var position: nat

    constructor (tokens: seq<Token>)
      ensures this.tokens == tokens && position == 0
    {
      this.tokens := tokens;
      position := 0;
    }

    method NextToken() returns (r: Result<Token, UiError>)
      requires position <= |tokens|
      modifies this
      ensures old(position) <= position <= |tokens|
      ensures Follows(r, position, Next(tokens, old(position)))
    {
      if position == |tokens| {
        return Err(UnexpectedEof);
      }
      position := position + 1;
      return Ok(tokens[position - 1]);
    }

    method TakeIdent() returns (r: Result<string, UiError>)
      requires position <= |tokens|
      modifies this
      ensures old(position) <= position <= |tokens|
      ensures r.Ok? ==> old(position) < position
      ensures Follows(r, position, NextIdent(tokens, old(position)))
    {
      var token :- NextToken();
      r := if token.Ident? then Ok(token.name) else Err(UnexpectedToken(token));
    }

    method TakeString() returns (r: Result<string, UiError>)
      requires position <= |tokens|
      modifies this
      ensures old(position) <= position <= |tokens|
      ensures r.Ok? ==> old(position) < position
      ensures Follows(r, position, NextString(tokens, old(position)))
    {
      var token :- NextToken();
      r := if token.Str? then Ok(token.value) else Err(UnexpectedToken(token));
    }

    method ExpectToken(expected: Token) returns (r: Result<(), UiError>)
      requires position <= |tokens|
      modifies this
      ensures old(position) <= position <= |tokens|
      ensures r.Ok? ==> old(position) < position
      ensures Follows(r, position, Expect(tokens, old(position), expected))
    {
      var token :- NextToken();
      r := if token == expected then Ok(()) else Err(UnexpectedToken(token));
    }

    method ExpectWord(expected: string) returns (r: Result<(), UiError>)
      requires position <= |tokens|
      modifies this
      ensures old(position) <= position <= |tokens|
      ensures Follows(r, position, ExpectIdent(tokens, old(position), expected))
    {
      var actual :- TakeIdent();
      r := if actual == expected then Ok(()) else Err(ExpectedIdent(expected, actual));
    }
  }

  // ---- Parts of a token list -----------------------------------------------

  lemma StandsParts(tokens: seq<Token>, pos: nat, a: seq<Token>, b: seq<Token>)
    ensures Stands(tokens, pos, a + b) <==> Stands(tokens, pos, a) && Stands(tokens, pos + |a|, b)
  {
    assert forall k :: 0 <= k < |a| ==> (a + b)[k] == a[k];
    assert forall k :: 0 <= k < |b| ==> (a + b)[|a| + k] == b[k];
    if Stands(tokens, pos, a) && Stands(tokens, pos + |a|, b) {
      forall k | 0 <= k < |a + b| ensures tokens[pos + k] == (a + b)[k] {
        if k >= |a| {
          assert tokens[pos + |a| + (k - |a|)] == b[k - |a|];
        }
      }
    }
  }

  /** A body in braces: the opening brace, the inside, and the closing brace. */
  lemma BracesStand(tokens: seq<Token>, pos: nat, inside: seq<Token>)
    requires Stands(tokens, pos, [LBrace] + inside + [RBrace])
    ensures Expect(tokens, pos, LBrace) == Ok(((), pos + 1))
    ensures Stands(tokens, pos + 1, inside) && AtRBrace(tokens, pos + 1 + |inside|)
  {
    StandsParts(tokens, pos, [LBrace] + inside, [RBrace]);
    StandsParts(tokens, pos, [LBrace], inside);
    assert tokens[pos + 0] == [LBrace][0];
    assert tokens[pos + 1 + |inside| + 0] == [RBrace][0];
  }

  lemma BracesJoin(tokens: seq<Token>, pos: nat, inside: seq<Token>)
    requires pos < |tokens| && tokens[pos] == LBrace
    requires Stands(tokens, pos + 1, inside) && AtRBrace(tokens, pos + 1 + |inside|)
    ensures Stands(tokens, pos, [LBrace] + inside + [RBrace])
  {
    StandsParts(tokens, pos, [LBrace], inside);
    StandsParts(tokens, pos, [LBrace] + inside, [RBrace]);
  }
}
