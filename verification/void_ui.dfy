// VOID UI documents (core/protocol/src/ui.rs): the recursive-descent parser as a
// function of the token list and the position, and the same parser as methods
// that advance a parser's position.

module VoidUi {
  import opened Prelude
  import opened Uri
  import opened Lexer
  import opened TokenStream

  datatype Kind = Column | Row | Panel | List | Item

  /** The source's five container variants share one shape here. */
  datatype Node =
    | Box(kind: Kind, children: seq<Node>)
    | Text(text: string)
    | Button(caption: string, action: VoidUri)
    | Input(id: string, placeholder: Option<string>, secure: bool)

  datatype Page = Page(title: Option<string>, children: seq<Node>)

  function NextBool(tokens: seq<Token>, pos: nat): Parsed<bool> {
    var (word, end) :- NextIdent(tokens, pos);
    if word == "true" then Ok((true, end))
    else if word == "false" then Ok((false, end))
    else Err(InvalidBool(word))
  }

  // ---- Nodes ------------------------------------------------------------

  function KindNamed(word: string): Option<Kind> {
    if word == "column" then Some(Column)
    else if word == "row" then Some(Row)
    else if word == "panel" then Some(Panel)
    else if word == "list" then Some(List)
    else if word == "item" then Some(Item)
    else None
  }

  function ParseButtonProps(tokens: seq<Token>, pos: nat, caption: Option<string>, action: Option<string>)
    : (r: Parsed<(Option<string>, Option<string>)>)
    requires pos <= |tokens|
    ensures r.Ok? ==> pos < r.value.1 <= |tokens|
    decreases |tokens| - pos
  {
    if AtRBrace(tokens, pos) then Ok(((caption, action), pos + 1))
    else
      var (word, p) :- NextIdent(tokens, pos);
      if word == "label" then
        var (s, end) :- NextString(tokens, p);
        ParseButtonProps(tokens, end, Some(s), action)
      else if word == "action" then
        var (s, end) :- NextString(tokens, p);
        ParseButtonProps(tokens, end, caption, Some(s))
      else Err(UnknownProperty(word))
  }

  function MakeButton(caption: Option<string>, action: Option<string>): Result<Node, UiError> {
    if caption.None? then Err(MissingProperty("label"))
    else if action.None? then Err(MissingProperty("action"))
    else
      match FromStr(action.value)
      case Err(e) => Err(InvalidAction(e))
      case Ok(uri) => Ok(Button(caption.value, uri))
  }

  datatype InputState = InputState(id: Option<string>, placeholder: Option<string>, secure: bool)

  function ParseInputProps(tokens: seq<Token>, pos: nat, st: InputState): (r: Parsed<InputState>)
    requires pos <= |tokens|
    ensures r.Ok? ==> pos < r.value.1 <= |tokens|
    decreases |tokens| - pos
  {
    if AtRBrace(tokens, pos) then Ok((st, pos + 1))
    else
      var (word, p) :- NextIdent(tokens, pos);
      if word == "id" then
        var (s, end) :- NextString(tokens, p);
        ParseInputProps(tokens, end, st.(id := Some(s)))
      else if word == "placeholder" then
        var (s, end) :- NextString(tokens, p);
        ParseInputProps(tokens, end, st.(placeholder := Some(s)))
      else if word == "secure" then
        var (b, end) :- NextBool(tokens, p);
        ParseInputProps(tokens, end, st.(secure := b))
      else Err(UnknownProperty(word))
  }

  function MakeInput(st: InputState): Result<Node, UiError> {
    if st.id.None? then Err(MissingProperty("id")) else Ok(Input(st.id.value, st.placeholder, st.secure))
  }

  function ParseButton(tokens: seq<Token>, pos: nat): (r: Parsed<Node>)
    requires pos <= |tokens|
    ensures r.Ok? ==> pos < r.value.1 <= |tokens|
  {
    var (_, p) :- Expect(tokens, pos, LBrace);
    var ((caption, action), end) :- ParseButtonProps(tokens, p, None, None);
    var node :- MakeButton(caption, action);
    Ok((node, end))
  }

  function ParseInput(tokens: seq<Token>, pos: nat): (r: Parsed<Node>)
    requires pos <= |tokens|
    ensures r.Ok? ==> pos < r.value.1 <= |tokens|
  {
    var (_, p) :- Expect(tokens, pos, LBrace);
    var (st, end) :- ParseInputProps(tokens, p, InputState(None, None, false));
    var node :- MakeInput(st);
    Ok((node, end))
  }

  /** The node that follows its already consumed keyword. */
  function ParseNode(tokens: seq<Token>, pos: nat, word: string): (r: Parsed<Node>)
    requires pos <= |tokens|
    ensures r.Ok? ==> pos < r.value.1 <= |tokens|
    decreases |tokens| - pos, 1
  {
    if KindNamed(word).Some? then
      var (_, p) :- Expect(tokens, pos, LBrace);
      var (children, end) :- ParseNodes(tokens, p, []);
      Ok((Box(KindNamed(word).value, children), end))
    else if word == "text" then
      var (s, end) :- NextString(tokens, pos);
      Ok((Text(s), end))
    else if word == "button" then ParseButton(tokens, pos)
    else if word == "input" then ParseInput(tokens, pos)
    else Err(UnknownNode(word))
  }

  /** Nodes up to and including the closing brace. */
  function ParseNodes(tokens: seq<Token>, pos: nat, nodes: seq<Node>): (r: Parsed<seq<Node>>)
    requires pos <= |tokens|
    ensures r.Ok? ==> pos < r.value.1 <= |tokens|
    decreases |tokens| - pos, 0
  {
    if AtRBrace(tokens, pos) then Ok((nodes, pos + 1))
    else
      var (word, p) :- NextIdent(tokens, pos);
      var (node, end) :- ParseNode(tokens, p, word);
      ParseNodes(tokens, end, nodes + [node])
  }

  /** Titles and nodes of a page, up to and including the closing brace. */
  function ParsePageItems(tokens: seq<Token>, pos: nat, page: Page): (r: Parsed<Page>)
    requires pos <= |tokens|
    ensures r.Ok? ==> pos < r.value.1 <= |tokens|
    decreases |tokens| - pos
  {
    if AtRBrace(tokens, pos) then Ok((page, pos + 1))
    else
      var (word, p) :- NextIdent(tokens, pos);
      if word == "title" then
        var (s, end) :- NextString(tokens, p);
        ParsePageItems(tokens, end, page.(title := Some(s)))
      else
        var (node, end) :- ParseNode(tokens, p, word);
        ParsePageItems(tokens, end, page.(children := page.children + [node]))
  }

  function ParsePage(tokens: seq<Token>): Result<Page, UiError> {
    var (_, p) :- ExpectIdent(tokens, 0, "page");
    var (_, q) :- Expect(tokens, p, LBrace);
    var (page, end) :- ParsePageItems(tokens, q, Page(None, []));
    if end == |tokens| then Ok(page) else Err(UnexpectedToken(tokens[end]))
  }

  function ParseVoidUi(source: string): Result<Page, UiError> {
    match TokensFrom(Dialect.VoidUi, source, 0)
    case Err(e) => Err(Lexical(e))
    case Ok(tokens) => ParsePage(tokens)
  }

  // ---- The parser in place ----------------------------------------------

  method TakeBool(p: Parser) returns (r: Result<bool, UiError>)
    requires p.position <= |p.tokens|
    modifies p
    ensures old(p.position) <= p.position <= |p.tokens|
    ensures r.Ok? ==> old(p.position) < p.position
    ensures Follows(r, p.position, NextBool(p.tokens, old(p.position)))
  {
    var word :- p.TakeIdent();
    r := if word == "true" then Ok(true) else if word == "false" then Ok(false) else Err(InvalidBool(word));
  }

  method ParseNodesUntilRBrace(p: Parser) returns (r: Result<seq<Node>, UiError>)
    requires p.position <= |p.tokens|
    modifies p
    ensures old(p.position) <= p.position <= |p.tokens|
    ensures Follows(r, p.position, ParseNodes(p.tokens, old(p.position), []))
    decreases |p.tokens| - p.position, 0
  {
    var nodes := [];
    while !AtRBrace(p.tokens, p.position)
      invariant old(p.position) <= p.position <= |p.tokens|
      invariant ParseNodes(p.tokens, old(p.position), []) == ParseNodes(p.tokens, p.position, nodes)
      decreases |p.tokens| - p.position
    {
      var word :- p.TakeIdent();
      var node :- ParseNodeAfterIdent(p, word);
      nodes := nodes + [node];
    }
    var closing := p.ExpectToken(RBrace);
    assert closing == Ok(());
    return Ok(nodes);
  }

  method ParseNodeAfterIdent(p: Parser, word: string) returns (r: Result<Node, UiError>)
    requires p.position <= |p.tokens|
    modifies p
    ensures old(p.position) <= p.position <= |p.tokens|
    ensures r.Ok? ==> old(p.position) < p.position
    ensures Follows(r, p.position, ParseNode(p.tokens, old(p.position), word))
    decreases |p.tokens| - p.position, 1
  {
    var kind := KindNamed(word);
    if kind.Some? {
      var _ :- p.ExpectToken(LBrace);
      var children :- ParseNodesUntilRBrace(p);
      return Ok(Box(kind.value, children));
    } else if word == "text" {
      var s :- p.TakeString();
      return Ok(Text(s));
    } else if word == "button" {
      r := ParseButtonBody(p);
    } else if word == "input" {
      r := ParseInputBody(p);
    } else {
      return Err(UnknownNode(word));
    }
  }

  method ParseButtonBody(p: Parser) returns (r: Result<Node, UiError>)
    requires p.position <= |p.tokens|
    modifies p
    ensures old(p.position) <= p.position <= |p.tokens|
    ensures r.Ok? ==> old(p.position) < p.position
    ensures Follows(r, p.position, ParseButton(p.tokens, old(p.position)))
  {
    var _ :- p.ExpectToken(LBrace);
    ghost var start := p.position;
    var caption, action := None, None;
    while !AtRBrace(p.tokens, p.position)
      invariant start <= p.position <= |p.tokens|
      invariant ParseButtonProps(p.tokens, start, None, None) == ParseButtonProps(p.tokens, p.position, caption, action)
      decreases |p.tokens| - p.position
    {
      var word :- p.TakeIdent();
      if word == "label" {
        var s :- p.TakeString();
        caption := Some(s);
      } else if word == "action" {
        var s :- p.TakeString();
        action := Some(s);
      } else {
        return Err(UnknownProperty(word));
      }
    }
    var closing := p.ExpectToken(RBrace);
    assert closing == Ok(());
    r := MakeButton(caption, action);
  }

  method ParseInputBody(p: Parser) returns (r: Result<Node, UiError>)
    requires p.position <= |p.tokens|
    modifies p
    ensures old(p.position) <= p.position <= |p.tokens|
    ensures r.Ok? ==> old(p.position) < p.position
    ensures Follows(r, p.position, ParseInput(p.tokens, old(p.position)))
  {
    var _ :- p.ExpectToken(LBrace);
    ghost var start := p.position;
    var id, placeholder, secure := None, None, false;
    while !AtRBrace(p.tokens, p.position)
      invariant start <= p.position <= |p.tokens|
      invariant ParseInputProps(p.tokens, start, InputState(None, None, false))
             == ParseInputProps(p.tokens, p.position, InputState(id, placeholder, secure))
      decreases |p.tokens| - p.position
    {
      var word :- p.TakeIdent();
      if word == "id" {
        var s :- p.TakeString();
        id := Some(s);
      } else if word == "placeholder" {
        var s :- p.TakeString();
        placeholder := Some(s);
      } else if word == "secure" {
        secure :- TakeBool(p);
      } else {
        return Err(UnknownProperty(word));
      }
    }
    var closing := p.ExpectToken(RBrace);
    assert closing == Ok(());
    r := MakeInput(InputState(id, placeholder, secure));
  }

  method ParseWholePage(p: Parser) returns (r: Result<Page, UiError>)
    requires p.position == 0
    modifies p
    ensures r == ParsePage(p.tokens)
  {
    var _ :- p.ExpectWord("page");
    var _ :- p.ExpectToken(LBrace);
    ghost var start := p.position;
    var title, children := None, [];
    while !AtRBrace(p.tokens, p.position)
      invariant start <= p.position <= |p.tokens|
      invariant ParsePageItems(p.tokens, start, Page(None, [])) == ParsePageItems(p.tokens, p.position, Page(title, children))
      decreases |p.tokens| - p.position
    {
      var word :- p.TakeIdent();
      if word == "title" {
        var s :- p.TakeString();
        title := Some(s);
      } else {
        var node :- ParseNodeAfterIdent(p, word);
        children := children + [node];
      }
    }
    var closing := p.ExpectToken(RBrace);
    assert closing == Ok(());
    if p.position != |p.tokens| {
      return Err(UnexpectedToken(p.tokens[p.position]));
    }
    return Ok(Page(title, children));
  }

  method ParseSource(source: string) returns (r: Result<Page, UiError>)
    ensures r == ParseVoidUi(source)
  {
    var tokens := Tokenize(Dialect.VoidUi, source);
    if tokens.Err? {
      return Err(Lexical(tokens.error));
    }
    var parser := new Parser(tokens.value);
    r := ParseWholePage(parser);
  }
}
