// Surface documents (core/runtime/src/ui/mod.rs): the second recursive-descent
// parser, whose leaf nodes carry `key = value` attributes told apart from the next
// node by looking two tokens ahead. Functions of the token list and the position
// first, then the parser that advances its position.

module Surface {
  import opened Prelude
  import opened Lexer
  import opened TokenStream

  datatype Kind = Page | Column | Row | Text | Input | Button | Spacer

  type BoxKind = k: Kind | k.Column? || k.Row? witness Column

  type InlineKind = k: Kind | k.Input? || k.Spacer? witness Input

  datatype Node = Node(kind: Kind, properties: map<string, string>, children: seq<Node>)

  datatype Document = Document(title: Option<string>, children: seq<Node>)

  // ---- Attributes -------------------------------------------------------

  predicate AtString(tokens: seq<Token>, pos: nat) {
    pos < |tokens| && tokens[pos].Str?
  }

  /** `peek_attribute`: an identifier and then `=`. */
  predicate AtAttribute(tokens: seq<Token>, pos: nat) {
    pos + 1 < |tokens| && tokens[pos].Ident? && tokens[pos + 1] == Equals
  }

  /** An attribute's value: a string or a bare identifier. */
  function AttributeValue(tokens: seq<Token>, pos: nat): (r: Parsed<string>)
    ensures r.Ok? ==> pos < r.value.1 <= |tokens|
  {
    if AtString(tokens, pos) then NextString(tokens, pos) else NextIdent(tokens, pos)
  }

  function ParseAttributes(tokens: seq<Token>, pos: nat, props: map<string, string>): (r: Parsed<map<string, string>>)
    requires pos <= |tokens|
    ensures r.Ok? ==> pos <= r.value.1 <= |tokens|
    decreases |tokens| - pos
  {
    if !AtAttribute(tokens, pos) then Ok((props, pos))
    else
      var (value, end) :- AttributeValue(tokens, pos + 2);
      ParseAttributes(tokens, end, props[tokens[pos].name := value])
  }

  // ---- Nodes ------------------------------------------------------------

  function MakeText(props: map<string, string>): Result<Node, UiError> {
    if "value" !in props && "bind" !in props then Err(MissingProperty("value|bind")) else Ok(Node(Text, props, []))
  }

  function ParseText(tokens: seq<Token>, pos: nat): (r: Parsed<Node>)
    requires pos <= |tokens|
    ensures r.Ok? ==> pos <= r.value.1 <= |tokens|
  {
    var (positional, p) := if AtString(tokens, pos) then (map["value" := tokens[pos].value], pos + 1) else (map[], pos);
    var (attributes, end) :- ParseAttributes(tokens, p, map[]);
    var node :- MakeText(positional + attributes);
    Ok((node, end))
  }

  function ParseInline(tokens: seq<Token>, pos: nat, kind: InlineKind): (r: Parsed<Node>)
    requires pos <= |tokens|
    ensures r.Ok? ==> pos <= r.value.1 <= |tokens|
  {
    var (props, end) :- ParseAttributes(tokens, pos, map[]);
    Ok((Node(kind, props, []), end))
  }

  function ParseButtonProps(tokens: seq<Token>, pos: nat, props: map<string, string>): (r: Parsed<map<string, string>>)
    requires pos <= |tokens|
    ensures r.Ok? ==> pos < r.value.1 <= |tokens|
    decreases |tokens| - pos
  {
    if AtRBrace(tokens, pos) then Ok((props, pos + 1))
    else
      var (key, p) :- NextIdent(tokens, pos);
      if key == "label" || key == "action" then
        var (value, end) :- NextString(tokens, p);
        ParseButtonProps(tokens, end, props[key := value])
      else Err(UnknownProperty(key))
  }

  function MakeButton(props: map<string, string>): Result<Node, UiError> {
    if "label" !in props then Err(MissingProperty("label"))
    else if "action" !in props then Err(MissingProperty("action"))
    else Ok(Node(Button, props, []))
  }

  function ParseButton(tokens: seq<Token>, pos: nat): (r: Parsed<Node>)
    requires pos <= |tokens|
    ensures r.Ok? ==> pos <= r.value.1 <= |tokens|
  {
    var (_, p) :- Expect(tokens, pos, LBrace);
    var (props, end) :- ParseButtonProps(tokens, p, map[]);
    var node :- MakeButton(props);
    Ok((node, end))
  }

  function ParseContainer(tokens: seq<Token>, pos: nat, kind: BoxKind): (r: Parsed<Node>)
    requires pos <= |tokens|
    ensures r.Ok? ==> pos <= r.value.1 <= |tokens|
    decreases |tokens| - pos, 1
  {
    var (_, p) :- Expect(tokens, pos, LBrace);
    var (children, end) :- ParseNodes(tokens, p, []);
    Ok((Node(kind, map[], children), end))
  }

  /** The node that follows its already consumed keyword. */
  function ParseNode(tokens: seq<Token>, pos: nat, word: string): (r: Parsed<Node>)
    requires pos <= |tokens|
    ensures r.Ok? ==> pos <= r.value.1 <= |tokens|
    decreases |tokens| - pos, 2
  {
    if word == "column" then ParseContainer(tokens, pos, Column)
    else if word == "row" then ParseContainer(tokens, pos, Row)
    else if word == "text" then ParseText(tokens, pos)
    else if word == "input" then ParseInline(tokens, pos, Input)
    else if word == "button" then ParseButton(tokens, pos)
    else if word == "spacer" then ParseInline(tokens, pos, Spacer)
    else Err(UnknownNode(word))
  }

  /** Nodes up to and including the closing brace. */
  function ParseNodes(tokens: seq<Token>, pos: nat, nodes: seq<Node>): (r: Parsed<seq<Node>>)
    requires pos <= |tokens|
    ensures r.Ok? ==> pos < r.value.1 <= |tokens|
    decreases |tokens| - pos, 0
  {
    if AtRBrace(tokens, pos) then Ok((nodes, pos + 1))
    else
      var (word, p) :- NextIdent(tokens, pos);
      var (node, end) :- ParseNode(tokens, p, word);
      ParseNodes(tokens, end, nodes + [node])
  }

  /** Titles and nodes of a document, up to and including the closing brace. */
  function ParseItems(tokens: seq<Token>, pos: nat, doc: Document): (r: Parsed<Document>)
    requires pos <= |tokens|
    ensures r.Ok? ==> pos < r.value.1 <= |tokens|
    decreases |tokens| - pos
  {
    if AtRBrace(tokens, pos) then Ok((doc, pos + 1))
    else
      var (word, p) :- NextIdent(tokens, pos);
      if word == "title" then
        var (s, end) :- NextString(tokens, p);
        ParseItems(tokens, end, doc.(title := Some(s)))
      else
        var (node, end) :- ParseNode(tokens, p, word);
        ParseItems(tokens, end, doc.(children := doc.children + [node]))
  }

  function ParseDocument(tokens: seq<Token>): Result<Document, UiError> {
    var (_, p) :- ExpectIdent(tokens, 0, "page");
    var (_, q) :- Expect(tokens, p, LBrace);
    var (doc, end) :- ParseItems(tokens, q, Document(None, []));
    if end == |tokens| then Ok(doc) else Err(UnexpectedToken(tokens[end]))
  }

  function ParseSurface(source: string): Result<Document, UiError> {
    match TokensFrom(Dialect.Surface, source, 0)
    case Err(e) => Err(Lexical(e))
    case Ok(tokens) => ParseDocument(tokens)
  }

  // ---- The parser in place ----------------------------------------------

  method TakeAttributeValue(p: Parser) returns (r: Result<string, UiError>)
    requires p.position <= |p.tokens|
    modifies p
    ensures old(p.position) <= p.position <= |p.tokens|
    ensures r.Ok? ==> old(p.position) < p.position
    ensures Follows(r, p.position, AttributeValue(p.tokens, old(p.position)))
  {
    if AtString(p.tokens, p.position) {
      r := p.TakeString();
    } else {
      r := p.TakeIdent();
    }
  }

  method TakeAttributes(p: Parser) returns (r: Result<map<string, string>, UiError>)
    requires p.position <= |p.tokens|
    modifies p
    ensures old(p.position) <= p.position <= |p.tokens|
    ensures Follows(r, p.position, ParseAttributes(p.tokens, old(p.position), map[]))
  {
    var properties := map[];
    while AtAttribute(p.tokens, p.position)
      invariant old(p.position) <= p.position <= |p.tokens|
      invariant ParseAttributes(p.tokens, old(p.position), map[]) == ParseAttributes(p.tokens, p.position, properties)
      decreases |p.tokens| - p.position
    {
      var key := p.TakeIdent();
      assert key.Ok?;
      var equals := p.ExpectToken(Equals);
      assert equals == Ok(());
      var value :- TakeAttributeValue(p);
      properties := properties[key.value := value];
    }
    return Ok(properties);
  }

  method TakeText(p: Parser) returns (r: Result<Node, UiError>)
    requires p.position <= |p.tokens|
    modifies p
    ensures old(p.position) <= p.position <= |p.tokens|
    ensures Follows(r, p.position, ParseText(p.tokens, old(p.position)))
  {
    var properties := map[];
    if AtString(p.tokens, p.position) {
      var value := p.TakeString();
      assert value.Ok?;
      properties := properties["value" := value.value];
    }
    var attributes :- TakeAttributes(p);
    r := MakeText(properties + attributes);
  }

  method TakeInline(p: Parser, kind: InlineKind) returns (r: Result<Node, UiError>)
    requires p.position <= |p.tokens|
    modifies p
    ensures old(p.position) <= p.position <= |p.tokens|
    ensures Follows(r, p.position, ParseInline(p.tokens, old(p.position), kind))
  {
    var properties :- TakeAttributes(p);
    return Ok(Node(kind, properties, []));
  }

  method TakeButton(p: Parser) returns (r: Result<Node, UiError>)
    requires p.position <= |p.tokens|
    modifies p
    ensures old(p.position) <= p.position <= |p.tokens|
    ensures Follows(r, p.position, ParseButton(p.tokens, old(p.position)))
  {
    var _ :- p.ExpectToken(LBrace);
    ghost var start := p.position;
    var properties := map[];
    while !AtRBrace(p.tokens, p.position)
      invariant start <= p.position <= |p.tokens|
      invariant ParseButtonProps(p.tokens, start, map[]) == ParseButtonProps(p.tokens, p.position, properties)
      decreases |p.tokens| - p.position
    {
      var key :- p.TakeIdent();
      if key == "label" || key == "action" {
        var value :- p.TakeString();
        properties := properties[key := value];
      } else {
        return Err(UnknownProperty(key));
      }
    }
    var closing := p.ExpectToken(RBrace);
    assert closing == Ok(());
    r := MakeButton(properties);
  }

  method TakeContainer(p: Parser, kind: BoxKind) returns (r: Result<Node, UiError>)
    requires p.position <= |p.tokens|
    modifies p
    ensures old(p.position) <= p.position <= |p.tokens|
    ensures Follows(r, p.position, ParseContainer(p.tokens, old(p.position), kind))
    decreases |p.tokens| - p.position, 0
  {
    var _ :- p.ExpectToken(LBrace);
    ghost var start := p.position;
    var children := [];
    while !AtRBrace(p.tokens, p.position)
      invariant start <= p.position <= |p.tokens|
      invariant ParseNodes(p.tokens, start, []) == ParseNodes(p.tokens, p.position, children)
      decreases |p.tokens| - p.position
    {
      var word :- p.TakeIdent();
      var node :- TakeNodeAfterIdent(p, word);
      children := children + [node];
    }
    var closing := p.ExpectToken(RBrace);
    assert closing == Ok(());
    return Ok(Node(kind, map[], children));
  }

  method TakeNodeAfterIdent(p: Parser, word: string) returns (r: Result<Node, UiError>)
    requires p.position <= |p.tokens|
    modifies p
    ensures old(p.position) <= p.position <= |p.tokens|
    ensures Follows(r, p.position, ParseNode(p.tokens, old(p.position), word))
    decreases |p.tokens| - p.position, 1
  {
    match word {
      case "column" => r := TakeContainer(p, Column);
      case "row" => r := TakeContainer(p, Row);
      case "text" => r := TakeText(p);
      case "input" => r := TakeInline(p, Input);
      case "button" => r := TakeButton(p);
      case "spacer" => r := TakeInline(p, Spacer);
      case _ => r := Err(UnknownNode(word));
    }
  }

  method TakeDocument(p: Parser) returns (r: Result<Document, UiError>)
    requires p.position == 0
    modifies p
    ensures r == ParseDocument(p.tokens)
  {
    var _ :- p.ExpectWord("page");
    var _ :- p.ExpectToken(LBrace);
    ghost var start := p.position;
    var title, children := None, [];
    while !AtRBrace(p.tokens, p.position)
      invariant start <= p.position <= |p.tokens|
      invariant ParseItems(p.tokens, start, Document(None, [])) == ParseItems(p.tokens, p.position, Document(title, children))
      decreases |p.tokens| - p.position
    {
      var word :- p.TakeIdent();
      if word == "title" {
        var s :- p.TakeString();
        title := Some(s);
      } else {
        var node :- TakeNodeAfterIdent(p, word);
        children := children + [node];
      }
    }
    var closing := p.ExpectToken(RBrace);
    assert closing == Ok(());
    if p.position != |p.tokens| {
      return Err(UnexpectedToken(p.tokens[p.position]));
    }
    return Ok(Document(title, children));
  }

  method ParseSurfaceDocument(source: string) returns (r: Result<Document, UiError>)
    ensures r == ParseSurface(source)
  {
    var tokens := Tokenize(Dialect.Surface, source);
    if tokens.Err? {
      return Err(Lexical(tokens.error));
    }
    var parser := new Parser(tokens.value);
    r := TakeDocument(parser);
  }
}
