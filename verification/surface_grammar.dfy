// The grammar of surface documents, independent of the parser: derivation trees,
// the tokens they yield and the document they mean. The parser, with its two-token
// lookahead, accepts exactly the grammar.

module SurfaceGrammar {
  import opened Prelude
  import opened Lexer
  import opened TokenStream
  import opened Surface

  // ---- Derivations ------------------------------------------------------

  /** `key = "value"` or `key = value`. */
  datatype Attr = Attr(key: string, value: string, quoted: bool)

  /** `label "value"` or `action "value"` in a button's braces. */
  datatype ButtonProp = Caption(text: string) | Action(text: string)

  datatype NodeTree =
    | BoxTree(box: BoxKind, items: seq<NodeTree>)
    | TextTree(positional: Option<string>, attrs: seq<Attr>)
    | InlineTree(leaf: InlineKind, attrs: seq<Attr>)
    | ButtonTree(buttonProps: seq<ButtonProp>)

  datatype Item = TitleItem(text: string) | NodeItem(node: NodeTree)

  // ---- Tokens of a derivation -------------------------------------------

  function KindWord(kind: Kind): string {
    match kind
    case Page => "page"
    case Column => "column"
    case Row => "row"
    case Text => "text"
    case Input => "input"
    case Button => "button"
    case Spacer => "spacer"
  }

  function KindOf(t: NodeTree): Kind {
    match t
    case BoxTree(_, _) => t.box
    case TextTree(_, _) => Text
    case InlineTree(_, _) => t.leaf
    case ButtonTree(_) => Button
  }

  function Keyword(t: NodeTree): string {
    KindWord(KindOf(t))
  }

  function AttrTokens(a: Attr): seq<Token> {
    [Ident(a.key), Equals, if a.quoted then Str(a.value) else Ident(a.value)]
  }

  function AttrsTokens(attrs: seq<Attr>): seq<Token> {
    if attrs == [] then [] else AttrTokens(attrs[0]) + AttrsTokens(attrs[1..])
  }

  function ButtonKey(p: ButtonProp): string {
    if p.Caption? then "label" else "action"
  }

  function ButtonPropTokens(p: ButtonProp): seq<Token> {
    [Ident(ButtonKey(p)), Str(p.text)]
  }

  function ButtonPropsTokens(props: seq<ButtonProp>): seq<Token> {
    if props == [] then [] else ButtonPropTokens(props[0]) + ButtonPropsTokens(props[1..])
  }

  /** The tokens after a node's keyword. */
  function BodyTokens(t: NodeTree): seq<Token>
    decreases t, 0
  {
    match t
    case BoxTree(_, items) => [LBrace] + NodesTokens(items) + [RBrace]
    case TextTree(positional, attrs) => (if positional.Some? then [Str(positional.value)] else []) + AttrsTokens(attrs)
    case InlineTree(_, attrs) => AttrsTokens(attrs)
    case ButtonTree(props) => [LBrace] + ButtonPropsTokens(props) + [RBrace]
  }

  function NodeTokens(t: NodeTree): seq<Token>
    decreases t, 1
  {
    [Ident(Keyword(t))] + BodyTokens(t)
  }

  function NodesTokens(items: seq<NodeTree>): seq<Token> {
    if items == [] then [] else NodeTokens(items[0]) + NodesTokens(items[1..])
  }

  function ItemTokens(i: Item): seq<Token> {
    match i
    case TitleItem(s) => [Ident("title"), Str(s)]
    case NodeItem(t) => NodeTokens(t)
  }

  function ItemsTokens(items: seq<Item>): seq<Token> {
    if items == [] then [] else ItemTokens(items[0]) + ItemsTokens(items[1..])
  }

  function DocumentTokens(items: seq<Item>): seq<Token> {
    [Ident("page"), LBrace] + ItemsTokens(items) + [RBrace]
  }

  // ---- Meaning of a derivation ------------------------------------------

  /** A later attribute replaces an earlier one of the same key. */
  function AttrsMeaning(attrs: seq<Attr>, before: map<string, string>): map<string, string> {
    if attrs == [] then before else AttrsMeaning(attrs[1..], before[attrs[0].key := attrs[0].value])
  }

  function ButtonMeaning(props: seq<ButtonProp>, before: map<string, string>): map<string, string> {
    if props == [] then before else ButtonMeaning(props[1..], before[ButtonKey(props[0]) := props[0].text])
  }

  /** A text's attributes, over the value written without a key. */
  function TextMeaning(positional: Option<string>, attrs: seq<Attr>): map<string, string> {
    (if positional.Some? then map["value" := positional.value] else map[]) + AttrsMeaning(attrs, map[])
  }

  /** The node a derivation stands for, unless a required property is missing. */
  function Meaning(t: NodeTree): Option<Node>
    decreases t, 0
  {
    match t
    case BoxTree(_, items) => if Meanings(items).None? then None else Some(Node(t.box, map[], Meanings(items).value))
    case TextTree(positional, attrs) => ToOption(MakeText(TextMeaning(positional, attrs)))
    case InlineTree(_, attrs) => Some(Node(t.leaf, AttrsMeaning(attrs, map[]), []))
    case ButtonTree(props) => ToOption(MakeButton(ButtonMeaning(props, map[])))
  }

  function Meanings(items: seq<NodeTree>): (r: Option<seq<Node>>)
    ensures r.Some? ==> |r.value| == |items|
  {
    if items == [] then Some([])
    else if Meaning(items[0]).None? || Meanings(items[1..]).None? then None
    else Some([Meaning(items[0]).value] + Meanings(items[1..]).value)
  }

  /** The document after one more title or node; a later title replaces an earlier one. */
  function WithItem(i: Item, doc: Document): Option<Document> {
    match i
    case TitleItem(s) => Some(doc.(title := Some(s)))
    case NodeItem(t) => if Meaning(t).None? then None else Some(doc.(children := doc.children + [Meaning(t).value]))
  }

  function DocumentMeaning(items: seq<Item>, before: Document): Option<Document> {
    if items == [] then Some(before)
    else if WithItem(items[0], before).None? then None
    else DocumentMeaning(items[1..], WithItem(items[0], before).value)
  }

  // ---- Single turns of the parsing loops --------------------------------

  lemma KeywordsDiffer(t: NodeTree)
    ensures Keyword(t) != "title"
  {
  }

  /** What each keyword dispatches to. */
  lemma Dispatch(tokens: seq<Token>, pos: nat, t: NodeTree)
    requires pos <= |tokens|
    ensures t.BoxTree? ==> ParseNode(tokens, pos, Keyword(t)) == ParseContainer(tokens, pos, t.box)
    ensures t.TextTree? ==> ParseNode(tokens, pos, Keyword(t)) == ParseText(tokens, pos)
    ensures t.InlineTree? ==> ParseNode(tokens, pos, Keyword(t)) == ParseInline(tokens, pos, t.leaf)
    ensures t.ButtonTree? ==> ParseNode(tokens, pos, Keyword(t)) == ParseButton(tokens, pos)
  {
    hide ParseContainer, ParseText, ParseInline, ParseButton;
  }

  lemma NodesEnd(tokens: seq<Token>, pos: nat, nodes: seq<Node>)
    requires AtRBrace(tokens, pos)
    ensures ParseNodes(tokens, pos, nodes) == Ok((nodes, pos + 1))
  {
  }

  lemma DocumentEnd(tokens: seq<Token>, pos: nat, doc: Document)
    requires AtRBrace(tokens, pos)
    ensures ParseItems(tokens, pos, doc) == Ok((doc, pos + 1))
  {
  }

  lemma NodesTurn(tokens: seq<Token>, pos: nat, nodes: seq<Node>, word: string, node: Node, end: nat)
    requires pos < |tokens| && tokens[pos] == Ident(word) && ParseNode(tokens, pos + 1, word) == Ok((node, end))
    ensures ParseNodes(tokens, pos, nodes) == ParseNodes(tokens, end, nodes + [node])
  {
    hide ParseNode;
  }

  lemma NodesTurnBack(tokens: seq<Token>, pos: nat, nodes: seq<Node>)
    requires pos <= |tokens| && !AtRBrace(tokens, pos) && ParseNodes(tokens, pos, nodes).Ok?
    ensures pos < |tokens| && tokens[pos].Ident? && ParseNode(tokens, pos + 1, tokens[pos].name).Ok?
    ensures var (node, end) := ParseNode(tokens, pos + 1, tokens[pos].name).value;
            ParseNodes(tokens, pos, nodes) == ParseNodes(tokens, end, nodes + [node])
  {
    hide ParseNode;
  }

  lemma TitleTurn(tokens: seq<Token>, pos: nat, doc: Document, s: string)
    requires pos + 1 < |tokens| && tokens[pos] == Ident("title") && tokens[pos + 1] == Str(s)
    ensures ParseItems(tokens, pos, doc) == ParseItems(tokens, pos + 2, doc.(title := Some(s)))
  {
    hide ParseNode;
    assert !AtRBrace(tokens, pos) && NextIdent(tokens, pos) == Ok((tokens[pos].name, pos + 1));
  }

  lemma NodeTurn(tokens: seq<Token>, pos: nat, doc: Document, word: string, node: Node, end: nat)
    requires pos < |tokens| && tokens[pos] == Ident(word) && word != "title"
    requires ParseNode(tokens, pos + 1, word) == Ok((node, end))
    ensures ParseItems(tokens, pos, doc) == ParseItems(tokens, end, doc.(children := doc.children + [node]))
  {
    hide ParseNode;
    assert !AtRBrace(tokens, pos) && NextIdent(tokens, pos) == Ok((tokens[pos].name, pos + 1));
  }

  lemma ItemTurnBack(tokens: seq<Token>, pos: nat, doc: Document)
    requires pos <= |tokens| && !AtRBrace(tokens, pos) && ParseItems(tokens, pos, doc).Ok?
    ensures pos < |tokens| && tokens[pos].Ident?
    ensures tokens[pos].name == "title" ==>
              && AtString(tokens, pos + 1)
              && ParseItems(tokens, pos, doc) == ParseItems(tokens, pos + 2, doc.(title := Some(tokens[pos + 1].value)))
    ensures tokens[pos].name != "title" ==>
              && ParseNode(tokens, pos + 1, tokens[pos].name).Ok?
              && var (node, end) := ParseNode(tokens, pos + 1, tokens[pos].name).value;
                 ParseItems(tokens, pos, doc) == ParseItems(tokens, end, doc.(children := doc.children + [node]))
  {
    hide ParseNode;
  }

  lemma AttrTurn(tokens: seq<Token>, pos: nat, a: Attr, props: map<string, string>)
    requires Stands(tokens, pos, AttrTokens(a))
    ensures ParseAttributes(tokens, pos, props) == ParseAttributes(tokens, pos + 3, props[a.key := a.value])
  {
    assert tokens[pos + 0] == AttrTokens(a)[0] && tokens[pos + 1] == AttrTokens(a)[1] && tokens[pos + 2] == AttrTokens(a)[2];
  }

  lemma AttrTurnBack(tokens: seq<Token>, pos: nat, props: map<string, string>) returns (a: Attr)
    requires pos <= |tokens| && AtAttribute(tokens, pos) && ParseAttributes(tokens, pos, props).Ok?
    ensures Stands(tokens, pos, AttrTokens(a))
    ensures ParseAttributes(tokens, pos, props) == ParseAttributes(tokens, pos + 3, props[a.key := a.value])
  {
    a := if AtString(tokens, pos + 2) then Attr(tokens[pos].name, tokens[pos + 2].value, true)
         else Attr(tokens[pos].name, tokens[pos + 2].name, false);
  }

  lemma ButtonTurn(tokens: seq<Token>, pos: nat, p: ButtonProp, props: map<string, string>)
    requires Stands(tokens, pos, ButtonPropTokens(p))
    ensures ParseButtonProps(tokens, pos, props) == ParseButtonProps(tokens, pos + 2, props[ButtonKey(p) := p.text])
  {
    assert tokens[pos + 0] == ButtonPropTokens(p)[0] && tokens[pos + 1] == ButtonPropTokens(p)[1];
  }

  lemma ButtonTurnBack(tokens: seq<Token>, pos: nat, props: map<string, string>) returns (p: ButtonProp)
    requires pos <= |tokens| && !AtRBrace(tokens, pos) && ParseButtonProps(tokens, pos, props).Ok?
    ensures Stands(tokens, pos, ButtonPropTokens(p))
    ensures ParseButtonProps(tokens, pos, props) == ParseButtonProps(tokens, pos + 2, props[ButtonKey(p) := p.text])
  {
    p := if tokens[pos].name == "label" then Caption(tokens[pos + 1].value) else Action(tokens[pos + 1].value);
  }

  // ---- The lookahead ----------------------------------------------------

  /** In a node list the next token is a keyword or the closing brace. */
  lemma NextStarts(tokens: seq<Token>, pos: nat, items: seq<NodeTree>)
    requires Stands(tokens, pos, NodesTokens(items)) && AtRBrace(tokens, pos + |NodesTokens(items)|)
    ensures pos < |tokens| && (tokens[pos].Ident? || tokens[pos] == RBrace)
  {
    if items != [] {
      assert NodesTokens(items) == NodeTokens(items[0]) + NodesTokens(items[1..]);
      StandsParts(tokens, pos, NodeTokens(items[0]), NodesTokens(items[1..]));
      StandsParts(tokens, pos, [Ident(Keyword(items[0]))], BodyTokens(items[0]));
      assert tokens[pos + 0] == [Ident(Keyword(items[0]))][0];
    }
  }

  /** A node's body never starts with `=`. */
  lemma BodyStarts(t: NodeTree)
    ensures BodyTokens(t) != [] ==> BodyTokens(t)[0] != Equals
  {
  }

  /** The keyword of the next node is never taken for an attribute of the last one. */
  lemma KeywordIsNoAttribute(tokens: seq<Token>, pos: nat, t: NodeTree)
    requires Stands(tokens, pos, NodeTokens(t)) && pos + |NodeTokens(t)| < |tokens|
    requires tokens[pos + |NodeTokens(t)|] != Equals
    ensures !AtAttribute(tokens, pos)
  {
    BodyStarts(t);
    if BodyTokens(t) != [] {
      assert tokens[pos + 1] == NodeTokens(t)[1];
    }
  }

  lemma NoAttributeNext(tokens: seq<Token>, pos: nat, items: seq<NodeTree>)
    requires Stands(tokens, pos, NodesTokens(items)) && AtRBrace(tokens, pos + |NodesTokens(items)|)
    ensures !AtAttribute(tokens, pos)
  {
    hide NodeTokens;
    if items != [] {
      StandsParts(tokens, pos, NodeTokens(items[0]), NodesTokens(items[1..]));
      NextStarts(tokens, pos + |NodeTokens(items[0])|, items[1..]);
      KeywordIsNoAttribute(tokens, pos, items[0]);
    }
  }

  lemma ItemStarts(tokens: seq<Token>, pos: nat, i: Item)
    requires Stands(tokens, pos, ItemTokens(i))
    ensures pos < |tokens| && tokens[pos].Ident?
  {
    if i.TitleItem? {
      assert tokens[pos + 0] == ItemTokens(i)[0];
    } else {
      StandsParts(tokens, pos, [Ident(Keyword(i.node))], BodyTokens(i.node));
      assert tokens[pos + 0] == [Ident(Keyword(i.node))][0];
    }
  }

  lemma NextItemStarts(tokens: seq<Token>, pos: nat, items: seq<Item>)
    requires Stands(tokens, pos, ItemsTokens(items)) && AtRBrace(tokens, pos + |ItemsTokens(items)|)
    ensures pos < |tokens| && (tokens[pos].Ident? || tokens[pos] == RBrace)
  {
    if items != [] {
      assert ItemsTokens(items) == ItemTokens(items[0]) + ItemsTokens(items[1..]);
      StandsParts(tokens, pos, ItemTokens(items[0]), ItemsTokens(items[1..]));
      ItemStarts(tokens, pos, items[0]);
    }
  }

  lemma ItemIsNoAttribute(tokens: seq<Token>, pos: nat, i: Item)
    requires Stands(tokens, pos, ItemTokens(i)) && pos + |ItemTokens(i)| < |tokens|
    requires tokens[pos + |ItemTokens(i)|] != Equals
    ensures !AtAttribute(tokens, pos)
  {
    hide NodeTokens;
    match i
    case TitleItem(s) => assert tokens[pos + 1] == ItemTokens(i)[1];
    case NodeItem(t) => KeywordIsNoAttribute(tokens, pos, t);
  }

  lemma NoAttributeItem(tokens: seq<Token>, pos: nat, items: seq<Item>)
    requires Stands(tokens, pos, ItemsTokens(items)) && AtRBrace(tokens, pos + |ItemsTokens(items)|)
    ensures !AtAttribute(tokens, pos)
  {
    hide ItemTokens;
    if items != [] {
      StandsParts(tokens, pos, ItemTokens(items[0]), ItemsTokens(items[1..]));
      NextItemStarts(tokens, pos + |ItemTokens(items[0])|, items[1..]);
      ItemIsNoAttribute(tokens, pos, items[0]);
    }
  }

  // ---- The parser accepts what the grammar derives ----------------------

  lemma {:induction false} AttrsParse(tokens: seq<Token>, pos: nat, attrs: seq<Attr>, props: map<string, string>)
    requires Stands(tokens, pos, AttrsTokens(attrs)) && !AtAttribute(tokens, pos + |AttrsTokens(attrs)|)
    ensures ParseAttributes(tokens, pos, props) == Ok((AttrsMeaning(attrs, props), pos + |AttrsTokens(attrs)|))
    decreases attrs
  {
    if attrs != [] {
      StandsParts(tokens, pos, AttrTokens(attrs[0]), AttrsTokens(attrs[1..]));
      AttrTurn(tokens, pos, attrs[0], props);
      AttrsParse(tokens, pos + 3, attrs[1..], props[attrs[0].key := attrs[0].value]);
    }
  }

  lemma {:induction false} ButtonPropsParse(tokens: seq<Token>, pos: nat, props: seq<ButtonProp>, before: map<string, string>)
    requires Stands(tokens, pos, ButtonPropsTokens(props)) && AtRBrace(tokens, pos + |ButtonPropsTokens(props)|)
    ensures ParseButtonProps(tokens, pos, before) == Ok((ButtonMeaning(props, before), pos + |ButtonPropsTokens(props)| + 1))
    decreases props
  {
    if props != [] {
      StandsParts(tokens, pos, ButtonPropTokens(props[0]), ButtonPropsTokens(props[1..]));
      ButtonTurn(tokens, pos, props[0], before);
      ButtonPropsParse(tokens, pos + 2, props[1..], before[ButtonKey(props[0]) := props[0].text]);
    }
  }

  lemma ButtonParses(tokens: seq<Token>, pos: nat, props: seq<ButtonProp>)
    requires Stands(tokens, pos, [LBrace] + ButtonPropsTokens(props) + [RBrace])
    requires Meaning(ButtonTree(props)).Some?
    ensures ParseButton(tokens, pos) == Ok((Meaning(ButtonTree(props)).value, pos + |ButtonPropsTokens(props)| + 2))
  {
    hide MakeButton, ParseButtonProps;
    BracesStand(tokens, pos, ButtonPropsTokens(props));
    ButtonPropsParse(tokens, pos + 1, props, map[]);
  }

  /** A text without a positional value has an attribute, so no string comes first. */
  lemma TextParses(tokens: seq<Token>, pos: nat, positional: Option<string>, attrs: seq<Attr>)
    requires var t := TextTree(positional, attrs);
             Stands(tokens, pos, BodyTokens(t)) && !AtAttribute(tokens, pos + |BodyTokens(t)|) && Meaning(t).Some?
    ensures var t := TextTree(positional, attrs);
            ParseText(tokens, pos) == Ok((Meaning(t).value, pos + |BodyTokens(t)|))
  {
    hide ParseAttributes;
    if positional.Some? {
      StandsParts(tokens, pos, [Str(positional.value)], AttrsTokens(attrs));
      assert tokens[pos + 0] == [Str(positional.value)][0];
      AttrsParse(tokens, pos + 1, attrs, map[]);
    } else {
      StandsParts(tokens, pos, [], AttrsTokens(attrs));
      assert attrs != [];
      assert tokens[pos + 0] == AttrsTokens(attrs)[0];
      AttrsParse(tokens, pos, attrs, map[]);
    }
  }

  lemma ContainerParses(tokens: seq<Token>, pos: nat, kind: BoxKind, items: seq<NodeTree>)
    requires Stands(tokens, pos, [LBrace] + NodesTokens(items) + [RBrace]) && Meanings(items).Some?
    requires ParseNodes(tokens, pos + 1, []) == Ok(([] + Meanings(items).value, pos + 1 + |NodesTokens(items)| + 1))
    ensures ParseContainer(tokens, pos, kind) == Ok((Meaning(BoxTree(kind, items)).value, pos + |BodyTokens(BoxTree(kind, items))|))
  {
    hide ParseNodes, NodesTokens;
    BracesStand(tokens, pos, NodesTokens(items));
    assert [] + Meanings(items).value == Meanings(items).value;
  }

  lemma {:induction false} BodyParses(tokens: seq<Token>, pos: nat, t: NodeTree)
    requires Stands(tokens, pos, BodyTokens(t)) && !AtAttribute(tokens, pos + |BodyTokens(t)|) && Meaning(t).Some?
    ensures ParseNode(tokens, pos, Keyword(t)) == Ok((Meaning(t).value, pos + |BodyTokens(t)|))
    decreases t, 0
  {
    hide ParseNode, ParseButton, ParseText, ParseContainer, ParseNodes, Keyword;
    Dispatch(tokens, pos, t);
    match t
    case BoxTree(_, items) =>
      BracesStand(tokens, pos, NodesTokens(items));
      NodesParse(tokens, pos + 1, items, []);
      ContainerParses(tokens, pos, t.box, items);
    case TextTree(positional, attrs) => TextParses(tokens, pos, positional, attrs);
    case InlineTree(_, attrs) => AttrsParse(tokens, pos, attrs, map[]);
    case ButtonTree(props) => ButtonParses(tokens, pos, props);
  }

  lemma {:induction false} NodesParse(tokens: seq<Token>, pos: nat, items: seq<NodeTree>, nodes: seq<Node>)
    requires Stands(tokens, pos, NodesTokens(items)) && AtRBrace(tokens, pos + |NodesTokens(items)|)
    requires Meanings(items).Some?
    ensures ParseNodes(tokens, pos, nodes) == Ok((nodes + Meanings(items).value, pos + |NodesTokens(items)| + 1))
    decreases items, 0
  {
    hide ParseNodes, ParseNode, Meaning, Keyword, BodyTokens, AtAttribute;
    if items == [] {
      NodesEnd(tokens, pos, nodes);
      assert nodes + [] == nodes;
    } else {
      var t, rest := items[0], items[1..];
      StandsParts(tokens, pos, NodeTokens(t), NodesTokens(rest));
      StandsParts(tokens, pos, [Ident(Keyword(t))], BodyTokens(t));
      assert tokens[pos + 0] == [Ident(Keyword(t))][0];
      NoAttributeNext(tokens, pos + |NodeTokens(t)|, rest);
      BodyParses(tokens, pos + 1, t);
      NodesTurn(tokens, pos, nodes, Keyword(t), Meaning(t).value, pos + |NodeTokens(t)|);
      NodesParse(tokens, pos + |NodeTokens(t)|, rest, nodes + [Meaning(t).value]);
      assert nodes + [Meaning(t).value] + Meanings(rest).value == nodes + Meanings(items).value;
    }
  }

  lemma ItemParses(tokens: seq<Token>, pos: nat, i: Item, doc: Document)
    requires Stands(tokens, pos, ItemTokens(i)) && !AtAttribute(tokens, pos + |ItemTokens(i)|) && WithItem(i, doc).Some?
    ensures ParseItems(tokens, pos, doc) == ParseItems(tokens, pos + |ItemTokens(i)|, WithItem(i, doc).value)
  {
    hide ParseItems, ParseNode, Meaning, Keyword, BodyTokens, AtAttribute;
    match i
    case TitleItem(s) =>
      assert tokens[pos + 0] == ItemTokens(i)[0] && tokens[pos + 1] == ItemTokens(i)[1];
      TitleTurn(tokens, pos, doc, s);
    case NodeItem(t) =>
      KeywordsDiffer(t);
      StandsParts(tokens, pos, [Ident(Keyword(t))], BodyTokens(t));
      assert tokens[pos + 0] == [Ident(Keyword(t))][0];
      BodyParses(tokens, pos + 1, t);
      NodeTurn(tokens, pos, doc, Keyword(t), Meaning(t).value, pos + |NodeTokens(t)|);
  }

  lemma {:induction false} ItemsParse(tokens: seq<Token>, pos: nat, items: seq<Item>, doc: Document)
    requires Stands(tokens, pos, ItemsTokens(items)) && AtRBrace(tokens, pos + |ItemsTokens(items)|)
    requires DocumentMeaning(items, doc).Some?
    ensures ParseItems(tokens, pos, doc) == Ok((DocumentMeaning(items, doc).value, pos + |ItemsTokens(items)| + 1))
    decreases items
  {
    hide ParseItems, ItemTokens, WithItem, AtAttribute;
    if items == [] {
      DocumentEnd(tokens, pos, doc);
    } else {
      StandsParts(tokens, pos, ItemTokens(items[0]), ItemsTokens(items[1..]));
      NoAttributeItem(tokens, pos + |ItemTokens(items[0])|, items[1..]);
      ItemParses(tokens, pos, items[0], doc);
      ItemsParse(tokens, pos + |ItemTokens(items[0])|, items[1..], WithItem(items[0], doc).value);
    }
  }

  /** Every derivation with a meaning is accepted, with that meaning. */
  lemma GrammarIsAccepted(items: seq<Item>)
    requires DocumentMeaning(items, Document(None, [])).Some?
    ensures ParseDocument(DocumentTokens(items)) == Ok(DocumentMeaning(items, Document(None, [])).value)
  {
    hide ParseItems, ItemsTokens, DocumentMeaning;
    var tokens := DocumentTokens(items);
    assert tokens == [Ident("page")] + ([LBrace] + ItemsTokens(items) + [RBrace]);
    StandsParts(tokens, 0, [Ident("page")], [LBrace] + ItemsTokens(items) + [RBrace]);
    BracesStand(tokens, 1, ItemsTokens(items));
    ItemsParse(tokens, 2, items, Document(None, []));
  }

  // ---- The grammar derives what the parser accepts ----------------------

  lemma {:induction false} AttrsDerive(tokens: seq<Token>, pos: nat, props: map<string, string>) returns (attrs: seq<Attr>)
    requires pos <= |tokens| && ParseAttributes(tokens, pos, props).Ok?
    ensures Stands(tokens, pos, AttrsTokens(attrs))
    ensures ParseAttributes(tokens, pos, props) == Ok((AttrsMeaning(attrs, props), pos + |AttrsTokens(attrs)|))
    decreases |tokens| - pos
  {
    if !AtAttribute(tokens, pos) {
      attrs := [];
    } else {
      var first := AttrTurnBack(tokens, pos, props);
      var rest := AttrsDerive(tokens, pos + 3, props[first.key := first.value]);
      attrs := [first] + rest;
      assert attrs[1..] == rest;
      StandsParts(tokens, pos, AttrTokens(first), AttrsTokens(rest));
    }
  }

  lemma {:induction false} ButtonPropsDerive(tokens: seq<Token>, pos: nat, before: map<string, string>)
    returns (props: seq<ButtonProp>)
    requires pos <= |tokens| && ParseButtonProps(tokens, pos, before).Ok?
    ensures Stands(tokens, pos, ButtonPropsTokens(props)) && AtRBrace(tokens, pos + |ButtonPropsTokens(props)|)
    ensures ParseButtonProps(tokens, pos, before) == Ok((ButtonMeaning(props, before), pos + |ButtonPropsTokens(props)| + 1))
    decreases |tokens| - pos
  {
    if AtRBrace(tokens, pos) {
      props := [];
    } else {
      var first := ButtonTurnBack(tokens, pos, before);
      var rest := ButtonPropsDerive(tokens, pos + 2, before[ButtonKey(first) := first.text]);
      props := [first] + rest;
      assert props[1..] == rest;
      StandsParts(tokens, pos, ButtonPropTokens(first), ButtonPropsTokens(rest));
    }
  }

  lemma TextDerives(tokens: seq<Token>, pos: nat) returns (t: NodeTree)
    requires pos <= |tokens| && ParseText(tokens, pos).Ok?
    ensures t.TextTree? && Stands(tokens, pos, BodyTokens(t)) && Meaning(t).Some?
    ensures ParseText(tokens, pos) == Ok((Meaning(t).value, pos + |BodyTokens(t)|))
  {
    hide ParseAttributes;
    var given := AtString(tokens, pos);
    var attrs := AttrsDerive(tokens, if given then pos + 1 else pos, map[]);
    t := TextTree(if given then Some(tokens[pos].value) else None, attrs);
    StandsParts(tokens, pos, if given then [Str(tokens[pos].value)] else [], AttrsTokens(attrs));
  }

  lemma ButtonDerives(tokens: seq<Token>, pos: nat) returns (t: NodeTree)
    requires pos <= |tokens| && ParseButton(tokens, pos).Ok?
    ensures t.ButtonTree? && Stands(tokens, pos, BodyTokens(t)) && Meaning(t).Some?
    ensures ParseButton(tokens, pos) == Ok((Meaning(t).value, pos + |BodyTokens(t)|))
  {
    hide ParseButtonProps, MakeButton;
    var props := ButtonPropsDerive(tokens, pos + 1, map[]);
    t := ButtonTree(props);
    BracesJoin(tokens, pos, ButtonPropsTokens(props));
  }

  lemma ContainerOpens(tokens: seq<Token>, pos: nat, kind: BoxKind)
    requires pos <= |tokens| && ParseContainer(tokens, pos, kind).Ok?
    ensures pos < |tokens| && tokens[pos] == LBrace && ParseNodes(tokens, pos + 1, []).Ok?
  {
    hide ParseNodes;
  }

  lemma {:induction false} ContainerDerives(tokens: seq<Token>, pos: nat, kind: BoxKind) returns (t: NodeTree)
    requires pos <= |tokens| && ParseContainer(tokens, pos, kind).Ok?
    ensures t.BoxTree? && t.box == kind && Stands(tokens, pos, BodyTokens(t)) && Meaning(t).Some?
    ensures ParseContainer(tokens, pos, kind) == Ok((Meaning(t).value, pos + |BodyTokens(t)|))
    decreases |tokens| - pos, 1
  {
    hide ParseNodes, NodesTokens, ParseContainer;
    ContainerOpens(tokens, pos, kind);
    var items := NodesDerive(tokens, pos + 1, []);
    t := BoxTree(kind, items);
    BracesJoin(tokens, pos, NodesTokens(items));
    ContainerParses(tokens, pos, kind, items);
  }

  /** Only the six keywords start a node. */
  lemma KnownWord(tokens: seq<Token>, pos: nat, word: string) returns (kind: Kind)
    requires pos <= |tokens| && ParseNode(tokens, pos, word).Ok?
    ensures kind != Page && KindWord(kind) == word
    ensures kind.Column? || kind.Row? ==> ParseNode(tokens, pos, word) == ParseContainer(tokens, pos, kind)
    ensures kind.Text? ==> ParseNode(tokens, pos, word) == ParseText(tokens, pos)
    ensures kind.Input? || kind.Spacer? ==> ParseNode(tokens, pos, word) == ParseInline(tokens, pos, kind)
    ensures kind.Button? ==> ParseNode(tokens, pos, word) == ParseButton(tokens, pos)
  {
    hide ParseContainer, ParseText, ParseInline, ParseButton;
    kind := match word
      case "column" => Column
      case "row" => Row
      case "text" => Text
      case "input" => Input
      case "button" => Button
      case _ => Spacer;
  }

  lemma {:induction false} NodeDerives(tokens: seq<Token>, pos: nat, word: string) returns (t: NodeTree)
    requires pos <= |tokens| && ParseNode(tokens, pos, word).Ok?
    ensures Keyword(t) == word && Stands(tokens, pos, BodyTokens(t)) && Meaning(t).Some?
    ensures ParseNode(tokens, pos, word) == Ok((Meaning(t).value, pos + |BodyTokens(t)|))
    decreases |tokens| - pos, 2
  {
    hide ParseNode, ParseContainer, ParseText, ParseButton;
    var kind := KnownWord(tokens, pos, word);
    match kind
    case Column | Row => t := ContainerDerives(tokens, pos, kind);
    case Text => t := TextDerives(tokens, pos);
    case Input | Spacer =>
      var attrs := AttrsDerive(tokens, pos, map[]);
      t := InlineTree(kind, attrs);
    case _ => t := ButtonDerives(tokens, pos);
  }

  lemma {:induction false} NodesDerive(tokens: seq<Token>, pos: nat, nodes: seq<Node>) returns (items: seq<NodeTree>)
    requires pos <= |tokens| && ParseNodes(tokens, pos, nodes).Ok?
    ensures Stands(tokens, pos, NodesTokens(items)) && AtRBrace(tokens, pos + |NodesTokens(items)|)
    ensures Meanings(items).Some?
    ensures ParseNodes(tokens, pos, nodes) == Ok((nodes + Meanings(items).value, pos + |NodesTokens(items)| + 1))
    decreases |tokens| - pos, 0
  {
    hide ParseNodes, ParseNode, Meaning, Keyword, BodyTokens;
    if AtRBrace(tokens, pos) {
      NodesEnd(tokens, pos, nodes);
      items := [];
      assert nodes + [] == nodes;
    } else {
      NodesTurnBack(tokens, pos, nodes);
      var word := tokens[pos].name;
      var (node, end) := ParseNode(tokens, pos + 1, word).value;
      var t := NodeDerives(tokens, pos + 1, word);
      var rest := NodesDerive(tokens, end, nodes + [node]);
      items := [t] + rest;
      assert items[1..] == rest;
      StandsParts(tokens, pos, [Ident(word)], BodyTokens(t));
      StandsParts(tokens, pos, NodeTokens(t), NodesTokens(rest));
      assert nodes + [node] + Meanings(rest).value == nodes + Meanings(items).value;
    }
  }

  lemma ItemDerives(tokens: seq<Token>, pos: nat, doc: Document) returns (i: Item)
    requires pos <= |tokens| && !AtRBrace(tokens, pos) && ParseItems(tokens, pos, doc).Ok?
    ensures Stands(tokens, pos, ItemTokens(i)) && WithItem(i, doc).Some? && |ItemTokens(i)| > 0
    ensures ParseItems(tokens, pos, doc) == ParseItems(tokens, pos + |ItemTokens(i)|, WithItem(i, doc).value)
  {
    hide ParseItems, ParseNode, Meaning, Keyword, BodyTokens;
    ItemTurnBack(tokens, pos, doc);
    var word := tokens[pos].name;
    if word == "title" {
      i := TitleItem(tokens[pos + 1].value);
    } else {
      var t := NodeDerives(tokens, pos + 1, word);
      i := NodeItem(t);
      StandsParts(tokens, pos, [Ident(word)], BodyTokens(t));
    }
  }

  lemma {:induction false} ItemsDerive(tokens: seq<Token>, pos: nat, doc: Document) returns (items: seq<Item>)
    requires pos <= |tokens| && ParseItems(tokens, pos, doc).Ok?
    ensures Stands(tokens, pos, ItemsTokens(items)) && AtRBrace(tokens, pos + |ItemsTokens(items)|)
    ensures DocumentMeaning(items, doc) == Some(ParseItems(tokens, pos, doc).value.0)
    ensures pos + |ItemsTokens(items)| + 1 == ParseItems(tokens, pos, doc).value.1
    decreases |tokens| - pos
  {
    hide ParseItems, ItemTokens, WithItem;
    if AtRBrace(tokens, pos) {
      DocumentEnd(tokens, pos, doc);
      items := [];
    } else {
      var i := ItemDerives(tokens, pos, doc);
      var rest := ItemsDerive(tokens, pos + |ItemTokens(i)|, WithItem(i, doc).value);
      items := [i] + rest;
      assert items[0] == i && items[1..] == rest;
      StandsParts(tokens, pos, ItemTokens(i), ItemsTokens(rest));
    }
  }

  /** Every accepted token list has a derivation that means the parsed document. */
  lemma AcceptedIsDerived(tokens: seq<Token>) returns (items: seq<Item>)
    requires ParseDocument(tokens).Ok?
    ensures DocumentTokens(items) == tokens
    ensures DocumentMeaning(items, Document(None, [])) == Some(ParseDocument(tokens).value)
  {
    hide ParseItems, ItemsTokens, DocumentMeaning;
    items := ItemsDerive(tokens, 2, Document(None, []));
    BracesJoin(tokens, 1, ItemsTokens(items));
    StandsParts(tokens, 0, [Ident("page")], [LBrace] + ItemsTokens(items) + [RBrace]);
    var all := [Ident("page")] + ([LBrace] + ItemsTokens(items) + [RBrace]);
    assert all == DocumentTokens(items);
    forall k | 0 <= k < |all| ensures tokens[k] == all[k] {
      assert tokens[0 + k] == all[k];
    }
  }

  /** The parser is exact: it returns a document for a token list precisely when some
      derivation yields those tokens and means that document. */
  lemma ParserIsExact(tokens: seq<Token>, doc: Document)
    ensures ParseDocument(tokens) == Ok(doc)
       <==> exists items :: DocumentTokens(items) == tokens && DocumentMeaning(items, Document(None, [])) == Some(doc)
  {
    if ParseDocument(tokens) == Ok(doc) {
      var items := AcceptedIsDerived(tokens);
    }
    if exists items :: DocumentTokens(items) == tokens && DocumentMeaning(items, Document(None, [])) == Some(doc) {
      var items :| DocumentTokens(items) == tokens && DocumentMeaning(items, Document(None, [])) == Some(doc);
      GrammarIsAccepted(items);
    }
  }
}
