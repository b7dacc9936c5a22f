// Printing surface documents. The documents the parser can build are characterised
// by a predicate, and each of them prints to text that parses back to it.

module SurfacePrint {
  import opened Prelude
  import opened Lexer
  import LexicalGrammar
  import opened TokenStream
  import opened Surface
  import opened SurfaceGrammar

  // ---- Documents the parser can build -----------------------------------

  predicate IdentifierKeys(props: map<string, string>) {
    forall k :: k in props ==> IsIdentifier(Dialect.Surface, k)
  }

  predicate BuildableNode(n: Node)
    decreases n, 0
  {
    match n.kind
    case Page => false
    case Column | Row => n.properties == map[] && BuildableNodes(n.children)
    case Text => n.children == [] && ("value" in n.properties || "bind" in n.properties) && IdentifierKeys(n.properties)
    case Input | Spacer => n.children == [] && IdentifierKeys(n.properties)
    case Button => n.children == [] && n.properties.Keys == {"label", "action"}
  }

  predicate BuildableNodes(nodes: seq<Node>) {
    nodes == [] || (BuildableNode(nodes[0]) && BuildableNodes(nodes[1..]))
  }

  // ---- Printing ---------------------------------------------------------

  /** The attributes of a map, in some order; identifier values go unquoted. */
  ghost function AttrsOf(props: map<string, string>): seq<Attr>
    decreases props.Keys
  {
    if props == map[] then []
    else
      var key :| key in props;
      [Attr(key, props[key], !IsIdentifier(Dialect.Surface, props[key]))] + AttrsOf(props - {key})
  }

  /** A text's value is written without its key. */
  ghost function TreeOf(n: Node): NodeTree
    requires BuildableNode(n)
    decreases n, 0
  {
    match n.kind
    case Column | Row => BoxTree(n.kind, TreesOf(n.children))
    case Text =>
      if "value" in n.properties then TextTree(Some(n.properties["value"]), AttrsOf(n.properties - {"value"}))
      else TextTree(None, AttrsOf(n.properties))
    case Input | Spacer => InlineTree(n.kind, AttrsOf(n.properties))
    case Button =>
      assert "label" in n.properties.Keys && "action" in n.properties.Keys;
      ButtonTree([Caption(n.properties["label"]), Action(n.properties["action"])])
  }

  ghost function TreesOf(nodes: seq<Node>): seq<NodeTree>
    requires BuildableNodes(nodes)
  {
    if nodes == [] then [] else [TreeOf(nodes[0])] + TreesOf(nodes[1..])
  }

  ghost function NodeItems(nodes: seq<Node>): seq<Item>
    requires BuildableNodes(nodes)
  {
    if nodes == [] then [] else [NodeItem(TreeOf(nodes[0]))] + NodeItems(nodes[1..])
  }

  ghost function ItemsOf(doc: Document): seq<Item>
    requires BuildableNodes(doc.children)
  {
    (if doc.title.Some? then [TitleItem(doc.title.value)] else []) + NodeItems(doc.children)
  }

  ghost function PrintDocument(doc: Document): string
    requires BuildableNodes(doc.children)
  {
    LexicalGrammar.Print(DocumentTokens(ItemsOf(doc)))
  }

  // ---- The printed derivation means the document ------------------------

  /** Attribute lists of a map mean the map, over whatever came before. */
  lemma {:induction false} AttrsMean(props: map<string, string>, before: map<string, string>)
    ensures AttrsMeaning(AttrsOf(props), before) == before + props
    decreases props.Keys
  {
    if props != map[] {
      var attrs := AttrsOf(props);
      var key := attrs[0].key;
      assert attrs[1..] == AttrsOf(props - {key});
      AttrsMean(props - {key}, before[key := props[key]]);
      assert before[key := props[key]] + (props - {key}) == before + props;
    }
  }

  lemma KeyedTextMeans(props: map<string, string>)
    ensures TextMeaning(None, AttrsOf(props)) == props
    ensures "value" in props ==> TextMeaning(Some(props["value"]), AttrsOf(props - {"value"})) == props
  {
    hide AttrsMeaning, AttrsOf;
    AttrsMean(props, map[]);
    AttrsMean(props - {"value"}, map[]);
    if "value" in props {
      assert map["value" := props["value"]] + (map[] + (props - {"value"})) == props;
    }
  }

  lemma TextMeans(n: Node)
    requires n.kind.Text? && BuildableNode(n)
    ensures Meaning(TreeOf(n)) == Some(n)
  {
    hide TextMeaning, AttrsOf, IdentifierKeys, BuildableNodes;
    KeyedTextMeans(n.properties);
  }

  lemma ButtonMeans(n: Node)
    requires n.kind.Button? && BuildableNode(n)
    ensures Meaning(TreeOf(n)) == Some(n)
  {
    assert "label" in n.properties.Keys && "action" in n.properties.Keys;
    var l, a := n.properties["label"], n.properties["action"];
    var props := [Caption(l), Action(a)];
    assert props[1..] == [Action(a)] && props[1..][1..] == [];
    assert ButtonMeaning(props, map[]) == ButtonMeaning(props[1..], map["label" := l])
        == ButtonMeaning(props[1..][1..], map["label" := l]["action" := a]);
    assert map["label" := l]["action" := a] == n.properties;
  }

  lemma {:induction false} TreeMeans(n: Node)
    requires BuildableNode(n)
    ensures Meaning(TreeOf(n)) == Some(n)
    decreases n, 0
  {
    match n.kind
    case Column | Row => TreesMean(n.children);
    case Text => TextMeans(n);
    case Input | Spacer =>
      AttrsMean(n.properties, map[]);
      assert map[] + n.properties == n.properties;
    case Button => ButtonMeans(n);
  }

  lemma {:induction false} TreesMean(nodes: seq<Node>)
    requires BuildableNodes(nodes)
    ensures Meanings(TreesOf(nodes)) == Some(nodes)
    decreases nodes, 0
  {
    hide Meaning, TreeOf, BuildableNode;
    if nodes != [] {
      TreeMeans(nodes[0]);
      TreesMean(nodes[1..]);
      assert TreesOf(nodes)[1..] == TreesOf(nodes[1..]);
      assert nodes == [nodes[0]] + nodes[1..];
    }
  }

  lemma FirstItemMeans(n: Node, rest: seq<Item>, doc: Document)
    requires BuildableNode(n)
    ensures DocumentMeaning([NodeItem(TreeOf(n))] + rest, doc) == DocumentMeaning(rest, doc.(children := doc.children + [n]))
  {
    hide TreeOf, Meaning, BuildableNode;
    TreeMeans(n);
    assert ([NodeItem(TreeOf(n))] + rest)[1..] == rest;
  }

  lemma {:induction false} NodeItemsMean(nodes: seq<Node>, doc: Document)
    requires BuildableNodes(nodes)
    ensures DocumentMeaning(NodeItems(nodes), doc) == Some(doc.(children := doc.children + nodes))
    decreases nodes
  {
    if nodes == [] {
      assert doc.children + [] == doc.children;
    } else {
      hide DocumentMeaning, TreeOf, BuildableNode;
      FirstItemMeans(nodes[0], NodeItems(nodes[1..]), doc);
      NodeItemsMean(nodes[1..], doc.(children := doc.children + [nodes[0]]));
      assert doc.children + [nodes[0]] + nodes[1..] == doc.children + nodes;
    }
  }

  lemma ItemsMean(doc: Document)
    requires BuildableNodes(doc.children)
    ensures DocumentMeaning(ItemsOf(doc), Document(None, [])) == Some(doc)
  {
    var items, nodes := ItemsOf(doc), NodeItems(doc.children);
    NodeItemsMean(doc.children, Document(doc.title, []));
    assert [] + doc.children == doc.children;
    if doc.title.Some? {
      assert items[1..] == nodes;
    } else {
      assert items == nodes;
    }
  }

  // ---- Printed tokens are readable --------------------------------------

  predicate Readable(ts: seq<Token>) {
    Printable(Dialect.Surface, ts)
  }

  lemma ReadableConcat(a: seq<Token>, b: seq<Token>)
    ensures Readable(a + b) <==> Readable(a) && Readable(b)
  {
    assert forall k :: 0 <= k < |a| ==> (a + b)[k] == a[k];
    assert forall k :: 0 <= k < |b| ==> (a + b)[|a| + k] == b[k];
  }

  lemma WordsAreIdentifiers(kind: Kind)
    ensures IsIdentifier(Dialect.Surface, KindWord(kind)) && IsIdentifier(Dialect.Surface, "title")
    ensures IsIdentifier(Dialect.Surface, "label") && IsIdentifier(Dialect.Surface, "action")
  {
  }

  lemma {:induction false} AttrsReadable(props: map<string, string>)
    requires IdentifierKeys(props)
    ensures Readable(AttrsTokens(AttrsOf(props)))
    decreases props.Keys
  {
    if props != map[] {
      var attrs := AttrsOf(props);
      assert attrs[1..] == AttrsOf(props - {attrs[0].key});
      AttrsReadable(props - {attrs[0].key});
      ReadableConcat(AttrTokens(attrs[0]), AttrsTokens(attrs[1..]));
    }
  }

  lemma {:induction false} ButtonPropsReadable(props: seq<ButtonProp>)
    ensures Readable(ButtonPropsTokens(props))
  {
    WordsAreIdentifiers(Page);
    if props != [] {
      ButtonPropsReadable(props[1..]);
      ReadableConcat(ButtonPropTokens(props[0]), ButtonPropsTokens(props[1..]));
    }
  }

  lemma BracesReadable(inside: seq<Token>)
    requires Readable(inside)
    ensures Readable([LBrace] + inside + [RBrace])
  {
    ReadableConcat([LBrace], inside);
    ReadableConcat([LBrace] + inside, [RBrace]);
  }

  lemma TextReadable(n: Node)
    requires n.kind.Text? && BuildableNode(n)
    ensures Readable(BodyTokens(TreeOf(n)))
  {
    var t := TreeOf(n);
    if t.positional.Some? {
      AttrsReadable(n.properties - {"value"});
      ReadableConcat([Str(t.positional.value)], AttrsTokens(t.attrs));
    } else {
      AttrsReadable(n.properties);
      ReadableConcat([], AttrsTokens(t.attrs));
    }
  }

  lemma {:induction false} NodeReadable(n: Node)
    requires BuildableNode(n)
    ensures Readable(NodeTokens(TreeOf(n)))
    decreases n, 1
  {
    var t := TreeOf(n);
    match n.kind {
      case Column | Row =>
        NodesReadable(n.children);
        BracesReadable(NodesTokens(t.items));
      case Text => TextReadable(n);
      case Input | Spacer => AttrsReadable(n.properties);
      case Button =>
        ButtonPropsReadable(t.buttonProps);
        BracesReadable(ButtonPropsTokens(t.buttonProps));
    }
    WordsAreIdentifiers(KindOf(t));
    ReadableConcat([Ident(Keyword(t))], BodyTokens(t));
  }

  lemma {:induction false} NodesReadable(nodes: seq<Node>)
    requires BuildableNodes(nodes)
    ensures Readable(NodesTokens(TreesOf(nodes)))
    decreases nodes, 0
  {
    if nodes != [] {
      var trees := TreesOf(nodes);
      assert trees[1..] == TreesOf(nodes[1..]);
      NodeReadable(nodes[0]);
      NodesReadable(nodes[1..]);
      ReadableConcat(NodeTokens(trees[0]), NodesTokens(trees[1..]));
    }
  }

  lemma {:induction false} NodeItemsReadable(nodes: seq<Node>)
    requires BuildableNodes(nodes)
    ensures Readable(ItemsTokens(NodeItems(nodes)))
  {
    if nodes != [] {
      var items := NodeItems(nodes);
      assert items[1..] == NodeItems(nodes[1..]);
      NodeReadable(nodes[0]);
      NodeItemsReadable(nodes[1..]);
      ReadableConcat(ItemTokens(items[0]), ItemsTokens(items[1..]));
    }
  }

  lemma HeadsReadable(title: string)
    ensures Readable([Ident("page")]) && Readable([Ident("title"), Str(title)]) && Readable([])
  {
    WordsAreIdentifiers(Page);
  }

  lemma DocumentReadable(doc: Document)
    requires BuildableNodes(doc.children)
    ensures Readable(DocumentTokens(ItemsOf(doc)))
  {
    hide Readable, BuildableNodes, NodeItems;
    var items, nodes := ItemsOf(doc), NodeItems(doc.children);
    HeadsReadable(if doc.title.Some? then doc.title.value else "");
    NodeItemsReadable(doc.children);
    if doc.title.Some? {
      assert items[1..] == nodes;
      ReadableConcat(ItemTokens(items[0]), ItemsTokens(nodes));
    } else {
      assert items == nodes;
    }
    BracesReadable(ItemsTokens(items));
    ReadableConcat([Ident("page")], [LBrace] + ItemsTokens(items) + [RBrace]);
    assert DocumentTokens(items) == [Ident("page")] + ([LBrace] + ItemsTokens(items) + [RBrace]);
  }

  // ---- From text to document --------------------------------------------

  /** `pieces` spell the text, `items` derive the tokens they denote and mean the document. */
  ghost predicate Derives(pieces: seq<LexicalGrammar.Piece>, items: seq<Item>, source: string, doc: Document) {
    && LexicalGrammar.Spelled(Dialect.Surface, pieces)
    && LexicalGrammar.Text(pieces) == source
    && LexicalGrammar.Tokens(Dialect.Surface, pieces) == DocumentTokens(items)
    && DocumentMeaning(items, Document(None, [])) == Some(doc)
  }

  /** The whole parser is exact: a text parses to a document precisely when it is
      spelled by pieces whose tokens derive that document. */
  lemma SourceIsExact(source: string, doc: Document)
    ensures ParseSurface(source) == Ok(doc) <==> exists pieces, items :: Derives(pieces, items, source, doc)
  {
    hide DocumentMeaning, DocumentTokens, ParseDocument;
    if ParseSurface(source) == Ok(doc) {
      var tokens := TokensFrom(Dialect.Surface, source, 0).value;
      LexicalGrammar.TokenizerIsExact(Dialect.Surface, source, tokens);
      var pieces :| LexicalGrammar.Spelled(Dialect.Surface, pieces) && LexicalGrammar.Text(pieces) == source
                    && LexicalGrammar.Tokens(Dialect.Surface, pieces) == tokens;
      var items := AcceptedIsDerived(tokens);
      assert Derives(pieces, items, source, doc);
    }
    forall pieces, items | Derives(pieces, items, source, doc) ensures ParseSurface(source) == Ok(doc) {
      LexicalGrammar.TokenizerIsExact(Dialect.Surface, source, DocumentTokens(items));
      GrammarIsAccepted(items);
    }
  }

  // ---- Round trip -------------------------------------------------------

  /** The text of any readable derivation parses to what the derivation means,
      whichever way its values are quoted and its properties ordered or repeated. */
  lemma PrintedDerivationParses(items: seq<Item>)
    requires Readable(DocumentTokens(items)) && DocumentMeaning(items, Document(None, [])).Some?
    ensures ParseSurface(LexicalGrammar.Print(DocumentTokens(items))) == Ok(DocumentMeaning(items, Document(None, [])).value)
  {
    LexicalGrammar.PrintReadsBack(Dialect.Surface, DocumentTokens(items));
    GrammarIsAccepted(items);
  }

  /** Every buildable document survives printing and parsing. */
  lemma RoundTrip(doc: Document)
    requires BuildableNodes(doc.children)
    ensures ParseSurface(PrintDocument(doc)) == Ok(doc)
  {
    DocumentReadable(doc);
    ItemsMean(doc);
    PrintedDerivationParses(ItemsOf(doc));
  }

  // ---- Parsed documents are buildable -----------------------------------

  lemma {:induction false} AttrKeys(attrs: seq<Attr>, before: map<string, string>)
    requires Readable(AttrsTokens(attrs)) && IdentifierKeys(before)
    ensures IdentifierKeys(AttrsMeaning(attrs, before))
    decreases attrs
  {
    if attrs != [] {
      ReadableConcat(AttrTokens(attrs[0]), AttrsTokens(attrs[1..]));
      assert AttrTokens(attrs[0])[0] == Ident(attrs[0].key);
      AttrKeys(attrs[1..], before[attrs[0].key := attrs[0].value]);
    }
  }

  lemma {:induction false} ButtonKeys(props: seq<ButtonProp>, before: map<string, string>)
    requires before.Keys <= {"label", "action"}
    ensures ButtonMeaning(props, before).Keys <= {"label", "action"}
    decreases props
  {
    if props != [] {
      ButtonKeys(props[1..], before[ButtonKey(props[0]) := props[0].text]);
    }
  }

  lemma TextBuildable(positional: Option<string>, attrs: seq<Attr>)
    requires Readable(AttrsTokens(attrs))
    ensures IdentifierKeys(TextMeaning(positional, attrs))
  {
    AttrKeys(attrs, map[]);
    assert IsIdentifier(Dialect.Surface, "value");
  }

  lemma {:induction false} NodeBuildable(t: NodeTree)
    requires Meaning(t).Some? && Readable(BodyTokens(t))
    ensures BuildableNode(Meaning(t).value)
    decreases t, 0
  {
    match t
    case BoxTree(_, items) =>
      ReadableConcat([LBrace], NodesTokens(items));
      ReadableConcat([LBrace] + NodesTokens(items), [RBrace]);
      NodesBuildable(items);
    case TextTree(positional, attrs) =>
      ReadableConcat(if positional.Some? then [Str(positional.value)] else [], AttrsTokens(attrs));
      TextBuildable(positional, attrs);
    case InlineTree(_, attrs) => AttrKeys(attrs, map[]);
    case ButtonTree(props) =>
      var m := ButtonMeaning(props, map[]);
      ButtonKeys(props, map[]);
      assert "label" in m.Keys && "action" in m.Keys;
  }

  lemma {:induction false} NodesBuildable(items: seq<NodeTree>)
    requires Meanings(items).Some? && Readable(NodesTokens(items))
    ensures BuildableNodes(Meanings(items).value)
    decreases items, 0
  {
    if items != [] {
      ReadableConcat(NodeTokens(items[0]), NodesTokens(items[1..]));
      ReadableConcat([Ident(Keyword(items[0]))], BodyTokens(items[0]));
      NodeBuildable(items[0]);
      NodesBuildable(items[1..]);
      assert Meanings(items).value[1..] == Meanings(items[1..]).value;
    }
  }

  lemma {:induction false} BuildableSnoc(nodes: seq<Node>, n: Node)
    requires BuildableNodes(nodes) && BuildableNode(n)
    ensures BuildableNodes(nodes + [n])
    decreases nodes
  {
    if nodes != [] {
      BuildableSnoc(nodes[1..], n);
      assert (nodes + [n])[1..] == nodes[1..] + [n];
    }
  }

  lemma ItemBuildable(i: Item, doc: Document)
    requires Readable(ItemTokens(i)) && WithItem(i, doc).Some? && BuildableNodes(doc.children)
    ensures BuildableNodes(WithItem(i, doc).value.children)
  {
    hide BuildableNode;
    if i.NodeItem? {
      ReadableConcat([Ident(Keyword(i.node))], BodyTokens(i.node));
      NodeBuildable(i.node);
      BuildableSnoc(doc.children, Meaning(i.node).value);
    }
  }

  lemma {:induction false} ItemsBuildable(items: seq<Item>, doc: Document)
    requires Readable(ItemsTokens(items)) && DocumentMeaning(items, doc).Some? && BuildableNodes(doc.children)
    ensures BuildableNodes(DocumentMeaning(items, doc).value.children)
    decreases items
  {
    hide WithItem, BuildableNodes, ItemTokens;
    if items != [] {
      ReadableConcat(ItemTokens(items[0]), ItemsTokens(items[1..]));
      ItemBuildable(items[0], doc);
      ItemsBuildable(items[1..], WithItem(items[0], doc).value);
    }
  }

  /** Every document the parser returns is buildable. */
  lemma ParsedIsBuildable(source: string)
    requires ParseSurface(source).Ok?
    ensures BuildableNodes(ParseSurface(source).value.children)
  {
    hide ItemsTokens, DocumentMeaning, ParseDocument;
    var tokens := TokensFrom(Dialect.Surface, source, 0).value;
    LexedPrintable(Dialect.Surface, source, 0);
    var items := AcceptedIsDerived(tokens);
    ReadableConcat([Ident("page"), LBrace] + ItemsTokens(items), [RBrace]);
    ReadableConcat([Ident("page"), LBrace], ItemsTokens(items));
    ItemsBuildable(items, Document(None, []));
  }

  /** The buildable documents are exactly those that some text parses to. */
  lemma BuildableIffParsed(doc: Document)
    ensures BuildableNodes(doc.children) <==> exists source :: ParseSurface(source) == Ok(doc)
  {
    if BuildableNodes(doc.children) {
      RoundTrip(doc);
    }
    forall source | ParseSurface(source) == Ok(doc) ensures BuildableNodes(doc.children) {
      ParsedIsBuildable(source);
    }
  }
}
