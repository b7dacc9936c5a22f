// Printing VOID UI pages. A page prints to text that parses back to the page with
// each button's action as its URI reads; that is the page itself exactly when no
// action has a `?` in its path.

module VoidUiPrint {
  import opened Prelude
  import opened Uri
  import opened Lexer
  import LexicalGrammar
  import opened TokenStream
  import opened VoidUi
  import opened VoidUiGrammar

  // ---- Printing ---------------------------------------------------------

  function TreeOf(n: Node): NodeTree
    decreases n, 0
  {
    match n
    case Box(kind, children) => BoxTree(kind, TreesOf(children))
    case Text(s) => TextTree(s)
    case Button(caption, action) => ButtonTree([Caption(caption), Action(Display(action))])
    case Input(id, placeholder, secure) =>
      InputTree(if placeholder.Some? then [Id(id), Placeholder(placeholder.value), Secure(secure)] else [Id(id), Secure(secure)])
  }

  function TreesOf(nodes: seq<Node>): seq<NodeTree> {
    if nodes == [] then [] else [TreeOf(nodes[0])] + TreesOf(nodes[1..])
  }

  function NodeItems(nodes: seq<Node>): seq<PageItem> {
    if nodes == [] then [] else [NodeItem(TreeOf(nodes[0]))] + NodeItems(nodes[1..])
  }

  function ItemsOf(page: Page): seq<PageItem> {
    (if page.title.Some? then [TitleItem(page.title.value)] else []) + NodeItems(page.children)
  }

  function PrintPage(page: Page): string {
    LexicalGrammar.Print(PageTokens(ItemsOf(page)))
  }

  // ---- Pages and their reading ------------------------------------------

  /** Every action was built by the URI constructor. */
  predicate WellBuiltNode(n: Node)
    decreases n, 0
  {
    match n
    case Box(_, children) => WellBuiltNodes(children)
    case Button(_, action) => WellBuilt(action)
    case _ => true
  }

  predicate WellBuiltNodes(nodes: seq<Node>) {
    nodes == [] || (WellBuiltNode(nodes[0]) && WellBuiltNodes(nodes[1..]))
  }

  /** No action has a `?` in its path. */
  predicate CleanNode(n: Node)
    decreases n, 0
  {
    match n
    case Box(_, children) => CleanNodes(children)
    case Button(_, action) => '?' !in action.path
    case _ => true
  }

  predicate CleanNodes(nodes: seq<Node>) {
    nodes == [] || (CleanNode(nodes[0]) && CleanNodes(nodes[1..]))
  }

  /** The node with every action as it reads after printing. */
  function ReadNode(n: Node): Node
    decreases n, 0
  {
    match n
    case Box(kind, children) => Box(kind, ReadNodes(children))
    case Button(caption, action) => Button(caption, Reparsed(action))
    case _ => n
  }

  function ReadNodes(nodes: seq<Node>): (r: seq<Node>)
    ensures |r| == |nodes|
  {
    if nodes == [] then [] else [ReadNode(nodes[0])] + ReadNodes(nodes[1..])
  }

  lemma {:induction false} ReadNodeSame(n: Node)
    ensures ReadNode(n) == n <==> CleanNode(n)
    decreases n, 0
  {
    if n.Box? {
      ReadNodesSame(n.children);
    }
  }

  lemma {:induction false} ReadNodesSame(nodes: seq<Node>)
    ensures ReadNodes(nodes) == nodes <==> CleanNodes(nodes)
    decreases nodes, 0
  {
    if nodes != [] {
      ReadNodeSame(nodes[0]);
      ReadNodesSame(nodes[1..]);
      var r := ReadNodes(nodes);
      assert r[0] == ReadNode(nodes[0]) && r[1..] == ReadNodes(nodes[1..]);
      assert nodes == [nodes[0]] + nodes[1..];
    }
  }

  // ---- The printed derivation means the read page -----------------------

  lemma ButtonMeans(caption: string, action: VoidUri)
    requires WellBuilt(action)
    ensures Meaning(ButtonTree([Caption(caption), Action(Display(action))])) == Some(Button(caption, Reparsed(action)))
  {
    var props := [Caption(caption), Action(Display(action))];
    PrintThenParse(action);
    assert props[1..] == [Action(Display(action))] && props[1..][1..] == [];
    assert LastCaption(props, None) == LastCaption(props[1..], Some(caption)) == LastCaption(props[1..][1..], Some(caption));
    assert LastAction(props, None) == LastAction(props[1..], None) == LastAction(props[1..][1..], Some(Display(action)));
  }

  lemma InputMeans(id: string, placeholder: Option<string>, secure: bool)
    ensures Meaning(TreeOf(Input(id, placeholder, secure))) == Some(Input(id, placeholder, secure))
  {
    var props := TreeOf(Input(id, placeholder, secure)).inputProps;
    var start, named := InputState(None, None, false), InputState(Some(id), None, false);
    var last := named.(placeholder := placeholder);
    assert LastInput(props, start) == LastInput(props[1..], named);
    if placeholder.Some? {
      assert props[1..][1..] == [Secure(secure)] && props[1..][1..][1..] == [];
      assert LastInput(props[1..], named) == LastInput([Secure(secure)], last);
    }
    assert [Secure(secure)][1..] == [];
    assert LastInput([Secure(secure)], last) == LastInput([], last.(secure := secure));
  }

  lemma {:induction false} TreeMeans(n: Node)
    requires WellBuiltNode(n)
    ensures Meaning(TreeOf(n)) == Some(ReadNode(n))
    decreases n, 0
  {
    match n
    case Box(_, children) => TreesMean(children);
    case Text(_) =>
    case Button(caption, action) => ButtonMeans(caption, action);
    case Input(id, placeholder, secure) => InputMeans(id, placeholder, secure);
  }

  lemma {:induction false} TreesMean(nodes: seq<Node>)
    requires WellBuiltNodes(nodes)
    ensures Meanings(TreesOf(nodes)) == Some(ReadNodes(nodes))
    decreases nodes, 0
  {
    hide Meaning, TreeOf, ReadNode, WellBuiltNode;
    if nodes != [] {
      TreeMeans(nodes[0]);
      TreesMean(nodes[1..]);
      assert TreesOf(nodes)[1..] == TreesOf(nodes[1..]);
    }
  }

  lemma FirstItemMeans(n: Node, rest: seq<PageItem>, page: Page)
    requires WellBuiltNode(n)
    ensures PageMeaning([NodeItem(TreeOf(n))] + rest, page)
         == PageMeaning(rest, page.(children := page.children + [ReadNode(n)]))
  {
    hide TreeOf, Meaning, ReadNode, WellBuiltNode;
    TreeMeans(n);
    assert ([NodeItem(TreeOf(n))] + rest)[1..] == rest;
  }

  lemma {:induction false} NodeItemsMean(nodes: seq<Node>, page: Page)
    requires WellBuiltNodes(nodes)
    ensures PageMeaning(NodeItems(nodes), page) == Some(page.(children := page.children + ReadNodes(nodes)))
    decreases nodes
  {
    if nodes == [] {
      assert page.children + [] == page.children;
    } else {
      hide PageMeaning, TreeOf, ReadNode, WellBuiltNode;
      FirstItemMeans(nodes[0], NodeItems(nodes[1..]), page);
      var next := page.(children := page.children + [ReadNode(nodes[0])]);
      NodeItemsMean(nodes[1..], next);
      assert next.children + ReadNodes(nodes[1..]) == page.children + ReadNodes(nodes);
    }
  }

  lemma ItemsMean(page: Page)
    requires WellBuiltNodes(page.children)
    ensures PageMeaning(ItemsOf(page), Page(None, [])) == Some(Page(page.title, ReadNodes(page.children)))
  {
    var items, nodes := ItemsOf(page), NodeItems(page.children);
    var start := Page(page.title, []);
    NodeItemsMean(page.children, start);
    assert [] + ReadNodes(page.children) == ReadNodes(page.children);
    if page.title.Some? {
      assert items[1..] == nodes;
    } else {
      assert items == nodes;
    }
  }

  // ---- Printed tokens are readable --------------------------------------

  lemma PrintableConcat(a: seq<Token>, b: seq<Token>)
    requires Printable(Dialect.VoidUi, a) && Printable(Dialect.VoidUi, b)
    ensures Printable(Dialect.VoidUi, a + b)
  {
  }

  lemma WordsAreIdentifiers(t: NodeTree)
    ensures IsIdentifier(Dialect.VoidUi, Keyword(t))
    ensures IsIdentifier(Dialect.VoidUi, "page") && IsIdentifier(Dialect.VoidUi, "title")
  {
  }

  lemma PropWords()
    ensures IsIdentifier(Dialect.VoidUi, "label") && IsIdentifier(Dialect.VoidUi, "action")
    ensures IsIdentifier(Dialect.VoidUi, "id") && IsIdentifier(Dialect.VoidUi, "placeholder") && IsIdentifier(Dialect.VoidUi, "secure")
    ensures IsIdentifier(Dialect.VoidUi, "true") && IsIdentifier(Dialect.VoidUi, "false")
  {
  }

  lemma {:induction false} ButtonPropsPrintable(props: seq<ButtonProp>)
    ensures Printable(Dialect.VoidUi, ButtonPropsTokens(props))
  {
    PropWords();
    if props != [] {
      ButtonPropsPrintable(props[1..]);
      PrintableConcat(ButtonPropTokens(props[0]), ButtonPropsTokens(props[1..]));
    }
  }

  lemma {:induction false} InputPropsPrintable(props: seq<InputProp>)
    ensures Printable(Dialect.VoidUi, InputPropsTokens(props))
  {
    PropWords();
    if props != [] {
      InputPropsPrintable(props[1..]);
      PrintableConcat(InputPropTokens(props[0]), InputPropsTokens(props[1..]));
    }
  }

  lemma {:induction false} NodePrintable(t: NodeTree)
    ensures Printable(Dialect.VoidUi, NodeTokens(t))
    decreases t, 1
  {
    WordsAreIdentifiers(t);
    match t
    case BoxTree(_, items) => ItemsPrintable(items);
    case TextTree(_) =>
    case ButtonTree(props) => ButtonPropsPrintable(props);
    case InputTree(props) => InputPropsPrintable(props);
  }

  lemma {:induction false} ItemsPrintable(items: seq<NodeTree>)
    ensures Printable(Dialect.VoidUi, ItemsTokens(items))
    decreases items, 0
  {
    if items != [] {
      NodePrintable(items[0]);
      ItemsPrintable(items[1..]);
      PrintableConcat(NodeTokens(items[0]), ItemsTokens(items[1..]));
    }
  }

  lemma {:induction false} PageItemsPrintable(items: seq<PageItem>)
    ensures Printable(Dialect.VoidUi, PageItemsTokens(items))
  {
    if items != [] {
      PageItemsPrintable(items[1..]);
      WordsAreIdentifiers(TextTree(""));
      if items[0].NodeItem? {
        NodePrintable(items[0].node);
      }
      PrintableConcat(PageItemTokens(items[0]), PageItemsTokens(items[1..]));
    }
  }

  // ---- From text to page ------------------------------------------------

  /** `pieces` spell the text, `items` derive the tokens they denote and mean the page. */
  ghost predicate Derives(pieces: seq<LexicalGrammar.Piece>, items: seq<PageItem>, source: string, page: Page) {
    && LexicalGrammar.Spelled(Dialect.VoidUi, pieces)
    && LexicalGrammar.Text(pieces) == source
    && LexicalGrammar.Tokens(Dialect.VoidUi, pieces) == PageTokens(items)
    && PageMeaning(items, Page(None, [])) == Some(page)
  }

  /** The whole parser is exact: a text parses to a page precisely when it is spelled
      by pieces whose tokens derive that page. */
  lemma SourceIsExact(source: string, page: Page)
    ensures ParseVoidUi(source) == Ok(page) <==> exists pieces, items :: Derives(pieces, items, source, page)
  {
    hide PageMeaning, PageTokens, ParsePage;
    if ParseVoidUi(source) == Ok(page) {
      var tokens := TokensFrom(Dialect.VoidUi, source, 0).value;
      LexicalGrammar.TokenizerIsExact(Dialect.VoidUi, source, tokens);
      var pieces :| LexicalGrammar.Spelled(Dialect.VoidUi, pieces) && LexicalGrammar.Text(pieces) == source
                    && LexicalGrammar.Tokens(Dialect.VoidUi, pieces) == tokens;
      var items := AcceptedIsDerived(tokens);
      assert Derives(pieces, items, source, page);
    }
    forall pieces, items | Derives(pieces, items, source, page) ensures ParseVoidUi(source) == Ok(page) {
      LexicalGrammar.TokenizerIsExact(Dialect.VoidUi, source, PageTokens(items));
      GrammarIsAccepted(items);
    }
  }

  // ---- Round trip -------------------------------------------------------

  /** The printed text of any page parses, to the page with its actions as read. */
  lemma PrintedPageParses(page: Page)
    requires WellBuiltNodes(page.children)
    ensures ParseVoidUi(PrintPage(page)) == Ok(Page(page.title, ReadNodes(page.children)))
  {
    var items := ItemsOf(page);
    var tokens := PageTokens(items);
    PageItemsPrintable(items);
    WordsAreIdentifiers(TextTree(""));
    PrintableConcat([Ident("page"), LBrace], PageItemsTokens(items));
    PrintableConcat([Ident("page"), LBrace] + PageItemsTokens(items), [RBrace]);
    LexicalGrammar.PrintReadsBack(Dialect.VoidUi, tokens);
    ItemsMean(page);
    GrammarIsAccepted(items);
  }

  /** A page survives printing and parsing exactly when no button action has a `?`
      in its path. */
  lemma PageRoundTripIff(page: Page)
    requires WellBuiltNodes(page.children)
    ensures ParseVoidUi(PrintPage(page)) == Ok(page) <==> CleanNodes(page.children)
  {
    PrintedPageParses(page);
    ReadNodesSame(page.children);
  }

  // ---- Parsed pages are canonical ---------------------------------------

  lemma {:induction false} ParsedNodeClean(t: NodeTree)
    requires Meaning(t).Some?
    ensures WellBuiltNode(Meaning(t).value) && CleanNode(Meaning(t).value)
    decreases t, 0
  {
    match t
    case BoxTree(_, items) => ParsedNodesClean(items);
    case ButtonTree(props) => ParsedIsCanonical(LastAction(props, None).value);
    case _ =>
  }

  lemma {:induction false} ParsedNodesClean(items: seq<NodeTree>)
    requires Meanings(items).Some?
    ensures WellBuiltNodes(Meanings(items).value) && CleanNodes(Meanings(items).value)
    decreases items, 0
  {
    if items != [] {
      ParsedNodeClean(items[0]);
      ParsedNodesClean(items[1..]);
      assert Meanings(items).value[1..] == Meanings(items[1..]).value;
    }
  }

  lemma CleanSnoc(nodes: seq<Node>, n: Node)
    requires WellBuiltNodes(nodes) && CleanNodes(nodes) && WellBuiltNode(n) && CleanNode(n)
    ensures WellBuiltNodes(nodes + [n]) && CleanNodes(nodes + [n])
    decreases nodes
  {
    if nodes != [] {
      CleanSnoc(nodes[1..], n);
      assert (nodes + [n])[1..] == nodes[1..] + [n];
    }
  }

  lemma {:induction false} MeantPageClean(items: seq<PageItem>, page: Page)
    requires PageMeaning(items, page).Some? && WellBuiltNodes(page.children) && CleanNodes(page.children)
    ensures var r := PageMeaning(items, page).value.children; WellBuiltNodes(r) && CleanNodes(r)
    decreases items
  {
    if items != [] {
      if items[0].NodeItem? {
        ParsedNodeClean(items[0].node);
        CleanSnoc(page.children, Meaning(items[0].node).value);
      }
      MeantPageClean(items[1..], WithItem(items[0], page).value);
    }
  }

  /** Every page the parser produces survives printing and parsing. */
  lemma ParsedPageRoundTrips(source: string)
    requires ParseVoidUi(source).Ok?
    ensures ParseVoidUi(PrintPage(ParseVoidUi(source).value)) == ParseVoidUi(source)
  {
    var tokens := TokensFrom(Dialect.VoidUi, source, 0).value;
    var items := AcceptedIsDerived(tokens);
    MeantPageClean(items, Page(None, []));
    PageRoundTripIff(ParseVoidUi(source).value);
  }
}
