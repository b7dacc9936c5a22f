// The grammar of VOID UI, independent of the parser: derivation trees, the tokens
// they yield and the page they mean. The parser accepts exactly the grammar, and
// printing a page and parsing the text gives the page back.

module VoidUiGrammar {
  import opened Prelude
  import opened Uri
  import opened Lexer
  import opened TokenStream
  import opened VoidUi

  // ---- Derivations ------------------------------------------------------

  datatype ButtonProp = Caption(text: string) | Action(text: string)

  datatype InputProp = Id(text: string) | Placeholder(text: string) | Secure(flag: bool)

  datatype NodeTree =
    | BoxTree(kind: Kind, items: seq<NodeTree>)
    | TextTree(text: string)
    | ButtonTree(buttonProps: seq<ButtonProp>)
    | InputTree(inputProps: seq<InputProp>)

  datatype PageItem = TitleItem(text: string) | NodeItem(node: NodeTree)

  // ---- Tokens of a derivation -------------------------------------------

  function KindWord(kind: Kind): string {
    match kind
    case Column => "column"
    case Row => "row"
    case Panel => "panel"
    case List => "list"
    case Item => "item"
  }

  function Keyword(t: NodeTree): string {
    match t
    case BoxTree(kind, _) => KindWord(kind)
    case TextTree(_) => "text"
    case ButtonTree(_) => "button"
    case InputTree(_) => "input"
  }

  function ButtonPropTokens(p: ButtonProp): seq<Token> {
    match p
    case Caption(s) => [Ident("label"), Str(s)]
    case Action(s) => [Ident("action"), Str(s)]
  }

  function ButtonPropsTokens(props: seq<ButtonProp>): seq<Token> {
    if props == [] then [] else ButtonPropTokens(props[0]) + ButtonPropsTokens(props[1..])
  }

  function InputPropTokens(p: InputProp): seq<Token> {
    match p
    case Id(s) => [Ident("id"), Str(s)]
    case Placeholder(s) => [Ident("placeholder"), Str(s)]
    case Secure(b) => [Ident("secure"), Ident(if b then "true" else "false")]
  }

  function InputPropsTokens(props: seq<InputProp>): seq<Token> {
    if props == [] then [] else InputPropTokens(props[0]) + InputPropsTokens(props[1..])
  }

  /** The tokens after a node's keyword. */
  function BodyTokens(t: NodeTree): seq<Token>
    decreases t, 0
  {
    match t
    case BoxTree(_, items) => [LBrace] + ItemsTokens(items) + [RBrace]
    case TextTree(s) => [Str(s)]
    case ButtonTree(props) => [LBrace] + ButtonPropsTokens(props) + [RBrace]
    case InputTree(props) => [LBrace] + InputPropsTokens(props) + [RBrace]
  }

  function NodeTokens(t: NodeTree): seq<Token>
    decreases t, 1
  {
    [Ident(Keyword(t))] + BodyTokens(t)
  }

  function ItemsTokens(items: seq<NodeTree>): seq<Token> {
    if items == [] then [] else NodeTokens(items[0]) + ItemsTokens(items[1..])
  }

  function PageItemTokens(i: PageItem): seq<Token> {
    match i
    case TitleItem(s) => [Ident("title"), Str(s)]
    case NodeItem(t) => NodeTokens(t)
  }

  function PageItemsTokens(items: seq<PageItem>): seq<Token> {
    if items == [] then [] else PageItemTokens(items[0]) + PageItemsTokens(items[1..])
  }

  function PageTokens(items: seq<PageItem>): seq<Token> {
    [Ident("page"), LBrace] + PageItemsTokens(items) + [RBrace]
  }

  // ---- Meaning of a derivation ------------------------------------------

  /** The last caption and the last action. */
  function LastCaption(props: seq<ButtonProp>, before: Option<string>): Option<string> {
    if props == [] then before
    else LastCaption(props[1..], if props[0].Caption? then Some(props[0].text) else before)
  }

  function LastAction(props: seq<ButtonProp>, before: Option<string>): Option<string> {
    if props == [] then before
    else LastAction(props[1..], if props[0].Action? then Some(props[0].text) else before)
  }

  /** Later properties replace earlier ones. */
  function LastInput(props: seq<InputProp>, st: InputState): InputState {
    if props == [] then st
    else LastInput(props[1..], WithInput(props[0], st))
  }

  /** The node a derivation stands for, unless a property is missing or an action is no URI. */
  function Meaning(t: NodeTree): Option<Node>
    decreases t, 0
  {
    match t
    case BoxTree(kind, items) => if Meanings(items).None? then None else Some(Box(kind, Meanings(items).value))
    case TextTree(s) => Some(Text(s))
    case ButtonTree(props) => ToOption(MakeButton(LastCaption(props, None), LastAction(props, None)))
    case InputTree(props) => ToOption(MakeInput(LastInput(props, InputState(None, None, false))))
  }

  function Meanings(items: seq<NodeTree>): (r: Option<seq<Node>>)
    ensures r.Some? ==> |r.value| == |items|
  {
    if items == [] then Some([])
    else if Meaning(items[0]).None? || Meanings(items[1..]).None? then None
    else Some([Meaning(items[0]).value] + Meanings(items[1..]).value)
  }

  /** The page after one more title or node; a later title replaces an earlier one. */
  function WithItem(i: PageItem, page: Page): Option<Page> {
    match i
    case TitleItem(s) => Some(page.(title := Some(s)))
    case NodeItem(t) => if Meaning(t).None? then None else Some(page.(children := page.children + [Meaning(t).value]))
  }

  function PageMeaning(items: seq<PageItem>, before: Page): Option<Page> {
    if items == [] then Some(before)
    else if WithItem(items[0], before).None? then None
    else PageMeaning(items[1..], WithItem(items[0], before).value)
  }

  lemma KindWords(kind: Kind)
    ensures KindNamed(KindWord(kind)) == Some(kind)
  {
  }

  /** The leaf keywords name no container, and "title" starts no node. */
  lemma Keywords(word: string)
    ensures KindNamed(word).Some? ==> KindWord(KindNamed(word).value) == word
    ensures KindNamed("text").None? && KindNamed("button").None? && KindNamed("input").None?
  {
  }

  lemma TitleIsNoKeyword(t: NodeTree)
    ensures Keyword(t) != "title"
  {
  }

  // ---- Single turns of the parsing loops --------------------------------

  lemma NodesEnd(tokens: seq<Token>, pos: nat, nodes: seq<Node>)
    requires AtRBrace(tokens, pos)
    ensures ParseNodes(tokens, pos, nodes) == Ok((nodes, pos + 1))
  {
  }

  lemma PageEnd(tokens: seq<Token>, pos: nat, page: Page)
    requires AtRBrace(tokens, pos)
    ensures ParsePageItems(tokens, pos, page) == Ok((page, pos + 1))
  {
  }

  lemma NodesTurn(tokens: seq<Token>, pos: nat, nodes: seq<Node>, word: string, node: Node, end: nat)
    requires pos < |tokens| && tokens[pos] == Ident(word) && ParseNode(tokens, pos + 1, word) == Ok((node, end))
    ensures ParseNodes(tokens, pos, nodes) == ParseNodes(tokens, end, nodes + [node])
  {
    hide ParseNode;
  }

  lemma NodesTurnBack(tokens: seq<Token>, pos: nat, nodes: seq<Node>)
    requires pos <= |tokens| && !AtRBrace(tokens, pos) && ParseNodes(tokens, pos, nodes).Ok?
    ensures pos < |tokens| && tokens[pos].Ident? && ParseNode(tokens, pos + 1, tokens[pos].name).Ok?
    ensures var (node, end) := ParseNode(tokens, pos + 1, tokens[pos].name).value;
            ParseNodes(tokens, pos, nodes) == ParseNodes(tokens, end, nodes + [node])
  {
    hide ParseNode;
  }

  lemma TitleTurn(tokens: seq<Token>, pos: nat, page: Page, s: string)
    requires pos + 1 < |tokens| && tokens[pos] == Ident("title") && tokens[pos + 1] == Str(s)
    ensures ParsePageItems(tokens, pos, page) == ParsePageItems(tokens, pos + 2, page.(title := Some(s)))
  {
    hide ParseNode;
    assert !AtRBrace(tokens, pos) && NextIdent(tokens, pos) == Ok((tokens[pos].name, pos + 1));
  }

  lemma NodeTurn(tokens: seq<Token>, pos: nat, page: Page, word: string, node: Node, end: nat)
    requires pos < |tokens| && tokens[pos] == Ident(word) && word != "title"
    requires ParseNode(tokens, pos + 1, word) == Ok((node, end))
    ensures ParsePageItems(tokens, pos, page) == ParsePageItems(tokens, end, page.(children := page.children + [node]))
  {
    hide ParseNode;
    assert !AtRBrace(tokens, pos) && NextIdent(tokens, pos) == Ok((tokens[pos].name, pos + 1));
  }

  lemma PageTurnBack(tokens: seq<Token>, pos: nat, page: Page)
    requires pos <= |tokens| && !AtRBrace(tokens, pos) && ParsePageItems(tokens, pos, page).Ok?
    ensures pos < |tokens| && tokens[pos].Ident?
    ensures tokens[pos].name == "title" ==>
              && pos + 1 < |tokens| && tokens[pos + 1].Str?
              && ParsePageItems(tokens, pos, page) == ParsePageItems(tokens, pos + 2, page.(title := Some(tokens[pos + 1].value)))
    ensures tokens[pos].name != "title" ==>
              && ParseNode(tokens, pos + 1, tokens[pos].name).Ok?
              && var (node, end) := ParseNode(tokens, pos + 1, tokens[pos].name).value;
                 ParsePageItems(tokens, pos, page) == ParsePageItems(tokens, end, page.(children := page.children + [node]))
  {
    hide ParseNode;
  }

  lemma ButtonTurn(tokens: seq<Token>, pos: nat, p: ButtonProp, c: Option<string>, a: Option<string>)
    requires Stands(tokens, pos, ButtonPropTokens(p))
    ensures ParseButtonProps(tokens, pos, c, a)
         == ParseButtonProps(tokens, pos + 2, if p.Caption? then Some(p.text) else c, if p.Action? then Some(p.text) else a)
  {
    assert tokens[pos + 0] == ButtonPropTokens(p)[0] && tokens[pos + 1] == ButtonPropTokens(p)[1];
  }

  lemma ButtonPropLength(p: ButtonProp)
    ensures |ButtonPropTokens(p)| == 2
  {
  }

  lemma ButtonTurnBack(tokens: seq<Token>, pos: nat, c: Option<string>, a: Option<string>) returns (p: ButtonProp)
    requires pos <= |tokens| && !AtRBrace(tokens, pos) && ParseButtonProps(tokens, pos, c, a).Ok?
    ensures pos + 2 <= |tokens| && Stands(tokens, pos, ButtonPropTokens(p))
    ensures ParseButtonProps(tokens, pos, c, a)
         == ParseButtonProps(tokens, pos + 2, if p.Caption? then Some(p.text) else c, if p.Action? then Some(p.text) else a)
  {
    var s := tokens[pos + 1].value;
    p := if tokens[pos].name == "label" then Caption(s) else Action(s);
  }

  lemma ButtonEnd(tokens: seq<Token>, pos: nat, c: Option<string>, a: Option<string>)
    requires AtRBrace(tokens, pos)
    ensures ParseButtonProps(tokens, pos, c, a) == Ok(((c, a), pos + 1))
  {
  }

  function WithInput(p: InputProp, st: InputState): InputState {
    match p
    case Id(s) => st.(id := Some(s))
    case Placeholder(s) => st.(placeholder := Some(s))
    case Secure(b) => st.(secure := b)
  }

  lemma InputEnd(tokens: seq<Token>, pos: nat, st: InputState)
    requires AtRBrace(tokens, pos)
    ensures ParseInputProps(tokens, pos, st) == Ok((st, pos + 1))
  {
  }

  lemma InputTurn(tokens: seq<Token>, pos: nat, p: InputProp, st: InputState)
    requires Stands(tokens, pos, InputPropTokens(p))
    ensures ParseInputProps(tokens, pos, st) == ParseInputProps(tokens, pos + 2, WithInput(p, st))
  {
    assert tokens[pos + 0] == InputPropTokens(p)[0] && tokens[pos + 1] == InputPropTokens(p)[1];
  }

  lemma InputTurnBack(tokens: seq<Token>, pos: nat, st: InputState) returns (p: InputProp)
    requires pos <= |tokens| && !AtRBrace(tokens, pos) && ParseInputProps(tokens, pos, st).Ok?
    ensures Stands(tokens, pos, InputPropTokens(p))
    ensures ParseInputProps(tokens, pos, st) == ParseInputProps(tokens, pos + 2, WithInput(p, st))
  {
    var word, value := tokens[pos].name, tokens[pos + 1];
    p := if word == "id" then Id(value.value)
         else if word == "placeholder" then Placeholder(value.value)
         else Secure(value.name == "true");
  }

  // ---- The parser accepts what the grammar derives ----------------------

  lemma {:induction false} ButtonPropsParse(tokens: seq<Token>, pos: nat, props: seq<ButtonProp>, c: Option<string>, a: Option<string>)
    requires Stands(tokens, pos, ButtonPropsTokens(props)) && AtRBrace(tokens, pos + |ButtonPropsTokens(props)|)
    ensures ParseButtonProps(tokens, pos, c, a)
         == Ok(((LastCaption(props, c), LastAction(props, a)), pos + |ButtonPropsTokens(props)| + 1))
    decreases props
  {
    hide ParseButtonProps;
    if props == [] {
      ButtonEnd(tokens, pos, c, a);
    } else {
      var p, rest := props[0], props[1..];
      StandsParts(tokens, pos, ButtonPropTokens(p), ButtonPropsTokens(rest));
      ButtonTurn(tokens, pos, p, c, a);
      ButtonPropsParse(tokens, pos + 2, rest, if p.Caption? then Some(p.text) else c, if p.Action? then Some(p.text) else a);
    }
  }

  lemma InputPropLength(p: InputProp)
    ensures |InputPropTokens(p)| == 2
  {
  }

  lemma {:induction false} InputPropsParse(tokens: seq<Token>, pos: nat, props: seq<InputProp>, st: InputState)
    requires Stands(tokens, pos, InputPropsTokens(props)) && AtRBrace(tokens, pos + |InputPropsTokens(props)|)
    ensures ParseInputProps(tokens, pos, st) == Ok((LastInput(props, st), pos + |InputPropsTokens(props)| + 1))
    decreases props
  {
    hide ParseInputProps, WithInput, InputPropTokens;
    if props == [] {
      InputEnd(tokens, pos, st);
    } else {
      InputPropLength(props[0]);
      StandsParts(tokens, pos, InputPropTokens(props[0]), InputPropsTokens(props[1..]));
      InputTurn(tokens, pos, props[0], st);
      InputPropsParse(tokens, pos + 2, props[1..], WithInput(props[0], st));
    }
  }

  lemma ButtonParses(tokens: seq<Token>, pos: nat, props: seq<ButtonProp>)
    requires Stands(tokens, pos, [LBrace] + ButtonPropsTokens(props) + [RBrace])
    requires Meaning(ButtonTree(props)).Some?
    ensures ParseButton(tokens, pos) == Ok((Meaning(ButtonTree(props)).value, pos + |ButtonPropsTokens(props)| + 2))
  {
    hide MakeButton, ParseButtonProps;
    BracesStand(tokens, pos, ButtonPropsTokens(props));
    ButtonPropsParse(tokens, pos + 1, props, None, None);
  }

  lemma InputParses(tokens: seq<Token>, pos: nat, props: seq<InputProp>)
    requires Stands(tokens, pos, [LBrace] + InputPropsTokens(props) + [RBrace])
    requires Meaning(InputTree(props)).Some?
    ensures ParseInput(tokens, pos) == Ok((Meaning(InputTree(props)).value, pos + |InputPropsTokens(props)| + 2))
  {
    hide MakeInput, ParseInputProps;
    BracesStand(tokens, pos, InputPropsTokens(props));
    InputPropsParse(tokens, pos + 1, props, InputState(None, None, false));
  }

  lemma BoxParses(tokens: seq<Token>, pos: nat, kind: Kind, items: seq<NodeTree>)
    requires Stands(tokens, pos, [LBrace] + ItemsTokens(items) + [RBrace]) && Meanings(items).Some?
    requires ParseNodes(tokens, pos + 1, []) == Ok(([] + Meanings(items).value, pos + 1 + |ItemsTokens(items)| + 1))
    ensures ParseNode(tokens, pos, KindWord(kind)) == Ok((Meaning(BoxTree(kind, items)).value, pos + |BodyTokens(BoxTree(kind, items))|))
  {
    hide ParseNodes, ItemsTokens, KindNamed, KindWord, Stands;
    KindWords(kind);
    BracesStand(tokens, pos, ItemsTokens(items));
    assert [] + Meanings(items).value == Meanings(items).value;
  }

  /** What each leaf keyword dispatches to. */
  lemma Dispatch(tokens: seq<Token>, pos: nat)
    requires pos <= |tokens|
    ensures ParseNode(tokens, pos, "button") == ParseButton(tokens, pos)
    ensures ParseNode(tokens, pos, "input") == ParseInput(tokens, pos)
    ensures pos < |tokens| && tokens[pos].Str? ==> ParseNode(tokens, pos, "text") == Ok((Text(tokens[pos].value), pos + 1))
  {
    hide ParseButton, ParseInput, ParseNodes;
  }

  lemma {:induction false} BodyParses(tokens: seq<Token>, pos: nat, t: NodeTree)
    requires Stands(tokens, pos, BodyTokens(t)) && Meaning(t).Some?
    ensures ParseNode(tokens, pos, Keyword(t)) == Ok((Meaning(t).value, pos + |BodyTokens(t)|))
    decreases t, 0
  {
    hide ParseNode, ParseButton, ParseInput, ParseNodes, KindWord, Stands, MakeButton, MakeInput, ButtonPropsTokens,
         InputPropsTokens;
    FirstStands(tokens, pos, BodyTokens(t));
    Dispatch(tokens, pos);
    match t
    case BoxTree(kind, items) =>
      BracesStand(tokens, pos, ItemsTokens(items));
      ItemsParse(tokens, pos + 1, items, []);
      BoxParses(tokens, pos, kind, items);
    case TextTree(s) =>
    case ButtonTree(props) => ButtonParses(tokens, pos, props);
    case InputTree(props) => InputParses(tokens, pos, props);
  }

  lemma FirstStands(tokens: seq<Token>, pos: nat, part: seq<Token>)
    requires Stands(tokens, pos, part) && part != []
    ensures pos + |part| <= |tokens| && tokens[pos] == part[0]
  {
    assert tokens[pos + 0] == part[0];
  }

  lemma {:induction false} ItemsParse(tokens: seq<Token>, pos: nat, items: seq<NodeTree>, nodes: seq<Node>)
    requires Stands(tokens, pos, ItemsTokens(items)) && AtRBrace(tokens, pos + |ItemsTokens(items)|)
    requires Meanings(items).Some?
    ensures ParseNodes(tokens, pos, nodes) == Ok((nodes + Meanings(items).value, pos + |ItemsTokens(items)| + 1))
    decreases items, 0
  {
    hide ParseNodes, ParseNode, Meaning, Keyword, BodyTokens;
    if items == [] {
      NodesEnd(tokens, pos, nodes);
      assert nodes + [] == nodes;
    } else {
      var t, rest := items[0], items[1..];
      StandsParts(tokens, pos, NodeTokens(t), ItemsTokens(rest));
      StandsParts(tokens, pos, [Ident(Keyword(t))], BodyTokens(t));
      assert tokens[pos + 0] == [Ident(Keyword(t))][0];
      BodyParses(tokens, pos + 1, t);
      NodesTurn(tokens, pos, nodes, Keyword(t), Meaning(t).value, pos + |NodeTokens(t)|);
      ItemsParse(tokens, pos + |NodeTokens(t)|, rest, nodes + [Meaning(t).value]);
      assert nodes + [Meaning(t).value] + Meanings(rest).value == nodes + Meanings(items).value;
    }
  }

  lemma PageItemParses(tokens: seq<Token>, pos: nat, i: PageItem, page: Page)
    requires Stands(tokens, pos, PageItemTokens(i)) && WithItem(i, page).Some?
    ensures ParsePageItems(tokens, pos, page) == ParsePageItems(tokens, pos + |PageItemTokens(i)|, WithItem(i, page).value)
  {
    hide ParsePageItems, ParseNode, Meaning, Keyword, BodyTokens;
    match i
    case TitleItem(s) =>
      assert tokens[pos + 0] == PageItemTokens(i)[0] && tokens[pos + 1] == PageItemTokens(i)[1];
      TitleTurn(tokens, pos, page, s);
    case NodeItem(t) =>
      TitleIsNoKeyword(t);
      StandsParts(tokens, pos, [Ident(Keyword(t))], BodyTokens(t));
      assert tokens[pos + 0] == [Ident(Keyword(t))][0];
      BodyParses(tokens, pos + 1, t);
      NodeTurn(tokens, pos, page, Keyword(t), Meaning(t).value, pos + |NodeTokens(t)|);
  }

  lemma {:induction false} PageItemsParse(tokens: seq<Token>, pos: nat, items: seq<PageItem>, page: Page)
    requires Stands(tokens, pos, PageItemsTokens(items)) && AtRBrace(tokens, pos + |PageItemsTokens(items)|)
    requires PageMeaning(items, page).Some?
    ensures ParsePageItems(tokens, pos, page) == Ok((PageMeaning(items, page).value, pos + |PageItemsTokens(items)| + 1))
    decreases items
  {
    hide ParsePageItems, PageItemTokens, WithItem;
    if items == [] {
      PageEnd(tokens, pos, page);
    } else {
      StandsParts(tokens, pos, PageItemTokens(items[0]), PageItemsTokens(items[1..]));
      PageItemParses(tokens, pos, items[0], page);
      PageItemsParse(tokens, pos + |PageItemTokens(items[0])|, items[1..], WithItem(items[0], page).value);
    }
  }

  /** Every derivation with a meaning is accepted, with that meaning. */
  lemma GrammarIsAccepted(items: seq<PageItem>)
    requires PageMeaning(items, Page(None, [])).Some?
    ensures ParsePage(PageTokens(items)) == Ok(PageMeaning(items, Page(None, [])).value)
  {
    hide ParsePageItems, PageItemsTokens, PageMeaning;
    var tokens := PageTokens(items);
    assert tokens == [Ident("page")] + ([LBrace] + PageItemsTokens(items) + [RBrace]);
    StandsParts(tokens, 0, [Ident("page")], [LBrace] + PageItemsTokens(items) + [RBrace]);
    BracesStand(tokens, 1, PageItemsTokens(items));
    PageItemsParse(tokens, 2, items, Page(None, []));
  }

  // ---- The grammar derives what the parser accepts ----------------------

  lemma {:induction false} ButtonPropsDerive(tokens: seq<Token>, pos: nat, c: Option<string>, a: Option<string>)
    returns (props: seq<ButtonProp>)
    requires pos <= |tokens| && ParseButtonProps(tokens, pos, c, a).Ok?
    ensures Stands(tokens, pos, ButtonPropsTokens(props)) && AtRBrace(tokens, pos + |ButtonPropsTokens(props)|)
    decreases |tokens| - pos
  {
    hide ParseButtonProps, ButtonPropTokens;
    if AtRBrace(tokens, pos) {
      props := [];
    } else {
      var first := ButtonTurnBack(tokens, pos, c, a);
      var s := first.text;
      ButtonPropLength(first);
      var rest := ButtonPropsDerive(tokens, pos + 2, if first.Caption? then Some(s) else c, if first.Action? then Some(s) else a);
      props := [first] + rest;
      assert props[1..] == rest;
      StandsParts(tokens, pos, ButtonPropTokens(first), ButtonPropsTokens(rest));
    }
  }

  lemma {:induction false} InputPropsDerive(tokens: seq<Token>, pos: nat, st: InputState) returns (props: seq<InputProp>)
    requires pos <= |tokens| && ParseInputProps(tokens, pos, st).Ok?
    ensures Stands(tokens, pos, InputPropsTokens(props)) && AtRBrace(tokens, pos + |InputPropsTokens(props)|)
    decreases |tokens| - pos
  {
    if AtRBrace(tokens, pos) {
      props := [];
    } else {
      var first := InputTurnBack(tokens, pos, st);
      var rest := InputPropsDerive(tokens, pos + 2, WithInput(first, st));
      props := [first] + rest;
      assert props[1..] == rest;
      StandsParts(tokens, pos, InputPropTokens(first), InputPropsTokens(rest));
    }
  }

  lemma ButtonDerives(tokens: seq<Token>, pos: nat) returns (t: NodeTree)
    requires pos <= |tokens| && ParseButton(tokens, pos).Ok?
    ensures t.ButtonTree? && Stands(tokens, pos, BodyTokens(t)) && Meaning(t).Some?
    ensures ParseButton(tokens, pos) == Ok((Meaning(t).value, pos + |BodyTokens(t)|))
  {
    hide MakeButton, ParseButtonProps;
    var props := ButtonPropsDerive(tokens, pos + 1, None, None);
    t := ButtonTree(props);
    BracesJoin(tokens, pos, ButtonPropsTokens(props));
    ButtonPropsParse(tokens, pos + 1, props, None, None);
  }

  lemma InputDerives(tokens: seq<Token>, pos: nat) returns (t: NodeTree)
    requires pos <= |tokens| && ParseInput(tokens, pos).Ok?
    ensures t.InputTree? && Stands(tokens, pos, BodyTokens(t)) && Meaning(t).Some?
    ensures ParseInput(tokens, pos) == Ok((Meaning(t).value, pos + |BodyTokens(t)|))
  {
    hide MakeInput, ParseInputProps;
    var st := InputState(None, None, false);
    var props := InputPropsDerive(tokens, pos + 1, st);
    t := InputTree(props);
    BracesJoin(tokens, pos, InputPropsTokens(props));
    InputPropsParse(tokens, pos + 1, props, st);
  }

  lemma {:induction false} NodeDerives(tokens: seq<Token>, pos: nat, word: string) returns (t: NodeTree)
    requires pos <= |tokens| && ParseNode(tokens, pos, word).Ok?
    ensures Keyword(t) == word && Stands(tokens, pos, BodyTokens(t))
    ensures Meaning(t) == Some(ParseNode(tokens, pos, word).value.0)
    ensures pos + |BodyTokens(t)| == ParseNode(tokens, pos, word).value.1
    decreases |tokens| - pos, 1
  {
    hide ParseButton, ParseInput, ParseNodes, KindNamed;
    Keywords(word);
    if KindNamed(word).Some? {
      var items := NodesDerive(tokens, pos + 1, []);
      t := BoxTree(KindNamed(word).value, items);
      BracesJoin(tokens, pos, ItemsTokens(items));
      assert [] + Meanings(items).value == Meanings(items).value;
    } else if word == "text" {
      t := TextTree(tokens[pos].value);
    } else if word == "button" {
      t := ButtonDerives(tokens, pos);
    } else {
      t := InputDerives(tokens, pos);
    }
  }

  lemma {:induction false} NodesDerive(tokens: seq<Token>, pos: nat, nodes: seq<Node>) returns (items: seq<NodeTree>)
    requires pos <= |tokens| && ParseNodes(tokens, pos, nodes).Ok?
    ensures Stands(tokens, pos, ItemsTokens(items)) && AtRBrace(tokens, pos + |ItemsTokens(items)|)
    ensures Meanings(items).Some?
    ensures ParseNodes(tokens, pos, nodes) == Ok((nodes + Meanings(items).value, pos + |ItemsTokens(items)| + 1))
    decreases |tokens| - pos, 0
  {
    hide ParseNodes, ParseNode, Meaning, Keyword, BodyTokens;
    if AtRBrace(tokens, pos) {
      NodesEnd(tokens, pos, nodes);
      items := [];
      assert nodes + [] == nodes;
    } else {
      NodesTurnBack(tokens, pos, nodes);
      var word := tokens[pos].name;
      var (node, end) := ParseNode(tokens, pos + 1, word).value;
      var t := NodeDerives(tokens, pos + 1, word);
      var rest := NodesDerive(tokens, end, nodes + [node]);
      items := [t] + rest;
      assert items[1..] == rest;
      StandsParts(tokens, pos, [Ident(word)], BodyTokens(t));
      StandsParts(tokens, pos, NodeTokens(t), ItemsTokens(rest));
      assert nodes + [node] + Meanings(rest).value == nodes + Meanings(items).value;
    }
  }

  lemma PageItemDerives(tokens: seq<Token>, pos: nat, page: Page) returns (i: PageItem)
    requires pos <= |tokens| && !AtRBrace(tokens, pos) && ParsePageItems(tokens, pos, page).Ok?
    ensures Stands(tokens, pos, PageItemTokens(i)) && WithItem(i, page).Some? && |PageItemTokens(i)| > 0
    ensures ParsePageItems(tokens, pos, page) == ParsePageItems(tokens, pos + |PageItemTokens(i)|, WithItem(i, page).value)
  {
    hide ParsePageItems, ParseNode, Meaning, Keyword, BodyTokens;
    PageTurnBack(tokens, pos, page);
    var word := tokens[pos].name;
    if word == "title" {
      i := TitleItem(tokens[pos + 1].value);
    } else {
      var t := NodeDerives(tokens, pos + 1, word);
      i := NodeItem(t);
      StandsParts(tokens, pos, [Ident(word)], BodyTokens(t));
    }
  }

  lemma {:induction false} PageItemsDerive(tokens: seq<Token>, pos: nat, page: Page) returns (items: seq<PageItem>)
    requires pos <= |tokens| && ParsePageItems(tokens, pos, page).Ok?
    ensures Stands(tokens, pos, PageItemsTokens(items)) && AtRBrace(tokens, pos + |PageItemsTokens(items)|)
    ensures PageMeaning(items, page) == Some(ParsePageItems(tokens, pos, page).value.0)
    ensures pos + |PageItemsTokens(items)| + 1 == ParsePageItems(tokens, pos, page).value.1
    decreases |tokens| - pos
  {
    hide ParsePageItems, PageItemTokens, WithItem;
    if AtRBrace(tokens, pos) {
      PageEnd(tokens, pos, page);
      items := [];
    } else {
      var i := PageItemDerives(tokens, pos, page);
      var rest := PageItemsDerive(tokens, pos + |PageItemTokens(i)|, WithItem(i, page).value);
      items := [i] + rest;
      assert items[0] == i && items[1..] == rest;
      StandsParts(tokens, pos, PageItemTokens(i), PageItemsTokens(rest));
    }
  }

  /** Every accepted token list has a derivation that means the parsed page. */
  lemma AcceptedIsDerived(tokens: seq<Token>) returns (items: seq<PageItem>)
    requires ParsePage(tokens).Ok?
    ensures PageTokens(items) == tokens && PageMeaning(items, Page(None, [])) == Some(ParsePage(tokens).value)
  {
    hide ParsePageItems, PageItemsTokens, PageMeaning;
    items := PageItemsDerive(tokens, 2, Page(None, []));
    BracesJoin(tokens, 1, PageItemsTokens(items));
    StandsParts(tokens, 0, [Ident("page")], [LBrace] + PageItemsTokens(items) + [RBrace]);
    var all := [Ident("page")] + ([LBrace] + PageItemsTokens(items) + [RBrace]);
    assert all == PageTokens(items);
    forall k | 0 <= k < |all| ensures tokens[k] == all[k] {
      assert tokens[0 + k] == all[k];
    }
  }

  /** The parser is exact: it returns a page for a token list precisely when some
      derivation yields those tokens and means that page. */
  lemma ParserIsExact(tokens: seq<Token>, page: Page)
    ensures ParsePage(tokens) == Ok(page)
       <==> exists items :: PageTokens(items) == tokens && PageMeaning(items, Page(None, [])) == Some(page)
  {
    if ParsePage(tokens) == Ok(page) {
      var items := AcceptedIsDerived(tokens);
    }
    if exists items :: PageTokens(items) == tokens && PageMeaning(items, Page(None, [])) == Some(page) {
      var items :| PageTokens(items) == tokens && PageMeaning(items, Page(None, [])) == Some(page);
      GrammarIsAccepted(items);
    }
  }
}
