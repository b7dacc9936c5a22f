// Which error a VOID UI page that is written by the grammar but means nothing gets: that
// of the first node, in reading order, which lacks a property or has a bad action
// (core/protocol/src/ui.rs).

module VoidUiErrors {
  import opened Prelude
  import opened Uri
  import opened Lexer
  import opened TokenStream
  import opened VoidUi
  import opened VoidUiGrammar

  // ---- Blame ------------------------------------------------------------

  predicate HasCaption(props: seq<ButtonProp>) {
    exists k :: 0 <= k < |props| && props[k].Caption?
  }

  predicate HasAction(props: seq<ButtonProp>) {
    exists k :: 0 <= k < |props| && props[k].Action?
  }

  predicate HasId(props: seq<InputProp>) {
    exists k :: 0 <= k < |props| && props[k].Id?
  }

  /** What is wrong with a derivation: a button wants a label first, then an action, then a
      URI for it; an input wants an id; a container is as its first bad child. */
  function Blame(t: NodeTree): Option<UiError>
    decreases t, 0
  {
    match t
    case BoxTree(_, items) => BlameAll(items)
    case TextTree(_) => None
    case ButtonTree(props) =>
      if !HasCaption(props) then Some(MissingProperty("label"))
      else if !HasAction(props) then Some(MissingProperty("action"))
      else if LastAction(props, None).Some? && FromStr(LastAction(props, None).value).Err? then
        Some(InvalidAction(FromStr(LastAction(props, None).value).error))
      else None
    case InputTree(props) => if HasId(props) then None else Some(MissingProperty("id"))
  }

  function BlameAll(items: seq<NodeTree>): Option<UiError> {
    if items == [] then None
    else if Blame(items[0]).Some? then Blame(items[0])
    else BlameAll(items[1..])
  }

  /** The first bad node of a page; titles are never bad. */
  function PageBlame(items: seq<PageItem>): Option<UiError> {
    if items == [] then None
    else if items[0].NodeItem? && Blame(items[0].node).Some? then Blame(items[0].node)
    else PageBlame(items[1..])
  }

  lemma {:induction false} LastButtonIff(props: seq<ButtonProp>, c: Option<string>, a: Option<string>)
    ensures LastCaption(props, c).Some? <==> c.Some? || HasCaption(props)
    ensures LastAction(props, a).Some? <==> a.Some? || HasAction(props)
    decreases props
  {
    if props != [] {
      var p, rest := props[0], props[1..];
      LastButtonIff(rest, if p.Caption? then Some(p.text) else c, if p.Action? then Some(p.text) else a);
      assert forall k :: 0 < k < |props| ==> props[k] == rest[k - 1];
      assert forall k :: 0 <= k < |rest| ==> rest[k] == props[k + 1];
    }
  }

  lemma {:induction false} LastIdIff(props: seq<InputProp>, st: InputState)
    ensures LastInput(props, st).id.Some? <==> st.id.Some? || HasId(props)
    decreases props
  {
    if props != [] {
      var rest := props[1..];
      LastIdIff(rest, WithInput(props[0], st));
      assert forall k :: 0 < k < |props| ==> props[k] == rest[k - 1];
      assert forall k :: 0 <= k < |rest| ==> rest[k] == props[k + 1];
    }
  }

  lemma ButtonAnswer(props: seq<ButtonProp>)
    ensures Blame(ButtonTree(props)).Some? <==> MakeButton(LastCaption(props, None), LastAction(props, None)).Err?
    ensures Blame(ButtonTree(props)).Some? ==>
              MakeButton(LastCaption(props, None), LastAction(props, None)) == Err(Blame(ButtonTree(props)).value)
  {
    hide FromStr;
    LastButtonIff(props, None, None);
  }

  lemma InputAnswer(props: seq<InputProp>)
    ensures Blame(InputTree(props)).Some? <==> MakeInput(LastInput(props, InputState(None, None, false))).Err?
    ensures Blame(InputTree(props)).Some? ==>
              MakeInput(LastInput(props, InputState(None, None, false))) == Err(Blame(InputTree(props)).value)
  {
    LastIdIff(props, InputState(None, None, false));
  }

  /** A derivation is to blame exactly when it means nothing. */
  lemma {:induction false} BlameIff(t: NodeTree)
    ensures Blame(t).Some? <==> Meaning(t).None?
    decreases t, 0
  {
    hide MakeButton, MakeInput;
    match t
    case BoxTree(_, items) => BlameAllIff(items);
    case TextTree(_) =>
    case ButtonTree(props) => ButtonAnswer(props);
    case InputTree(props) => InputAnswer(props);
  }

  lemma {:induction false} BlameAllIff(items: seq<NodeTree>)
    ensures BlameAll(items).Some? <==> Meanings(items).None?
    decreases items, 0
  {
    if items != [] {
      BlameIff(items[0]);
      BlameAllIff(items[1..]);
    }
  }

  // ---- The parser blames the same ---------------------------------------

  lemma NodesStop(tokens: seq<Token>, pos: nat, nodes: seq<Node>, word: string, e: UiError)
    requires pos < |tokens| && tokens[pos] == Ident(word) && ParseNode(tokens, pos + 1, word) == Err(e)
    ensures ParseNodes(tokens, pos, nodes) == Err(e)
  {
    hide ParseNode;
  }

  lemma PageStops(tokens: seq<Token>, pos: nat, page: Page, word: string, e: UiError)
    requires pos < |tokens| && tokens[pos] == Ident(word) && word != "title" && ParseNode(tokens, pos + 1, word) == Err(e)
    ensures ParsePageItems(tokens, pos, page) == Err(e)
  {
    hide ParseNode;
    assert !AtRBrace(tokens, pos) && NextIdent(tokens, pos) == Ok((tokens[pos].name, pos + 1));
  }

  lemma ButtonBlamed(tokens: seq<Token>, pos: nat, props: seq<ButtonProp>)
    requires Stands(tokens, pos, [LBrace] + ButtonPropsTokens(props) + [RBrace]) && Blame(ButtonTree(props)).Some?
    ensures ParseButton(tokens, pos) == Err(Blame(ButtonTree(props)).value)
  {
    hide MakeButton, ParseButtonProps, Blame;
    ButtonAnswer(props);
    BracesStand(tokens, pos, ButtonPropsTokens(props));
    ButtonPropsParse(tokens, pos + 1, props, None, None);
  }

  lemma InputBlamed(tokens: seq<Token>, pos: nat, props: seq<InputProp>)
    requires Stands(tokens, pos, [LBrace] + InputPropsTokens(props) + [RBrace]) && Blame(InputTree(props)).Some?
    ensures ParseInput(tokens, pos) == Err(Blame(InputTree(props)).value)
  {
    hide MakeInput, ParseInputProps, Blame;
    InputAnswer(props);
    BracesStand(tokens, pos, InputPropsTokens(props));
    InputPropsParse(tokens, pos + 1, props, InputState(None, None, false));
  }

  lemma BoxBlamed(tokens: seq<Token>, pos: nat, kind: Kind, items: seq<NodeTree>, e: UiError)
    requires Stands(tokens, pos, [LBrace] + ItemsTokens(items) + [RBrace]) && ParseNodes(tokens, pos + 1, []) == Err(e)
    ensures ParseNode(tokens, pos, KindWord(kind)) == Err(e)
  {
    hide ParseNodes, ItemsTokens, KindNamed, KindWord, Stands;
    KindWords(kind);
    BracesStand(tokens, pos, ItemsTokens(items));
  }

  lemma {:induction false} BodyBlamed(tokens: seq<Token>, pos: nat, t: NodeTree)
    requires Stands(tokens, pos, BodyTokens(t)) && Blame(t).Some?
    ensures ParseNode(tokens, pos, Keyword(t)) == Err(Blame(t).value)
    decreases t, 0
  {
    hide ParseNode, ParseButton, ParseInput, ParseNodes, KindWord, Stands, ButtonPropsTokens, InputPropsTokens;
    FirstStands(tokens, pos, BodyTokens(t));
    Dispatch(tokens, pos);
    match t
    case BoxTree(kind, items) =>
      BracesStand(tokens, pos, ItemsTokens(items));
      ItemsBlamed(tokens, pos + 1, items, []);
      BoxBlamed(tokens, pos, kind, items, BlameAll(items).value);
    case TextTree(_) =>
    case ButtonTree(props) => ButtonBlamed(tokens, pos, props);
    case InputTree(props) => InputBlamed(tokens, pos, props);
  }

  lemma {:induction false} ItemsBlamed(tokens: seq<Token>, pos: nat, items: seq<NodeTree>, nodes: seq<Node>)
    requires Stands(tokens, pos, ItemsTokens(items)) && AtRBrace(tokens, pos + |ItemsTokens(items)|) && BlameAll(items).Some?
    ensures ParseNodes(tokens, pos, nodes) == Err(BlameAll(items).value)
    decreases items, 0
  {
    hide ParseNodes, ParseNode, Meaning, Blame, Keyword, BodyTokens;
    var t, rest := items[0], items[1..];
    StandsParts(tokens, pos, NodeTokens(t), ItemsTokens(rest));
    StandsParts(tokens, pos, [Ident(Keyword(t))], BodyTokens(t));
    assert tokens[pos + 0] == [Ident(Keyword(t))][0];
    if Blame(t).Some? {
      BodyBlamed(tokens, pos + 1, t);
      NodesStop(tokens, pos, nodes, Keyword(t), Blame(t).value);
    } else {
      BlameIff(t);
      BodyParses(tokens, pos + 1, t);
      NodesTurn(tokens, pos, nodes, Keyword(t), Meaning(t).value, pos + |NodeTokens(t)|);
      ItemsBlamed(tokens, pos + |NodeTokens(t)|, rest, nodes + [Meaning(t).value]);
    }
  }

  lemma {:induction false} PageItemsBlamed(tokens: seq<Token>, pos: nat, items: seq<PageItem>, page: Page)
    requires Stands(tokens, pos, PageItemsTokens(items)) && AtRBrace(tokens, pos + |PageItemsTokens(items)|)
    requires PageBlame(items).Some?
    ensures ParsePageItems(tokens, pos, page) == Err(PageBlame(items).value)
    decreases items
  {
    hide ParsePageItems, ParseNode, Blame, Meaning, Keyword, BodyTokens;
    var i := items[0];
    StandsParts(tokens, pos, PageItemTokens(i), PageItemsTokens(items[1..]));
    if i.NodeItem? && Blame(i.node).Some? {
      var t := i.node;
      StandsParts(tokens, pos, [Ident(Keyword(t))], BodyTokens(t));
      assert tokens[pos + 0] == [Ident(Keyword(t))][0];
      TitleIsNoKeyword(t);
      BodyBlamed(tokens, pos + 1, t);
      PageStops(tokens, pos, page, Keyword(t), Blame(t).value);
    } else {
      if i.NodeItem? {
        BlameIff(i.node);
      }
      PageItemParses(tokens, pos, i, page);
      PageItemsBlamed(tokens, pos + |PageItemTokens(i)|, items[1..], WithItem(i, page).value);
    }
  }

  lemma {:induction false} PageBlameIff(items: seq<PageItem>, page: Page)
    ensures PageBlame(items).Some? <==> PageMeaning(items, page).None?
    decreases items
  {
    hide Blame, Meaning;
    if items != [] {
      if items[0].NodeItem? {
        BlameIff(items[0].node);
      }
      if WithItem(items[0], page).Some? {
        PageBlameIff(items[1..], WithItem(items[0], page).value);
      }
    }
  }

  /** The parser rejects a derivation with the error of its first bad node, wherever it is
      nested and whatever is wrong further on, and accepts it when there is none. */
  lemma FirstBadNodeIsBlamed(items: seq<PageItem>)
    ensures ParsePage(PageTokens(items)).Err? <==> PageBlame(items).Some?
    ensures PageBlame(items).Some? ==> ParsePage(PageTokens(items)) == Err(PageBlame(items).value)
  {
    hide ParsePage, PageTokens, PageBlame, PageMeaning;
    PageBlameIff(items, Page(None, []));
    if PageBlame(items).Some? {
      PageBlamed(items);
    } else {
      GrammarIsAccepted(items);
    }
  }

  lemma PageBlamed(items: seq<PageItem>)
    requires PageBlame(items).Some?
    ensures ParsePage(PageTokens(items)) == Err(PageBlame(items).value)
  {
    hide ParsePageItems, PageItemsTokens, PageBlame;
    var tokens := PageTokens(items);
    assert tokens == [Ident("page")] + ([LBrace] + PageItemsTokens(items) + [RBrace]);
    StandsParts(tokens, 0, [Ident("page")], [LBrace] + PageItemsTokens(items) + [RBrace]);
    BracesStand(tokens, 1, PageItemsTokens(items));
    PageItemsBlamed(tokens, 2, items, Page(None, []));
  }
}
