// Which error a surface document that is written by the grammar but means nothing gets:
// that of the first node, in reading order, which lacks a property
// (core/runtime/src/ui/mod.rs).

module SurfaceErrors {
  import opened Prelude
  import opened Lexer
  import opened TokenStream
  import opened Surface
  import opened SurfaceGrammar

  // ---- Blame ------------------------------------------------------------

  predicate HasKey(attrs: seq<Attr>, key: string) {
    exists k :: 0 <= k < |attrs| && attrs[k].key == key
  }

  predicate HasCaption(props: seq<ButtonProp>) {
    exists k :: 0 <= k < |props| && props[k].Caption?
  }

  predicate HasAction(props: seq<ButtonProp>) {
    exists k :: 0 <= k < |props| && props[k].Action?
  }

  /** What is wrong with a derivation: a text wants a value, written first or as an
      attribute, or a binding; a button wants a label first, then an action. */
  function Blame(t: NodeTree): Option<UiError>
    decreases t, 0
  {
    match t
    case BoxTree(_, items) => BlameAll(items)
    case TextTree(positional, attrs) =>
      if positional.Some? || HasKey(attrs, "value") || HasKey(attrs, "bind") then None else Some(MissingProperty("value|bind"))
    case InlineTree(_, _) => None
    case ButtonTree(props) =>
      if !HasCaption(props) then Some(MissingProperty("label"))
      else if !HasAction(props) then Some(MissingProperty("action"))
      else None
  }

  function BlameAll(items: seq<NodeTree>): Option<UiError> {
    if items == [] then None
    else if Blame(items[0]).Some? then Blame(items[0])
    else BlameAll(items[1..])
  }

  /** The first bad node of a document; titles are never bad. */
  function DocumentBlame(items: seq<Item>): Option<UiError> {
    if items == [] then None
    else if items[0].NodeItem? && Blame(items[0].node).Some? then Blame(items[0].node)
    else DocumentBlame(items[1..])
  }

  lemma {:induction false} KeyIff(attrs: seq<Attr>, before: map<string, string>, key: string)
    ensures key in AttrsMeaning(attrs, before) <==> key in before || HasKey(attrs, key)
    decreases attrs
  {
    if attrs != [] {
      var rest := attrs[1..];
      KeyIff(rest, before[attrs[0].key := attrs[0].value], key);
      assert forall k :: 0 < k < |attrs| ==> attrs[k] == rest[k - 1];
      assert forall k :: 0 <= k < |rest| ==> rest[k] == attrs[k + 1];
    }
  }

  lemma {:induction false} ButtonIff(props: seq<ButtonProp>, before: map<string, string>)
    ensures "label" in ButtonMeaning(props, before) <==> "label" in before || HasCaption(props)
    ensures "action" in ButtonMeaning(props, before) <==> "action" in before || HasAction(props)
    decreases props
  {
    if props != [] {
      var rest := props[1..];
      ButtonIff(rest, before[ButtonKey(props[0]) := props[0].text]);
      assert forall k :: 0 < k < |props| ==> props[k] == rest[k - 1];
      assert forall k :: 0 <= k < |rest| ==> rest[k] == props[k + 1];
    }
  }

  lemma TextAnswer(positional: Option<string>, attrs: seq<Attr>)
    ensures var answer, blame := MakeText(TextMeaning(positional, attrs)), Blame(TextTree(positional, attrs));
            (answer.Err? <==> blame.Some?) && (blame.Some? ==> answer == Err(blame.value))
  {
    hide AttrsMeaning, HasKey;
    KeyIff(attrs, map[], "value");
    KeyIff(attrs, map[], "bind");
  }

  lemma ButtonAnswer(props: seq<ButtonProp>)
    ensures var answer, blame := MakeButton(ButtonMeaning(props, map[])), Blame(ButtonTree(props));
            (answer.Err? <==> blame.Some?) && (blame.Some? ==> answer == Err(blame.value))
  {
    hide ButtonMeaning, HasCaption, HasAction;
    ButtonIff(props, map[]);
  }

  /** A derivation is to blame exactly when it means nothing. */
  lemma {:induction false} BlameIff(t: NodeTree)
    ensures Blame(t).Some? <==> Meaning(t).None?
    decreases t, 0
  {
    hide MakeText, MakeButton, TextMeaning, ButtonMeaning;
    match t
    case BoxTree(_, items) => BlameAllIff(items);
    case TextTree(positional, attrs) => TextAnswer(positional, attrs);
    case InlineTree(_, _) =>
    case ButtonTree(props) => ButtonAnswer(props);
  }

  lemma {:induction false} BlameAllIff(items: seq<NodeTree>)
    ensures BlameAll(items).Some? <==> Meanings(items).None?
    decreases items, 0
  {
    if items != [] {
      BlameIff(items[0]);
      BlameAllIff(items[1..]);
    }
  }

  lemma {:induction false} DocumentBlameIff(items: seq<Item>, doc: Document)
    ensures DocumentBlame(items).Some? <==> DocumentMeaning(items, doc).None?
    decreases items
  {
    hide Blame, Meaning;
    if items != [] {
      if items[0].NodeItem? {
        BlameIff(items[0].node);
      }
      if WithItem(items[0], doc).Some? {
        DocumentBlameIff(items[1..], WithItem(items[0], doc).value);
      }
    }
  }

  // ---- The parser blames the same ---------------------------------------

  lemma NodesStop(tokens: seq<Token>, pos: nat, nodes: seq<Node>, word: string, e: UiError)
    requires pos < |tokens| && tokens[pos] == Ident(word) && ParseNode(tokens, pos + 1, word) == Err(e)
    ensures ParseNodes(tokens, pos, nodes) == Err(e)
  {
    hide ParseNode;
  }

  lemma DocumentStops(tokens: seq<Token>, pos: nat, doc: Document, word: string, e: UiError)
    requires pos < |tokens| && tokens[pos] == Ident(word) && word != "title" && ParseNode(tokens, pos + 1, word) == Err(e)
    ensures ParseItems(tokens, pos, doc) == Err(e)
  {
    hide ParseNode;
    assert !AtRBrace(tokens, pos) && NextIdent(tokens, pos) == Ok((tokens[pos].name, pos + 1));
  }

  lemma ButtonBlamed(tokens: seq<Token>, pos: nat, props: seq<ButtonProp>)
    requires Stands(tokens, pos, [LBrace] + ButtonPropsTokens(props) + [RBrace]) && Blame(ButtonTree(props)).Some?
    ensures ParseButton(tokens, pos) == Err(Blame(ButtonTree(props)).value)
  {
    hide MakeButton, ParseButtonProps, Blame;
    ButtonAnswer(props);
    BracesStand(tokens, pos, ButtonPropsTokens(props));
    ButtonPropsParse(tokens, pos + 1, props, map[]);
  }

  /** A bad text has no value in front, and nothing that follows it is one. */
  lemma TextBlamed(tokens: seq<Token>, pos: nat, positional: Option<string>, attrs: seq<Attr>)
    requires var t := TextTree(positional, attrs);
             && Stands(tokens, pos, BodyTokens(t)) && !AtAttribute(tokens, pos + |BodyTokens(t)|)
             && !AtString(tokens, pos + |BodyTokens(t)|) && Blame(t).Some?
    ensures ParseText(tokens, pos) == Err(Blame(TextTree(positional, attrs)).value)
  {
    hide ParseAttributes, MakeText, HasKey;
    TextAnswer(positional, attrs);
    StandsParts(tokens, pos, [], AttrsTokens(attrs));
    if attrs != [] {
      assert tokens[pos + 0] == AttrsTokens(attrs)[0];
    }
    AttrsParse(tokens, pos, attrs, map[]);
  }

  lemma ContainerBlamed(tokens: seq<Token>, pos: nat, kind: BoxKind, items: seq<NodeTree>, e: UiError)
    requires Stands(tokens, pos, [LBrace] + NodesTokens(items) + [RBrace]) && ParseNodes(tokens, pos + 1, []) == Err(e)
    ensures ParseContainer(tokens, pos, kind) == Err(e)
  {
    hide ParseNodes, NodesTokens;
    BracesStand(tokens, pos, NodesTokens(items));
  }

  lemma {:induction false} BodyBlamed(tokens: seq<Token>, pos: nat, t: NodeTree)
    requires Stands(tokens, pos, BodyTokens(t)) && Blame(t).Some?
    requires !AtAttribute(tokens, pos + |BodyTokens(t)|) && !AtString(tokens, pos + |BodyTokens(t)|)
    ensures ParseNode(tokens, pos, Keyword(t)) == Err(Blame(t).value)
    decreases t, 0
  {
    hide ParseNode, ParseButton, ParseText, ParseContainer, ParseNodes, Keyword, HasKey, HasCaption, HasAction;
    Dispatch(tokens, pos, t);
    match t
    case BoxTree(_, items) =>
      BracesStand(tokens, pos, NodesTokens(items));
      NodesBlamed(tokens, pos + 1, items, []);
      ContainerBlamed(tokens, pos, t.box, items, BlameAll(items).value);
    case TextTree(positional, attrs) => TextBlamed(tokens, pos, positional, attrs);
    case InlineTree(_, _) =>
    case ButtonTree(props) => ButtonBlamed(tokens, pos, props);
  }

  lemma {:induction false} NodesBlamed(tokens: seq<Token>, pos: nat, items: seq<NodeTree>, nodes: seq<Node>)
    requires Stands(tokens, pos, NodesTokens(items)) && AtRBrace(tokens, pos + |NodesTokens(items)|) && BlameAll(items).Some?
    ensures ParseNodes(tokens, pos, nodes) == Err(BlameAll(items).value)
    decreases items, 0
  {
    hide ParseNodes, ParseNode, Meaning, Blame, Keyword, BodyTokens, AtAttribute;
    var t, rest := items[0], items[1..];
    StandsParts(tokens, pos, NodeTokens(t), NodesTokens(rest));
    StandsParts(tokens, pos, [Ident(Keyword(t))], BodyTokens(t));
    assert tokens[pos + 0] == [Ident(Keyword(t))][0];
    NoAttributeNext(tokens, pos + |NodeTokens(t)|, rest);
    NextStarts(tokens, pos + |NodeTokens(t)|, rest);
    if Blame(t).Some? {
      BodyBlamed(tokens, pos + 1, t);
      NodesStop(tokens, pos, nodes, Keyword(t), Blame(t).value);
    } else {
      BlameIff(t);
      BodyParses(tokens, pos + 1, t);
      NodesTurn(tokens, pos, nodes, Keyword(t), Meaning(t).value, pos + |NodeTokens(t)|);
      NodesBlamed(tokens, pos + |NodeTokens(t)|, rest, nodes + [Meaning(t).value]);
    }
  }

  lemma ItemBlamed(tokens: seq<Token>, pos: nat, t: NodeTree, doc: Document)
    requires Stands(tokens, pos, NodeTokens(t)) && Blame(t).Some?
    requires !AtAttribute(tokens, pos + |NodeTokens(t)|) && !AtString(tokens, pos + |NodeTokens(t)|)
    ensures ParseItems(tokens, pos, doc) == Err(Blame(t).value)
  {
    hide ParseItems, ParseNode, Blame, Keyword, BodyTokens, AtAttribute, AtString;
    StandsParts(tokens, pos, [Ident(Keyword(t))], BodyTokens(t));
    assert tokens[pos + 0] == [Ident(Keyword(t))][0];
    KeywordsDiffer(t);
    BodyBlamed(tokens, pos + 1, t);
    DocumentStops(tokens, pos, doc, Keyword(t), Blame(t).value);
  }

  lemma {:induction false} ItemsBlamed(tokens: seq<Token>, pos: nat, items: seq<Item>, doc: Document)
    requires Stands(tokens, pos, ItemsTokens(items)) && AtRBrace(tokens, pos + |ItemsTokens(items)|) && DocumentBlame(items).Some?
    ensures ParseItems(tokens, pos, doc) == Err(DocumentBlame(items).value)
    decreases items
  {
    hide ParseItems, Blame, Meaning, NodeTokens, AtAttribute;
    var i := items[0];
    StandsParts(tokens, pos, ItemTokens(i), ItemsTokens(items[1..]));
    NoAttributeItem(tokens, pos + |ItemTokens(i)|, items[1..]);
    NextItemStarts(tokens, pos + |ItemTokens(i)|, items[1..]);
    if i.NodeItem? && Blame(i.node).Some? {
      ItemBlamed(tokens, pos, i.node, doc);
    } else {
      if i.NodeItem? {
        BlameIff(i.node);
      }
      ItemParses(tokens, pos, i, doc);
      ItemsBlamed(tokens, pos + |ItemTokens(i)|, items[1..], WithItem(i, doc).value);
    }
  }

  lemma DocumentBlamed(items: seq<Item>)
    requires DocumentBlame(items).Some?
    ensures ParseDocument(DocumentTokens(items)) == Err(DocumentBlame(items).value)
  {
    hide ParseItems, ItemsTokens, DocumentBlame;
    var tokens := DocumentTokens(items);
    assert tokens == [Ident("page")] + ([LBrace] + ItemsTokens(items) + [RBrace]);
    StandsParts(tokens, 0, [Ident("page")], [LBrace] + ItemsTokens(items) + [RBrace]);
    BracesStand(tokens, 1, ItemsTokens(items));
    ItemsBlamed(tokens, 2, items, Document(None, []));
  }

  /** The parser rejects a derivation with the error of its first bad node, wherever it is
      nested and whatever is wrong further on, and accepts it when there is none. */
  lemma FirstBadNodeIsBlamed(items: seq<Item>)
    ensures ParseDocument(DocumentTokens(items)).Err? <==> DocumentBlame(items).Some?
    ensures DocumentBlame(items).Some? ==> ParseDocument(DocumentTokens(items)) == Err(DocumentBlame(items).value)
  {
    hide ParseDocument, DocumentTokens, DocumentBlame, DocumentMeaning;
    DocumentBlameIff(items, Document(None, []));
    if DocumentBlame(items).Some? {
      DocumentBlamed(items);
    } else {
      GrammarIsAccepted(items);
    }
  }
}
