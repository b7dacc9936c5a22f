// Unfinished VOID UI pages. The parser reports an early end exactly when more tokens can
// still make a page of what it has seen; every other error is final, and given at the
// first token that no page can continue with (core/protocol/src/ui.rs).

module VoidUiPrefixes {
  import opened Prelude
  import opened Uri
  import opened Lexer
  import opened TokenStream
  import opened VoidUi

  // ---- Errors are final -------------------------------------------------

  /** `r`, obtained with fewer tokens, stands with more: a value stays, and so does an
      error other than an early end. */
  predicate Kept<T(==)>(r: Parsed<T>, more: Parsed<T>) {
    r == Err(UnexpectedEof) || r == more
  }

  lemma TokenKept(tokens: seq<Token>, more: seq<Token>, pos: nat, expected: Token, word: string)
    ensures Kept(NextIdent(tokens, pos), NextIdent(tokens + more, pos))
    ensures Kept(NextString(tokens, pos), NextString(tokens + more, pos))
    ensures Kept(NextBool(tokens, pos), NextBool(tokens + more, pos))
    ensures Kept(Expect(tokens, pos, expected), Expect(tokens + more, pos, expected))
    ensures Kept(ExpectIdent(tokens, pos, word), ExpectIdent(tokens + more, pos, word))
    ensures pos < |tokens| ==> (AtRBrace(tokens, pos) <==> AtRBrace(tokens + more, pos))
  {
  }

  lemma {:induction false} ButtonPropsKept(tokens: seq<Token>, more: seq<Token>, pos: nat, c: Option<string>, a: Option<string>)
    requires pos <= |tokens|
    ensures Kept(ParseButtonProps(tokens, pos, c, a), ParseButtonProps(tokens + more, pos, c, a))
    decreases |tokens| - pos
  {
    if pos + 1 < |tokens| && tokens[pos + 1].Str? {
      ButtonPropsKept(tokens, more, pos + 2, Some(tokens[pos + 1].value), a);
      ButtonPropsKept(tokens, more, pos + 2, c, Some(tokens[pos + 1].value));
    }
  }

  lemma {:induction false} InputPropsKept(tokens: seq<Token>, more: seq<Token>, pos: nat, st: InputState)
    requires pos <= |tokens|
    ensures Kept(ParseInputProps(tokens, pos, st), ParseInputProps(tokens + more, pos, st))
    decreases |tokens| - pos
  {
    if pos + 1 < |tokens| {
      var next := tokens[pos + 1];
      if next.Str? {
        InputPropsKept(tokens, more, pos + 2, st.(id := Some(next.value)));
        InputPropsKept(tokens, more, pos + 2, st.(placeholder := Some(next.value)));
      } else if next.Ident? {
        InputPropsKept(tokens, more, pos + 2, st.(secure := next.name == "true"));
      }
    }
  }

  lemma ButtonKept(tokens: seq<Token>, more: seq<Token>, pos: nat)
    requires pos <= |tokens|
    ensures Kept(ParseButton(tokens, pos), ParseButton(tokens + more, pos))
  {
    hide ParseButtonProps, MakeButton;
    if pos < |tokens| {
      ButtonPropsKept(tokens, more, pos + 1, None, None);
    }
  }

  lemma InputKept(tokens: seq<Token>, more: seq<Token>, pos: nat)
    requires pos <= |tokens|
    ensures Kept(ParseInput(tokens, pos), ParseInput(tokens + more, pos))
  {
    hide ParseInputProps, MakeInput;
    if pos < |tokens| {
      InputPropsKept(tokens, more, pos + 1, InputState(None, None, false));
    }
  }

  lemma {:induction false} NodeKept(tokens: seq<Token>, more: seq<Token>, pos: nat, word: string)
    requires pos <= |tokens|
    ensures Kept(ParseNode(tokens, pos, word), ParseNode(tokens + more, pos, word))
    decreases |tokens| - pos, 1
  {
    hide ParseButton, ParseInput, ParseNodes, KindNamed;
    ButtonKept(tokens, more, pos);
    InputKept(tokens, more, pos);
    if pos < |tokens| {
      NodesKept(tokens, more, pos + 1, []);
    }
  }

  lemma {:induction false} NodesKept(tokens: seq<Token>, more: seq<Token>, pos: nat, nodes: seq<Node>)
    requires pos <= |tokens|
    ensures Kept(ParseNodes(tokens, pos, nodes), ParseNodes(tokens + more, pos, nodes))
    decreases |tokens| - pos, 0
  {
    hide ParseNode;
    if pos < |tokens| && tokens[pos].Ident? {
      var word := tokens[pos].name;
      NodeKept(tokens, more, pos + 1, word);
      if ParseNode(tokens, pos + 1, word).Ok? {
        var (node, end) := ParseNode(tokens, pos + 1, word).value;
        NodesKept(tokens, more, end, nodes + [node]);
      }
    }
  }

  lemma {:induction false} PageItemsKept(tokens: seq<Token>, more: seq<Token>, pos: nat, page: Page)
    requires pos <= |tokens|
    ensures Kept(ParsePageItems(tokens, pos, page), ParsePageItems(tokens + more, pos, page))
    decreases |tokens| - pos
  {
    hide ParseNode;
    if pos < |tokens| && tokens[pos].Ident? {
      var word := tokens[pos].name;
      if word == "title" {
        if pos + 1 < |tokens| && tokens[pos + 1].Str? {
          PageItemsKept(tokens, more, pos + 2, page.(title := Some(tokens[pos + 1].value)));
        }
      } else {
        NodeKept(tokens, more, pos + 1, word);
        if ParseNode(tokens, pos + 1, word).Ok? {
          var (node, end) := ParseNode(tokens, pos + 1, word).value;
          PageItemsKept(tokens, more, end, page.(children := page.children + [node]));
        }
      }
    }
  }

  /** An error other than an early end stays, whatever follows; and nothing may follow a page. */
  lemma ErrorsAreFinal(tokens: seq<Token>, more: seq<Token>)
    ensures ParsePage(tokens).Err? && ParsePage(tokens) != Err(UnexpectedEof) ==> ParsePage(tokens + more) == ParsePage(tokens)
    ensures ParsePage(tokens).Ok? && more != [] ==> ParsePage(tokens + more) == Err(UnexpectedToken(more[0]))
  {
    hide ParsePageItems;
    if |tokens| >= 2 {
      PageItemsKept(tokens, more, 2, Page(None, []));
    }
  }

  // ---- Early ends can be mended -----------------------------------------

  /** With these tokens appended the step succeeds and takes them all. */
  predicate Done<T>(r: Parsed<T>, tokens: seq<Token>, more: seq<Token>) {
    r.Ok? && r.value.1 == |tokens + more|
  }

  const BUTTON_END: seq<Token> := [Ident("label"), Str(""), Ident("action"), Str("void://a"), RBrace]

  lemma ButtonEnds(tokens: seq<Token>, c: Option<string>, a: Option<string>)
    ensures ParseButtonProps(tokens + BUTTON_END, |tokens|, c, a) == Ok(((Some(""), Some("void://a")), |tokens| + 5))
  {
    var all, n := tokens + BUTTON_END, |tokens|;
    assert all[n] == Ident("label") && all[n + 1] == Str("") && all[n + 2] == Ident("action") && all[n + 3] == Str("void://a");
    assert all[n + 4] == RBrace;
    assert ParseButtonProps(all, n + 4, Some(""), Some("void://a")) == Ok(((Some(""), Some("void://a")), n + 5));
    assert ParseButtonProps(all, n + 2, Some(""), a) == ParseButtonProps(all, n + 4, Some(""), Some("void://a"));
    assert "label" != "action";
  }

  lemma SomeUriParses()
    ensures FromStr("void://a").Ok?
  {
    var s := "void://a";
    assert s[7..] == "a";
    assert SplitOnce("a", '?').None? && SplitOnce("a", '/').None?;
  }

  lemma {:induction false} ButtonPropsMend(tokens: seq<Token>, pos: nat, c: Option<string>, a: Option<string>) returns (more: seq<Token>)
    requires pos <= |tokens| && ParseButtonProps(tokens, pos, c, a) == Err(UnexpectedEof)
    ensures var r := ParseButtonProps(tokens + more, pos, c, a);
            Done(r, tokens, more) && r.value.0 == (Some(""), Some("void://a"))
    decreases |tokens| - pos
  {
    if pos == |tokens| {
      more := BUTTON_END;
      ButtonEnds(tokens, c, a);
    } else if pos + 1 == |tokens| {
      more := [Str("")] + BUTTON_END;
      var longer := tokens + [Str("")];
      assert tokens + more == longer + BUTTON_END;
      assert longer[pos + 1] == Str("");
      ButtonEnds(longer, Some(""), a);
      ButtonEnds(longer, c, Some(""));
    } else if tokens[pos].name == "label" {
      more := ButtonPropsMend(tokens, pos + 2, Some(tokens[pos + 1].value), a);
    } else {
      more := ButtonPropsMend(tokens, pos + 2, c, Some(tokens[pos + 1].value));
    }
  }

  const INPUT_END: seq<Token> := [Ident("id"), Str(""), RBrace]

  lemma InputEnds(tokens: seq<Token>, st: InputState)
    ensures ParseInputProps(tokens + INPUT_END, |tokens|, st) == Ok((st.(id := Some("")), |tokens| + 3))
  {
    var all, n := tokens + INPUT_END, |tokens|;
    assert all[n] == Ident("id") && all[n + 1] == Str("") && all[n + 2] == RBrace;
    assert ParseInputProps(all, n + 2, st.(id := Some(""))) == Ok((st.(id := Some("")), n + 3));
  }

  lemma {:induction false} InputPropsMend(tokens: seq<Token>, pos: nat, st: InputState) returns (more: seq<Token>)
    requires pos <= |tokens| && ParseInputProps(tokens, pos, st) == Err(UnexpectedEof)
    ensures var r := ParseInputProps(tokens + more, pos, st); Done(r, tokens, more) && r.value.0.id == Some("")
    decreases |tokens| - pos
  {
    if pos == |tokens| {
      more := INPUT_END;
      InputEnds(tokens, st);
    } else if pos + 1 == |tokens| {
      var value := if tokens[pos].name == "secure" then Ident("true") else Str("");
      more := [value] + INPUT_END;
      var longer := tokens + [value];
      assert tokens + more == longer + INPUT_END;
      assert longer[pos + 1] == value;
      InputEnds(longer, st.(id := Some("")));
      InputEnds(longer, st.(placeholder := Some("")));
      InputEnds(longer, st.(secure := true));
    } else {
      var next := tokens[pos + 1];
      if tokens[pos].name == "id" {
        more := InputPropsMend(tokens, pos + 2, st.(id := Some(next.value)));
      } else if tokens[pos].name == "placeholder" {
        more := InputPropsMend(tokens, pos + 2, st.(placeholder := Some(next.value)));
      } else {
        more := InputPropsMend(tokens, pos + 2, st.(secure := next.name == "true"));
      }
    }
  }

  lemma ButtonMend(tokens: seq<Token>, pos: nat) returns (more: seq<Token>)
    requires pos <= |tokens| && ParseButton(tokens, pos) == Err(UnexpectedEof)
    ensures Done(ParseButton(tokens + more, pos), tokens, more)
  {
    hide ParseButtonProps, FromStr;
    SomeUriParses();
    if pos == |tokens| {
      more := [LBrace] + BUTTON_END;
      assert tokens + more == (tokens + [LBrace]) + BUTTON_END;
      ButtonEnds(tokens + [LBrace], None, None);
    } else {
      more := ButtonPropsMend(tokens, pos + 1, None, None);
    }
  }

  lemma InputMend(tokens: seq<Token>, pos: nat) returns (more: seq<Token>)
    requires pos <= |tokens| && ParseInput(tokens, pos) == Err(UnexpectedEof)
    ensures Done(ParseInput(tokens + more, pos), tokens, more)
  {
    hide ParseInputProps;
    if pos == |tokens| {
      more := [LBrace] + INPUT_END;
      assert tokens + more == (tokens + [LBrace]) + INPUT_END;
      InputEnds(tokens + [LBrace], InputState(None, None, false));
    } else {
      more := InputPropsMend(tokens, pos + 1, InputState(None, None, false));
    }
  }

  lemma BoxMend(tokens: seq<Token>, pos: nat, word: string) returns (more: seq<Token>)
    requires pos == |tokens| && KindNamed(word).Some?
    ensures Done(ParseNode(tokens + more, pos, word), tokens, more)
  {
    more := [LBrace, RBrace];
    var all := tokens + more;
    assert all[pos] == LBrace && AtRBrace(all, pos + 1);
    assert ParseNodes(all, pos + 1, []) == Ok(([], pos + 2));
  }

  lemma {:induction false} NodeMend(tokens: seq<Token>, pos: nat, word: string) returns (more: seq<Token>)
    requires pos <= |tokens| && ParseNode(tokens, pos, word) == Err(UnexpectedEof)
    ensures Done(ParseNode(tokens + more, pos, word), tokens, more)
    decreases |tokens| - pos, 1
  {
    hide ParseButton, ParseInput, ParseNodes, KindNamed;
    if KindNamed(word).Some? {
      if pos == |tokens| {
        more := BoxMend(tokens, pos, word);
      } else {
        more := NodesMend(tokens, pos + 1, []);
      }
    } else if word == "text" {
      more := [Str("")];
    } else if word == "button" {
      more := ButtonMend(tokens, pos);
    } else {
      more := InputMend(tokens, pos);
    }
  }

  lemma {:induction false} NodesMend(tokens: seq<Token>, pos: nat, nodes: seq<Node>) returns (more: seq<Token>)
    requires pos <= |tokens| && ParseNodes(tokens, pos, nodes) == Err(UnexpectedEof)
    ensures Done(ParseNodes(tokens + more, pos, nodes), tokens, more)
    decreases |tokens| - pos, 0
  {
    hide ParseNode;
    if pos == |tokens| {
      more := [RBrace];
    } else {
      var word := tokens[pos].name;
      if ParseNode(tokens, pos + 1, word).Ok? {
        var (node, end) := ParseNode(tokens, pos + 1, word).value;
        more := NodesMend(tokens, end, nodes + [node]);
        NodeKept(tokens, more, pos + 1, word);
      } else {
        var first := NodeMend(tokens, pos + 1, word);
        var longer := tokens + first;
        more := first + [RBrace];
        assert tokens + more == longer + [RBrace];
        NodeKept(longer, [RBrace], pos + 1, word);
        assert AtRBrace(longer + [RBrace], |longer|);
        var (node, _) := ParseNode(longer, pos + 1, word).value;
        NodesClose(longer + [RBrace], |longer|, nodes + [node]);
      }
    }
  }

  lemma NodesClose(tokens: seq<Token>, pos: nat, nodes: seq<Node>)
    requires AtRBrace(tokens, pos)
    ensures ParseNodes(tokens, pos, nodes) == Ok((nodes, pos + 1))
  {
  }

  lemma PageCloses(tokens: seq<Token>, pos: nat, page: Page)
    requires AtRBrace(tokens, pos)
    ensures ParsePageItems(tokens, pos, page) == Ok((page, pos + 1))
  {
  }

  lemma {:induction false} PageItemsMend(tokens: seq<Token>, pos: nat, page: Page) returns (more: seq<Token>)
    requires pos <= |tokens| && ParsePageItems(tokens, pos, page) == Err(UnexpectedEof)
    ensures Done(ParsePageItems(tokens + more, pos, page), tokens, more)
    decreases |tokens| - pos
  {
    hide ParseNode;
    if pos == |tokens| {
      more := [RBrace];
    } else {
      var word := tokens[pos].name;
      if word == "title" {
        if pos + 1 == |tokens| {
          more := [Str(""), RBrace];
          PageCloses(tokens + more, pos + 2, page.(title := Some("")));
        } else {
          more := PageItemsMend(tokens, pos + 2, page.(title := Some(tokens[pos + 1].value)));
        }
      } else if ParseNode(tokens, pos + 1, word).Ok? {
        var (node, end) := ParseNode(tokens, pos + 1, word).value;
        more := PageItemsMend(tokens, end, page.(children := page.children + [node]));
        NodeKept(tokens, more, pos + 1, word);
      } else {
        var first := NodeMend(tokens, pos + 1, word);
        var longer := tokens + first;
        more := first + [RBrace];
        assert tokens + more == longer + [RBrace];
        NodeKept(longer, [RBrace], pos + 1, word);
        assert AtRBrace(longer + [RBrace], |longer|);
        var (node, _) := ParseNode(longer, pos + 1, word).value;
        PageCloses(longer + [RBrace], |longer|, page.(children := page.children + [node]));
      }
    }
  }

  lemma PageMend(tokens: seq<Token>) returns (more: seq<Token>)
    requires ParsePage(tokens) == Err(UnexpectedEof)
    ensures ParsePage(tokens + more).Ok?
  {
    hide ParsePageItems;
    if |tokens| < 2 {
      more := [Ident("page"), LBrace, RBrace][|tokens|..];
      assert tokens + more == [Ident("page"), LBrace, RBrace];
      PageCloses(tokens + more, 2, Page(None, []));
    } else {
      more := PageItemsMend(tokens, 2, Page(None, []));
    }
  }

  /** An early end is reported exactly for the token lists that are no page but can be
      completed to one. */
  lemma EarlyEndIffCompletable(tokens: seq<Token>)
    ensures ParsePage(tokens) == Err(UnexpectedEof)
       <==> ParsePage(tokens).Err? && exists more :: ParsePage(tokens + more).Ok?
  {
    hide ParsePage;
    if ParsePage(tokens) == Err(UnexpectedEof) {
      var more := PageMend(tokens);
    } else if ParsePage(tokens).Err? {
      forall more ensures ParsePage(tokens + more).Err? {
        ErrorsAreFinal(tokens, more);
      }
    }
  }

  // ---- The token an error names -----------------------------------------

  /** The error quotes the token, or was found when a brace closed a node. */
  predicate Names(e: UiError, t: Token) {
    match e
    case UnexpectedToken(u) => u == t
    case ExpectedIdent(_, actual) => t == Ident(actual)
    case UnknownNode(name) => t == Ident(name)
    case UnknownProperty(name) => t == Ident(name)
    case InvalidBool(word) => t == Ident(word)
    case MissingProperty(_) => t == RBrace
    case InvalidAction(_) => t == RBrace
    case _ => false
  }

  /** If one more token `t` turns an early end into another error, the error names `t`; if
      it turns it into a value, the value takes all the `n` tokens. */
  predicate Named<T>(r: Parsed<T>, more: Parsed<T>, t: Token, n: nat) {
    r == Err(UnexpectedEof) ==>
      match more
      case Err(e) => e == UnexpectedEof || Names(e, t)
      case Ok((_, end)) => end == n
  }

  lemma {:induction false} ButtonPropsNamed(tokens: seq<Token>, t: Token, pos: nat, c: Option<string>, a: Option<string>)
    requires pos <= |tokens|
    ensures Named(ParseButtonProps(tokens, pos, c, a), ParseButtonProps(tokens + [t], pos, c, a), t, |tokens| + 1)
    ensures ParseButtonProps(tokens, pos, c, a) == Err(UnexpectedEof) && ParseButtonProps(tokens + [t], pos, c, a).Ok? ==> t == RBrace
    decreases |tokens| - pos
  {
    if pos + 1 < |tokens| && tokens[pos + 1].Str? {
      ButtonPropsNamed(tokens, t, pos + 2, Some(tokens[pos + 1].value), a);
      ButtonPropsNamed(tokens, t, pos + 2, c, Some(tokens[pos + 1].value));
    }
  }

  lemma {:induction false} InputPropsNamed(tokens: seq<Token>, t: Token, pos: nat, st: InputState)
    requires pos <= |tokens|
    ensures Named(ParseInputProps(tokens, pos, st), ParseInputProps(tokens + [t], pos, st), t, |tokens| + 1)
    ensures ParseInputProps(tokens, pos, st) == Err(UnexpectedEof) && ParseInputProps(tokens + [t], pos, st).Ok? ==> t == RBrace
    decreases |tokens| - pos
  {
    if pos + 1 < |tokens| {
      var next := tokens[pos + 1];
      if next.Str? {
        InputPropsNamed(tokens, t, pos + 2, st.(id := Some(next.value)));
        InputPropsNamed(tokens, t, pos + 2, st.(placeholder := Some(next.value)));
      } else if next.Ident? {
        InputPropsNamed(tokens, t, pos + 2, st.(secure := next.name == "true"));
      }
    }
  }

  lemma NothingLeft(tokens: seq<Token>, nodes: seq<Node>, page: Page)
    ensures ParseButtonProps(tokens, |tokens|, None, None) == Err(UnexpectedEof)
    ensures ParseInputProps(tokens, |tokens|, InputState(None, None, false)) == Err(UnexpectedEof)
    ensures ParseNodes(tokens, |tokens|, nodes) == Err(UnexpectedEof)
    ensures ParsePageItems(tokens, |tokens|, page) == Err(UnexpectedEof)
  {
  }

  lemma ButtonNamed(tokens: seq<Token>, t: Token, pos: nat)
    requires pos <= |tokens|
    ensures Named(ParseButton(tokens, pos), ParseButton(tokens + [t], pos), t, |tokens| + 1)
  {
    hide ParseButtonProps, FromStr;
    NothingLeft(tokens + [t], [], Page(None, []));
    if pos < |tokens| {
      ButtonPropsNamed(tokens, t, pos + 1, None, None);
      ButtonPropsKept(tokens, [t], pos + 1, None, None);
    }
  }

  lemma InputNamed(tokens: seq<Token>, t: Token, pos: nat)
    requires pos <= |tokens|
    ensures Named(ParseInput(tokens, pos), ParseInput(tokens + [t], pos), t, |tokens| + 1)
  {
    hide ParseInputProps;
    NothingLeft(tokens + [t], [], Page(None, []));
    if pos < |tokens| {
      InputPropsNamed(tokens, t, pos + 1, InputState(None, None, false));
      InputPropsKept(tokens, [t], pos + 1, InputState(None, None, false));
    }
  }

  lemma {:induction false} NodeNamed(tokens: seq<Token>, t: Token, pos: nat, word: string)
    requires pos <= |tokens|
    ensures Named(ParseNode(tokens, pos, word), ParseNode(tokens + [t], pos, word), t, |tokens| + 1)
    decreases |tokens| - pos, 1
  {
    hide ParseButton, ParseInput, ParseNodes, KindNamed, Names;
    ButtonNamed(tokens, t, pos);
    InputNamed(tokens, t, pos);
    NothingLeft(tokens + [t], [], Page(None, []));
    NamesItself(t);
    if pos < |tokens| {
      NodesNamed(tokens, t, pos + 1, []);
    }
  }

  lemma NamesItself(t: Token)
    ensures Names(UnexpectedToken(t), t)
    ensures t.Ident? ==> Names(UnknownNode(t.name), t)
  {
  }

  lemma NodeAtEnd(tokens: seq<Token>, word: string)
    ensures ParseNode(tokens, |tokens|, word) == Err(UnexpectedEof) || ParseNode(tokens, |tokens|, word) == Err(UnknownNode(word))
  {
  }

  lemma {:induction false} NodesNamed(tokens: seq<Token>, t: Token, pos: nat, nodes: seq<Node>)
    requires pos <= |tokens|
    ensures Named(ParseNodes(tokens, pos, nodes), ParseNodes(tokens + [t], pos, nodes), t, |tokens| + 1)
    decreases |tokens| - pos, 0
  {
    hide ParseNode, Names;
    var all := tokens + [t];
    NamesItself(t);
    if pos == |tokens| {
      if t.Ident? {
        NodeAtEnd(all, t.name);
      }
    } else if tokens[pos].Ident? {
      var word := tokens[pos].name;
      NodeKept(tokens, [t], pos + 1, word);
      NodeNamed(tokens, t, pos + 1, word);
      if ParseNode(all, pos + 1, word).Ok? {
        var (node, end) := ParseNode(all, pos + 1, word).value;
        if end <= |tokens| {
          NodesNamed(tokens, t, end, nodes + [node]);
        } else {
          NothingLeft(all, nodes + [node], Page(None, []));
        }
      }
    }
  }

  lemma {:induction false} PageItemsNamed(tokens: seq<Token>, t: Token, pos: nat, page: Page)
    requires pos <= |tokens|
    ensures Named(ParsePageItems(tokens, pos, page), ParsePageItems(tokens + [t], pos, page), t, |tokens| + 1)
    decreases |tokens| - pos
  {
    hide ParseNode, Names;
    var all := tokens + [t];
    NamesItself(t);
    if pos == |tokens| {
      if t.Ident? {
        NodeAtEnd(all, t.name);
      }
    } else if tokens[pos].Ident? {
      var word := tokens[pos].name;
      if word == "title" {
        if pos + 1 < |tokens| && tokens[pos + 1].Str? {
          PageItemsNamed(tokens, t, pos + 2, page.(title := Some(tokens[pos + 1].value)));
        } else if t.Str? {
          NothingLeft(all, [], page.(title := Some(t.value)));
        }
      } else {
        NodeKept(tokens, [t], pos + 1, word);
        NodeNamed(tokens, t, pos + 1, word);
        if ParseNode(all, pos + 1, word).Ok? {
          var (node, end) := ParseNode(all, pos + 1, word).value;
          var longer := page.(children := page.children + [node]);
          if end <= |tokens| {
            PageItemsNamed(tokens, t, end, longer);
          } else {
            NothingLeft(all, [], longer);
          }
        }
      }
    }
  }

  lemma PageNamed(tokens: seq<Token>, t: Token)
    ensures ParsePage(tokens) == Err(UnexpectedEof) && ParsePage(tokens + [t]).Err?
            ==> ParsePage(tokens + [t]) == Err(UnexpectedEof) || Names(ParsePage(tokens + [t]).error, t)
  {
    hide ParsePageItems;
    var all := tokens + [t];
    if |tokens| >= 2 {
      PageItemsNamed(tokens, t, 2, Page(None, []));
      PageItemsKept(tokens, [t], 2, Page(None, []));
    } else if |tokens| == 1 {
      NothingLeft(all, [], Page(None, []));
    }
  }

  /** Some tokens make a page of these. */
  ghost predicate Viable(tokens: seq<Token>) {
    exists more :: ParsePage(tokens + more).Ok?
  }

  lemma ViableIff(tokens: seq<Token>)
    ensures Viable(tokens) <==> ParsePage(tokens).Ok? || ParsePage(tokens) == Err(UnexpectedEof)
  {
    hide ParsePage;
    EarlyEndIffCompletable(tokens);
    assert tokens + [] == tokens;
  }

  /** Errors come at the earliest token: any other error names the first token that no page
      can continue with, and was decided by it, whatever follows. */
  lemma ErrorAtFirstDeadToken(tokens: seq<Token>) returns (k: nat)
    requires ParsePage(tokens).Err? && ParsePage(tokens) != Err(UnexpectedEof)
    ensures k < |tokens| && Viable(tokens[..k]) && !Viable(tokens[..k + 1])
    ensures Names(ParsePage(tokens).error, tokens[k])
    ensures ParsePage(tokens[..k + 1]) == ParsePage(tokens)
  {
    hide ParsePage, Names, Viable;
    k := 0;
    NoTokens();
    ViableIff([]);
    assert tokens[..0] == [] && tokens[..|tokens|] == tokens;
    ViableIff(tokens);
    while Viable(tokens[..k + 1])
      invariant k < |tokens| && Viable(tokens[..k])
      decreases |tokens| - k
    {
      k := k + 1;
    }
    var init, t := tokens[..k], tokens[k];
    assert tokens[..k + 1] == init + [t] && tokens == tokens[..k + 1] + tokens[k + 1..];
    ViableIff(init);
    ViableIff(init + [t]);
    ErrorsAreFinal(init + [t], tokens[k + 1..]);
    ErrorsAreFinal(init, [t]);
    PageNamed(init, t);
    NamesItself(t);
  }

  lemma NoTokens()
    ensures ParsePage([]) == Err(UnexpectedEof)
  {
  }
}
