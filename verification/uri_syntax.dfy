// The syntax of VOID URIs, written out: which texts parse, to which URI, and which
// error the others get (core/protocol/src/lib.rs).

module UriSyntax {
  import opened Prelude
  import opened Uri

  /** Letters, digits, and `.`, `-`, `_`, `:`. */
  predicate LegalChar(ch: char) {
    'a' <= ch <= 'z' || 'A' <= ch <= 'Z' || '0' <= ch <= '9' || ch == '.' || ch == '-' || ch == '_' || ch == ':'
  }

  predicate Legal(authority: string) {
    authority != "" && forall k :: 0 <= k < |authority| ==> LegalChar(authority[k])
  }

  lemma LegalIff(ch: char)
    ensures IsAuthorityChar(ch) <==> LegalChar(ch)
  {
    var marks := ".-_:";
    assert marks[0] == '.' && marks[1] == '-' && marks[2] == '_' && marks[3] == ':';
  }

  lemma LegalAuthority(authority: string)
    ensures Legal(authority) <==> authority != "" && forall k :: 0 <= k < |authority| ==> IsAuthorityChar(authority[k])
    ensures Legal(authority) ==> '/' !in authority && '?' !in authority
  {
    forall ch: char ensures IsAuthorityChar(ch) <==> LegalChar(ch) {
      LegalIff(ch);
    }
  }

  // ---- The constructor --------------------------------------------------

  /** The constructor keeps what it is given, with a slash put in front of a path that
      does not start with one; an empty authority and an illegal one are told apart. */
  lemma NewIs(authority: string, path: string, query: Option<string>)
    ensures New(authority, path, query)
         == if authority == "" then Err(MissingAuthority)
            else if Legal(authority) then Ok(VoidUri(authority, if "/" <= path then path else "/" + path, query))
            else Err(InvalidAuthority(authority))
  {
    LegalAuthority(authority);
    if path != "" {
      assert "/" <= path <==> path[0] == '/';
    } else {
      assert "/" + path == "/";
    }
  }

  // ---- Texts ------------------------------------------------------------

  function QueryText(query: Option<string>): string {
    if query.Some? then "?" + query.value else ""
  }

  /** `raw` has the scheme, then `authority`, then nothing or a path or a query. */
  predicate Names(raw: string, authority: string, rest: string) {
    && raw == "void://" + (authority + rest) && '/' !in authority && '?' !in authority && StartsPart(rest)
  }

  /** `raw` spells the URI: its path may be left out when it is `/`. */
  predicate Spells(raw: string, u: VoidUri) {
    && Legal(u.authority) && "/" <= u.path && '?' !in u.path
    && (raw == "void://" + u.authority + u.path + QueryText(u.query)
        || (u.path == "/" && raw == "void://" + u.authority + QueryText(u.query)))
  }

  /** The parts of a text after its scheme: authority, path and query. */
  lemma PartsOf(afterScheme: string) returns (authority: string, path: Option<string>, query: Option<string>)
    ensures afterScheme == authority + (if path.Some? then "/" + path.value else "") + QueryText(query)
    ensures '/' !in authority && '?' !in authority && (path.Some? ==> '?' !in path.value)
    ensures ParseAfterScheme(afterScheme) == New(authority, "/" + (if path.Some? then path.value else ""), query)
  {
    hide SplitOnce, New;
    var withoutQuery: string;
    match SplitOnce(afterScheme, '?') {
      case Some((head, tail)) =>
        withoutQuery, query := head, Some(tail);
        assert afterScheme == head + ("?" + tail);
      case None =>
        withoutQuery, query := afterScheme, None;
        assert afterScheme == afterScheme + "";
    }
    assert afterScheme == withoutQuery + QueryText(query) && '?' !in withoutQuery;
    match SplitOnce(withoutQuery, '/') {
      case Some((head, tail)) =>
        authority, path := head, Some(tail);
        assert withoutQuery == head + ("/" + tail);
        assert forall k :: 0 <= k < |head| ==> head[k] == withoutQuery[k];
        assert forall k :: 0 <= k < |tail| ==> tail[k] == withoutQuery[|head| + 1 + k];
      case None =>
        authority, path := withoutQuery, None;
        assert withoutQuery == withoutQuery + "";
        assert "/" + "" == "/";
    }
  }

  predicate StartsPart(rest: string) {
    rest == "" || rest[0] == '/' || rest[0] == '?'
  }

  lemma NoShorter(a: string, s: string, b: string, t: string)
    requires a + s == b + t && '/' !in b && '?' !in b && StartsPart(s)
    ensures |b| <= |a|
  {
    assert forall k :: 0 <= k < |b| ==> (a + s)[k] == b[k];
    assert s != "" ==> (a + s)[|a|] == s[0];
  }

  /** The authority of a text is determined. */
  lemma AuthorityUnique(a: string, s: string, b: string, t: string)
    requires a + s == b + t && '/' !in a && '?' !in a && '/' !in b && '?' !in b && StartsPart(s) && StartsPart(t)
    ensures a == b && s == t
  {
    NoShorter(a, s, b, t);
    NoShorter(b, t, a, s);
    var w := a + s;
    assert a == w[..|a|] && b == w[..|b|] && s == w[|a|..] && t == w[|b|..];
  }

  /** Exactly the texts that spell a URI parse, and each to the URI it spells. */
  lemma ParsesIff(raw: string, u: VoidUri)
    ensures FromStr(raw) == Ok(u) <==> Spells(raw, u)
  {
    hide New, ParseAfterScheme;
    if FromStr(raw) == Ok(u) {
      ParsedSpells(raw);
    }
    if Spells(raw, u) {
      SpelledParses(raw, u);
    }
  }

  lemma ParsedSpells(raw: string)
    requires FromStr(raw).Ok?
    ensures Spells(raw, FromStr(raw).value)
  {
    hide New, ParseAfterScheme, Spells, QueryText, Legal;
    var after := raw[7..];
    assert raw == "void://" + after;
    var authority, path, query := PartsOf(after);
    NewIs(authority, "/" + (if path.Some? then path.value else ""), query);
    PartsSpell(authority, path, query);
  }

  lemma PartsSpell(authority: string, path: Option<string>, query: Option<string>)
    requires Legal(authority) && (path.Some? ==> '?' !in path.value)
    ensures Spells("void://" + (authority + (if path.Some? then "/" + path.value else "") + QueryText(query)),
                   VoidUri(authority, "/" + (if path.Some? then path.value else ""), query))
  {
    hide QueryText, Legal;
    var q := QueryText(query);
    if path.Some? {
      Regroup(authority, "/" + path.value, q);
    } else {
      Regroup(authority, "", q);
      assert authority + "" == authority && "/" + "" == "/";
    }
  }

  lemma Regroup(a: string, b: string, c: string)
    ensures "void://" + (a + b + c) == "void://" + a + b + c == "void://" + (a + b) + c
  {
  }

  lemma SpelledParses(raw: string, u: VoidUri)
    requires Spells(raw, u)
    ensures FromStr(raw) == Ok(u)
  {
    hide FromStr, Display;
    LegalAuthority(u.authority);
    if raw == "void://" + u.authority + u.path + QueryText(u.query) {
      FullySpelled(raw, u);
    } else {
      BareSpelled(u);
      assert raw == "void://" + (u.authority + QueryText(u.query));
    }
  }

  lemma FullySpelled(raw: string, u: VoidUri)
    requires WellBuilt(u) && '?' !in u.path && raw == "void://" + u.authority + u.path + QueryText(u.query)
    ensures FromStr(raw) == Ok(u)
  {
    hide FromStr;
    RoundTripIff(u);
    assert raw == Display(u);
  }

  /** Without a path the authority ends at the query, or with the text. */
  lemma BareSpelled(u: VoidUri)
    requires Legal(u.authority) && u.path == "/"
    ensures FromStr("void://" + (u.authority + QueryText(u.query))) == Ok(u)
  {
    hide FromStr, New, ParseAfterScheme, QueryText, StartsPart, Legal;
    var tail := QueryText(u.query);
    var after := u.authority + tail;
    SchemeStripped(after);
    LegalAuthority(u.authority);
    QueryStarts(u.query);
    var authority, path, query := PartsOf(after);
    var rest := RestOf(authority, path, query);
    AuthorityUnique(u.authority, tail, authority, rest);
    SameParts(path, query, u.query);
    NewIs(authority, "/", query);
    assert "/" + "" == "/";
  }

  lemma PathIsNoQuery(path: string, more: string, query: Option<string>)
    ensures "/" + path + more != QueryText(query)
  {
    assert ("/" + path + more)[0] == '/';
  }

  lemma SameParts(path: Option<string>, query: Option<string>, only: Option<string>)
    requires (if path.Some? then "/" + path.value else "") + QueryText(query) == QueryText(only)
    ensures path == None && query == only
  {
    var rest := QueryText(only);
    PathIsNoQuery(if path.Some? then path.value else "", QueryText(query), only);
    assert "" + QueryText(query) == QueryText(query);
    assert query.Some? ==> query.value == QueryText(query)[1..];
    assert only.Some? ==> only.value == rest[1..];
  }

  /** Whoever names the authority of a text names the same one. */
  lemma NamedOnce(raw: string, a: string, s: string, b: string, t: string)
    requires Names(raw, a, s) && Names(raw, b, t)
    ensures a == b
  {
    assert a + s == raw[7..] && b + t == raw[7..];
    AuthorityUnique(a, s, b, t);
  }

  lemma NamedAuthority(raw: string) returns (authority: string, path: string, query: Option<string>, rest: string)
    requires "void://" <= raw
    ensures Names(raw, authority, rest) && FromStr(raw) == New(authority, "/" + path, query)
  {
    hide New, ParseAfterScheme, FromStr, QueryText;
    var after := raw[7..];
    assert raw == "void://" + after;
    SchemeStripped(after);
    var p;
    authority, p, query := PartsOf(after);
    path := if p.Some? then p.value else "";
    rest := RestOf(authority, p, query);
    assert after == authority + rest;
  }

  lemma QueryStarts(query: Option<string>)
    ensures StartsPart(QueryText(query))
  {
  }

  lemma RestOf(authority: string, path: Option<string>, query: Option<string>) returns (rest: string)
    ensures StartsPart(rest) && rest == (if path.Some? then "/" + path.value else "") + QueryText(query)
    ensures authority + rest == authority + (if path.Some? then "/" + path.value else "") + QueryText(query)
  {
    var p := if path.Some? then "/" + path.value else "";
    rest := p + QueryText(query);
    assert authority + rest == authority + p + QueryText(query);
  }

  /** Each error is given exactly in its case. */
  lemma FailsIff(raw: string)
    ensures FromStr(raw) == Err(InvalidScheme) <==> !("void://" <= raw)
    ensures FromStr(raw) == Err(MissingAuthority) <==> exists rest :: Names(raw, "", rest)
    ensures forall a :: FromStr(raw) == Err(InvalidAuthority(a)) <==> a != "" && !Legal(a) && exists rest :: Names(raw, a, rest)
  {
    hide New, ParseAfterScheme, Names, FromStr, Legal;
    SchemeJudged(raw);
    if "void://" <= raw {
      var authority, path, query, rest := NamedAuthority(raw);
      NewIs(authority, "/" + path, query);
      forall a, r | Names(raw, a, r) ensures a == authority {
        NamedOnce(raw, a, r, authority, rest);
      }
    }
  }

  lemma SchemeJudged(raw: string)
    ensures !("void://" <= raw) ==> FromStr(raw) == Err(InvalidScheme) && forall a, r :: !Names(raw, a, r)
    ensures "void://" <= raw ==> FromStr(raw) != Err(InvalidScheme)
  {
    hide ParseAfterScheme;
    if "void://" <= raw {
      var authority, path, query, rest := NamedAuthority(raw);
      NewIs(authority, "/" + path, query);
    }
  }
}
