// VOID URIs (core/protocol/src/lib.rs).

module Uri {
  import opened Prelude

  datatype VoidUri = VoidUri(authority: string, path: string, query: Option<string>)

  datatype UriError = InvalidScheme | MissingAuthority | InvalidAuthority(authority: string)

  predicate IsAsciiAlphanumeric(ch: char) {
    'a' <= ch <= 'z' || 'A' <= ch <= 'Z' || '0' <= ch <= '9'
  }

  predicate IsAuthorityChar(ch: char) {
    IsAsciiAlphanumeric(ch) || ch in ".-_:"
  }

  /** `str::split_once`: the text before and after the first `sep`. */
  function SplitOnce(s: string, sep: char): (r: Option<(string, string)>)
    ensures r.None? <==> sep !in s
    ensures r.Some? ==> s == r.value.0 + [sep] + r.value.1 && sep !in r.value.0
  {
    if s == "" then None
    else if s[0] == sep then Some(("", s[1..]))
    else
      match SplitOnce(s[1..], sep)
      case None => None
      case Some((head, tail)) => Some(([s[0]] + head, tail))
  }

  function New(authority: string, path: string, query: Option<string>): Result<VoidUri, UriError> {
    if authority == "" then Err(MissingAuthority)
    else if exists k :: 0 <= k < |authority| && !IsAuthorityChar(authority[k]) then Err(InvalidAuthority(authority))
    else
      var nonEmpty := if path == "" then "/" else path;
      Ok(VoidUri(authority, if nonEmpty[0] == '/' then nonEmpty else "/" + nonEmpty, query))
  }

  function Display(u: VoidUri): string {
    "void://" + u.authority + u.path + (if u.query.Some? then "?" + u.query.value else "")
  }

  /** The part of `from_str` after the scheme has been stripped. */
  function ParseAfterScheme(afterScheme: string): Result<VoidUri, UriError> {
    var (withoutQuery, query) :=
      match SplitOnce(afterScheme, '?')
      case Some((head, tail)) => (head, Some(tail))
      case None => (afterScheme, None);
    match SplitOnce(withoutQuery, '/')
    case Some((authority, path)) => New(authority, "/" + path, query)
    case None => New(withoutQuery, "/", query)
  }

  function FromStr(raw: string): Result<VoidUri, UriError> {
    if "void://" <= raw then ParseAfterScheme(raw[|"void://"|..]) else Err(InvalidScheme)
  }

  /** What `New` guarantees of every URI value. */
  predicate WellBuilt(u: VoidUri) {
    && u.authority != ""
    && (forall k :: 0 <= k < |u.authority| ==> IsAuthorityChar(u.authority[k]))
    && u.path != "" && u.path[0] == '/'
  }

  lemma NewIsWellBuilt(authority: string, path: string, query: Option<string>)
    ensures New(authority, path, query).Ok? ==> WellBuilt(New(authority, path, query).value)
  {
  }

  /** The first occurrence of a separator is where a separator-free prefix ends. */
  lemma SplitOnceAt(head: string, sep: char, tail: string)
    requires sep !in head
    ensures SplitOnce(head + [sep] + tail, sep) == Some((head, tail))
  {
    hide SplitOnce;
    var s := head + [sep] + tail;
    assert s[|head|] == sep;
    var (h, t) := SplitOnce(s, sep).value;
    assert s[|h|] == sep;
    assert forall k :: 0 <= k < |h| ==> s[k] == h[k] && h[k] != sep;
    assert forall k :: 0 <= k < |head| ==> s[k] == head[k] && head[k] != sep;
    assert |h| == |head|;
    assert h == s[..|h|] && head == s[..|h|];
    assert t == s[|h| + 1..] && tail == s[|h| + 1..];
  }

  /** The URI that comes back when a URI is printed and parsed. */
  function Reparsed(u: VoidUri): VoidUri {
    match SplitOnce(u.path, '?')
    case None => u
    case Some((head, tail)) => VoidUri(u.authority, head, Some(tail + if u.query.Some? then "?" + u.query.value else ""))
  }

  lemma ReparsedPath(u: VoidUri)
    requires WellBuilt(u)
    ensures var v := Reparsed(u);
            && v.path != "" && v.path[0] == '/' && '?' !in v.path
            && Suffixed(u) == Suffixed(v)
  {
    if '?' in u.path {
      var (h, t) := SplitOnce(u.path, '?').value;
      assert u.path == h + "?" + t;
      assert h != "" && h[0] == u.path[0];
      var suffix := if u.query.Some? then "?" + u.query.value else "";
      assert u.path + suffix == h + ("?" + (t + suffix));
    }
  }

  /** Path and query as printed. */
  function Suffixed(u: VoidUri): string {
    u.path + (if u.query.Some? then "?" + u.query.value else "")
  }

  lemma HeadParses(authority: string, path: string, query: Option<string>)
    requires WellBuilt(VoidUri(authority, path, query)) && '?' !in path
    ensures var head := authority + path;
            && '?' !in head
            && SplitOnce(head, '/') == Some((authority, path[1..]))
            && New(authority, "/" + path[1..], query) == Ok(VoidUri(authority, path, query))
  {
    assert '?' !in authority && '/' !in authority;
    assert authority + path == authority + ['/'] + path[1..];
    SplitOnceAt(authority, '/', path[1..]);
    assert "/" + path[1..] == path;
  }

  /** Printing and parsing any well-built URI succeeds, and moves whatever follows
      a `?` in the path into the query. */
  lemma PrintThenParse(u: VoidUri)
    requires WellBuilt(u)
    ensures FromStr(Display(u)) == Ok(Reparsed(u))
  {
    var v := Reparsed(u);
    ReparsedPath(u);
    HeadParses(u.authority, v.path, v.query);
    var head, afterScheme := u.authority + v.path, u.authority + Suffixed(u);
    DisplayForm(u);
    SchemeStripped(afterScheme);
    SplitsAtQuery(head, afterScheme, v);
  }

  lemma DisplayForm(u: VoidUri)
    ensures Display(u) == "void://" + (u.authority + Suffixed(u))
  {
    var suffix := if u.query.Some? then "?" + u.query.value else "";
    assert "void://" + u.authority + u.path + suffix == "void://" + (u.authority + (u.path + suffix));
  }

  lemma SplitsAtQuery(head: string, afterScheme: string, v: VoidUri)
    requires head == v.authority + v.path && afterScheme == v.authority + Suffixed(v)
    requires v.path != "" && '?' !in head && SplitOnce(head, '/') == Some((v.authority, v.path[1..]))
    ensures ParseAfterScheme(afterScheme) == New(v.authority, "/" + v.path[1..], v.query)
  {
    hide SplitOnce, New;
    if v.query.Some? {
      assert afterScheme == head + ['?'] + v.query.value;
      SplitOnceAt(head, '?', v.query.value);
      assert SplitOnce(afterScheme, '?') == Some((head, v.query.value));
    } else {
      assert afterScheme == head;
      assert SplitOnce(afterScheme, '?') == None;
    }
  }

  lemma SchemeStripped(afterScheme: string)
    ensures FromStr("void://" + afterScheme) == ParseAfterScheme(afterScheme)
  {
    hide ParseAfterScheme;
    assert ("void://" + afterScheme)[|"void://"|..] == afterScheme;
  }

  /** A well-built URI survives printing and parsing exactly when its path has no `?`. */
  lemma RoundTripIff(u: VoidUri)
    requires WellBuilt(u)
    ensures FromStr(Display(u)) == Ok(u) <==> '?' !in u.path
  {
    hide FromStr, Display;
    PrintThenParse(u);
    ReparsedPath(u);
  }

  lemma ParsedHasNoQuery(afterScheme: string)
    requires ParseAfterScheme(afterScheme).Ok?
    ensures '?' !in ParseAfterScheme(afterScheme).value.path
  {
    hide SplitOnce;
  }

  lemma ParsedIsWellBuilt(afterScheme: string)
    requires ParseAfterScheme(afterScheme).Ok?
    ensures WellBuilt(ParseAfterScheme(afterScheme).value)
  {
    hide SplitOnce, New, WellBuilt;
    var (withoutQuery, query) :=
      match SplitOnce(afterScheme, '?')
      case Some((head, tail)) => (head, Some(tail))
      case None => (afterScheme, None);
    match SplitOnce(withoutQuery, '/')
    case Some((authority, path)) => NewIsWellBuilt(authority, "/" + path, query);
    case None => NewIsWellBuilt(withoutQuery, "/", query);
  }

  /** Every string that parses has a canonical form: the parsed URI prints to a
      string that parses to the same URI, and its path starts with `/` and has no `?`. */
  lemma ParsedIsCanonical(raw: string)
    requires FromStr(raw).Ok?
    ensures var u := FromStr(raw).value;
            && WellBuilt(u) && '?' !in u.path
            && FromStr(Display(u)) == Ok(u)
            && Display(FromStr(Display(u)).value) == Display(u)
  {
    hide ParseAfterScheme, Display, WellBuilt;
    ParsedHasNoQuery(raw[|"void://"|..]);
    ParsedIsWellBuilt(raw[|"void://"|..]);
    RoundTripIff(FromStr(raw).value);
  }
}
