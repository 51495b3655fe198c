// The slice of Go's net/url (url.Parse, URL.String, URL.EscapedPath) and of
// path.Join that the normalisers depend on, as a record plus a parser and a
// serialiser. The record follows the generic syntax of section 3 of RFC 3986:
// scheme ":" ( "//" authority path-abempty / path ) [ "?" query ].
module Urls {
  import opened Results
  import opened Strings
  import opened Query
  import opened Hosts

  /** The fields of url.URL that the normalisers read or write. `path` is the
      decoded path; `rawPath` is the encoding hint url.Parse keeps when the
      source spelt the path differently from the default encoding; `omitHost`
      records a `scheme:/path` source without `//`. */
  datatype Url = Url(scheme: string, opaqueData: string, host: string, path: string,
                     rawPath: string, omitHost: bool, rawQuery: string)

  predicate IsLetter(c: char) {
    'a' <= c <= 'z' || 'A' <= c <= 'Z'
  }

  predicate IsSchemeChar(c: char) {
    IsLetter(c) || '0' <= c <= '9' || c == '+' || c == '-' || c == '.'
  }

  /** A scheme as url.Parse leaves it: empty, or a letter followed by scheme
      characters, in lower case. */
  predicate ValidScheme(s: string) {
    s == "" || (IsLetter(s[0]) && forall i :: 0 <= i < |s| ==> IsSchemeChar(s[i]) && !('A' <= s[i] <= 'Z'))
  }

  /** Length of the longest prefix made of scheme characters. */
  function SchemeSpan(s: string): (n: nat)
    ensures n <= |s|
    ensures forall i :: 0 <= i < n ==> IsSchemeChar(s[i])
    ensures n < |s| ==> !IsSchemeChar(s[n])
  {
    if |s| == 0 || !IsSchemeChar(s[0]) then 0 else 1 + SchemeSpan(s[1..])
  }

  /** getScheme: split off a leading `scheme:`; a string that starts with a
      digit, `+`, `-` or `.`, or whose first non-scheme character is not `:`,
      has no scheme; a leading `:` is an error. */
  function GetScheme(raw: string): Result<(string, string)>
  {
    if |raw| > 0 && !IsLetter(raw[0]) && IsSchemeChar(raw[0]) then Ok(("", raw))
    else
      var n := SchemeSpan(raw);
      if n < |raw| && raw[n] == ':' then
        if n == 0 then Err("missing protocol scheme") else Ok((raw[..n], raw[n + 1..]))
      else Ok(("", raw))
  }

  /** The path escaping of URL.EscapedPath, for the three characters this model
      escapes: `%`, `(` and `)`. net/url escapes every byte in a path except
      letters, digits, `-._~` and `$&+,/:;=@`, so also `?`, `!`, `'`, `*`, `"`,
      `#`, `<`, `>`, `[`, `]`, `\`, `^`, `` ` ``, `{`, `|`, `}`, a space, control
      bytes and non-ASCII bytes. The model writes those as they are. */
  function EscapeChar(c: char): string {
    if c == '%' then "%25" else if c == '(' then "%28" else if c == ')' then "%29" else [c]
  }

  function Escape(p: string): string {
    if |p| == 0 then "" else EscapeChar(p[0]) + Escape(p[1..])
  }

  /** The inverse decoding that url.Parse applies to a path. */
  function Unescape(s: string): string
    decreases |s|
  {
    if |s| == 0 then ""
    else if |s| >= 3 && s[..3] == "%25" then "%" + Unescape(s[3..])
    else if |s| >= 3 && s[..3] == "%28" then "(" + Unescape(s[3..])
    else if |s| >= 3 && s[..3] == "%29" then ")" + Unescape(s[3..])
    else [s[0]] + Unescape(s[1..])
  }

  lemma {:induction false} UnescapeEscape(p: string)
    ensures Unescape(Escape(p)) == p
  {
    if |p| > 0 {
      UnescapeEscape(p[1..]);
      var e := Escape(p);
      assert e == EscapeChar(p[0]) + Escape(p[1..]);
      UnescapeChar(p[0], Escape(p[1..]));
      assert p == [p[0]] + p[1..];
    }
  }

  /** Decoding undoes one escaped character. */
  lemma UnescapeChar(c: char, rest: string)
    ensures Unescape(EscapeChar(c) + rest) == [c] + Unescape(rest)
  {
    var e := EscapeChar(c) + rest;
    if c == '%' {
      assert e[..3] == "%25" && e[3..] == rest;
    } else if c == '(' {
      assert e[..3] == "%28" && e[3..] == rest;
    } else if c == ')' {
      assert e[..3] == "%29" && e[3..] == rest;
    } else {
      assert e[0] == c && e[1..] == rest;
      assert |e| >= 3 ==> e[..3][0] == c;
    }
  }

  lemma {:induction false} UnescapeEmpty(s: string)
    ensures Unescape(s) == "" <==> s == ""
  {
  }

  /** Text this model's path escaping leaves alone. */
  predicate NoEscape(s: string) {
    '%' !in s && '(' !in s && ')' !in s
  }

  lemma {:induction false} EscapeAppend(a: string, b: string)
    ensures Escape(a + b) == Escape(a) + Escape(b)
    decreases |a|
  {
    if |a| > 0 {
      assert (a + b)[0] == a[0] && (a + b)[1..] == a[1..] + b;
      EscapeAppend(a[1..], b);
    } else {
      assert a + b == b;
    }
  }

  lemma {:induction false} EscapePlain(p: string)
    requires NoEscape(p)
    ensures Escape(p) == p
    decreases |p|
  {
    if |p| > 0 {
      EscapePlain(p[1..]);
      assert p == [p[0]] + p[1..];
    }
  }

  /** Text without escapes decodes to itself. */
  lemma UnescapePlain(p: string)
    requires NoEscape(p)
    ensures Unescape(p) == p && RawPathHint(p) == ""
  {
    EscapePlain(p);
    UnescapeEscape(p);
  }

  /** Text without `%` decodes to itself. */
  lemma {:induction false} UnescapeNoPercent(s: string)
    requires '%' !in s
    ensures Unescape(s) == s
    decreases |s|
  {
    if |s| > 0 {
      assert |s| >= 3 ==> s[..3][0] == s[0];
      assert '%' !in s[1..] by {
        assert forall i :: 0 <= i < |s[1..]| ==> s[1..][i] == s[i + 1];
      }
      UnescapeNoPercent(s[1..]);
      assert s == [s[0]] + s[1..];
    }
  }

  /** Decoding never produces a `?`. */
  lemma {:induction false} UnescapeNoQuery(s: string)
    requires '?' !in s
    ensures '?' !in Unescape(s)
    decreases |s|
  {
    if |s| >= 3 && s[..3] in {"%25", "%28", "%29"} {
      assert '?' !in s[3..] by {
        assert forall i :: 0 <= i < |s[3..]| ==> s[3..][i] == s[i + 3];
      }
      UnescapeNoQuery(s[3..]);
    } else if |s| > 0 {
      assert '?' !in s[1..] by {
        assert forall i :: 0 <= i < |s[1..]| ==> s[1..][i] == s[i + 1];
      }
      UnescapeNoQuery(s[1..]);
    }
  }

  /** Escaping never produces a `?`. */
  lemma {:induction false} EscapeNoQuery(s: string)
    requires '?' !in s
    ensures '?' !in Escape(s)
    decreases |s|
  {
    if |s| > 0 {
      assert '?' !in s[1..] by {
        assert forall i :: 0 <= i < |s[1..]| ==> s[1..][i] == s[i + 1];
      }
      EscapeNoQuery(s[1..]);
    }
  }

  /** Escaping writes no control byte where there was none. */
  lemma {:induction false} EscapeNoControl(s: string)
    requires NoControl(s)
    ensures NoControl(Escape(s))
    decreases |s|
  {
    if |s| > 0 {
      assert s == [s[0]] + s[1..];
      NoControlAppend([s[0]], s[1..]);
      EscapeNoControl(s[1..]);
      NoControlAppend(EscapeChar(s[0]), Escape(s[1..]));
    }
  }

  /** Decoding makes no control byte either: `%25`, `%28` and `%29` are the
      only escapes it reads. */
  lemma {:induction false} UnescapeNoControl(s: string)
    requires NoControl(s)
    ensures NoControl(Unescape(s))
    decreases |s|
  {
    if |s| > 0 {
      if |s| >= 3 && (s[..3] == "%25" || s[..3] == "%28" || s[..3] == "%29") {
        DropNoControl(s, 3);
        UnescapeNoControl(s[3..]);
        NoControlAppend([Unescape(s)[0]], Unescape(s[3..]));
      } else {
        DropNoControl(s, 1);
        UnescapeNoControl(s[1..]);
        NoControlAppend([s[0]], Unescape(s[1..]));
      }
    }
  }

  /** Escaping keeps a leading `/`. */
  lemma EscapeRooted(s: string)
    requires HasPrefix(s, "/")
    ensures Escape(s) != "" && Escape(s)[0] == '/'
  {
    assert s == [s[0]] + s[1..];
    EscapeAppend([s[0]], s[1..]);
    assert Escape([s[0]]) == "/";
  }

  /** url.setPath's RawPath: kept only when it differs from the default encoding. */
  function RawPathHint(p: string): string {
    if Escape(Unescape(p)) == p then "" else p
  }

  /** URL.EscapedPath: RawPath when it still encodes Path, else Path escaped. */
  function EscapedPath(u: Url): string {
    if u.rawPath != "" && Unescape(u.rawPath) == u.path then u.rawPath else Escape(u.path)
  }

  lemma EscapedPathDecodes(u: Url)
    ensures Unescape(EscapedPath(u)) == u.path
  {
    UnescapeEscape(u.path);
  }

  /** The path of a URL whose escaped path holds no control byte holds none. */
  lemma PathNoControl(u: Url)
    requires NoControl(EscapedPath(u))
    ensures NoControl(u.path)
  {
    EscapedPathDecodes(u);
    UnescapeNoControl(EscapedPath(u));
  }

  /** The authority ends at the first `/`; the rest is the path. */
  function SplitAuthority(s: string): (r: (string, string))
    ensures r.0 + r.1 == s
    ensures '/' !in r.0
    ensures r.1 == "" || r.1[0] == '/'
  {
    var i := IndexOf(s, '/');
    assert s == s[..i] + s[i..];
    (s[..i], s[i..])
  }

  /** url.Parse, for locators without user information or fragment. */
  const ControlError := "net/url: invalid control character in URL"

  /** url.Parse: a string holding a control byte is refused before anything
      else; otherwise the scheme and the query are split off. */
  function Parse(raw: string): Result<Url>
  {
    if !NoControl(raw) then Err(ControlError)
    else
      var sr :- GetScheme(raw);
      var (rest, rawQuery, _) := Cut(sr.1, '?');
      ParseHier(ToLower(sr.0), rest, rawQuery)
  }

  /** The part of url.Parse after the scheme and the query are split off: an
      opaque `scheme:data`, a colon in a relative first segment (an error), an
      authority `//host/path`, or a bare path. */
  function ParseHier(scheme: string, rest: string, rawQuery: string): Result<Url>
  {
    if !HasPrefix(rest, "/") && scheme != "" then
      Ok(Url(scheme, rest, "", "", "", false, rawQuery))
    else if !HasPrefix(rest, "/") && ':' in Cut(rest, '/').0 then
      Err("first path segment in URL cannot contain colon")
    else if (scheme != "" || !HasPrefix(rest, "///")) && HasPrefix(rest, "//") then
      var (authority, p) := SplitAuthority(rest[2..]);
      var host :- ParseHost(authority);
      Ok(Url(scheme, "", host, Unescape(p), RawPathHint(p), false, rawQuery))
    else
      Ok(Url(scheme, "", "", Unescape(rest), RawPathHint(rest), scheme != "" && HasPrefix(rest, "/"), rawQuery))
  }

  /** The `//host` part URL.String writes, with the host escaped: nothing for
      a host-less `scheme:/path` source, and no `//` when host and path are
      both empty. */
  function Authority(u: Url): string {
    if (u.scheme != "" || u.host != "") && !(u.omitHost && u.host == "") then
      (if u.host != "" || u.path != "" then "//" else "") + EscapeHost(u.host)
    else ""
  }

  /** The path as URL.String writes it: escaped, after a `/` that separates it
      from a host when it does not start with one. */
  function WrittenPath(u: Url): string {
    var p := EscapedPath(u);
    (if p != "" && p[0] != '/' && u.host != "" then "/" else "") + p
  }

  /** URL.String for a URL that is not opaque, without the query: a `./` keeps
      a relative path whose first segment holds a colon from reading as a scheme. */
  function Hierarchy(u: Url): string {
    var p := EscapedPath(u);
    var dot := if u.scheme == "" && u.host == "" && ':' in Cut(p, '/').0 then "./" else "";
    Authority(u) + dot + WrittenPath(u)
  }

  /** What URL.String writes between `scheme:` and `?query`. */
  function Body(u: Url): string {
    if u.opaqueData != "" then u.opaqueData else Hierarchy(u)
  }

  /** URL.String. */
  function Render(u: Url): string {
    (if u.scheme != "" then u.scheme + ":" else "")
    + Body(u)
    + QueryPart(u.rawQuery)
  }

  /** `?` and the raw query, or nothing when the raw query is empty. */
  function QueryPart(rawQuery: string): string {
    if rawQuery != "" then "?" + rawQuery else ""
  }

  /** A control byte in the query is one in the whole URL. */
  lemma QueryPartControl(prefix: string, q: string)
    requires !NoControl(q)
    ensures !NoControl(prefix + QueryPart(q))
  {
    var c :| c in q && IsControl(c);
    assert c in prefix + QueryPart(q);
  }

  /** The URLs that URL.String writes so that url.Parse reads the same fields
      back (this model's URL.String leaves `?` and control bytes in a path
      as they are, so neither may appear), except that the path comes back as written (see Reparsed). */
  predicate Shaped(u: Url) {
    var e := EscapedPath(u);
    && ValidScheme(u.scheme)
    && CleanHost(u.host)
    && '?' !in e
    && NoControl(e) && NoControl(u.opaqueData) && NoControl(u.rawQuery)
    && (u.opaqueData != "" ==>
          u.scheme != "" && '?' !in u.opaqueData && u.opaqueData[0] != '/' && u.host == "" && u.path == "" && !u.omitHost)
    && (u.omitHost ==> u.scheme != "" && u.host == "" && u.opaqueData == "" && HasPrefix(e, "/") && !HasPrefix(e, "//"))
    && (u.opaqueData == "" && u.scheme != "" && u.host == "" ==> e == "" || e[0] == '/')
    && (u.scheme == "" && u.host == "" ==> ':' !in Cut(e, '/').0 && (HasPrefix(e, "//") ==> HasPrefix(e, "///")))
  }

  /** The URLs url.Parse returns: shaped, with a path that needs no separating
      `/` and RawPath set as url.Parse sets it. */
  predicate WellFormed(u: Url) {
    var e := EscapedPath(u);
    Shaped(u) && (e == "" || e[0] == '/' || u.host == "") && u.rawPath == RawPathHint(e)
  }

  /** A URL with a host, neither opaque nor host-omitting, is shaped as soon
      as its host reads back as written and its path holds no `?`. */
  lemma ShapedAuthority(u: Url)
    requires ValidScheme(u.scheme) && u.host != "" && CleanHost(u.host)
    requires '?' !in EscapedPath(u) && u.opaqueData == "" && !u.omitHost
    requires NoControl(EscapedPath(u)) && NoControl(u.rawQuery)
    ensures Shaped(u)
  {
  }

  /** Does the URL carry a `region` parameter (with any value)? */
  predicate HasRegion(v: Url) {
    "region" in ParseQuery(v.rawQuery)
  }

  /** The URL url.Parse reads back from what URL.String writes for `u`: the
      path as written, decoded, with its RawPath hint recomputed. */
  function Reparsed(u: Url): Url {
    var w := WrittenPath(u);
    u.(path := Unescape(w), rawPath := RawPathHint(w))
  }

  lemma {:induction false} SchemeSpanPrefix(a: string, b: string)
    requires forall i :: 0 <= i < |a| ==> IsSchemeChar(a[i])
    requires b == "" || !IsSchemeChar(b[0])
    ensures SchemeSpan(a + b) == |a|
    decreases |a|
  {
    if |a| > 0 {
      assert (a + b)[1..] == a[1..] + b;
      SchemeSpanPrefix(a[1..], b);
    } else {
      assert a + b == b;
    }
  }

  lemma ToLowerValid(s: string)
    requires ValidScheme(s)
    ensures ToLower(s) == s
  {
  }

  lemma ValidSchemeLower(s: string)
    requires s == "" || IsLetter(s[0])
    requires forall i :: 0 <= i < |s| ==> IsSchemeChar(s[i])
    ensures ValidScheme(ToLower(s))
  {
    var r := ToLower(s);
    forall i | 0 <= i < |r|
      ensures IsSchemeChar(r[i]) && !('A' <= r[i] <= 'Z')
    {
      LowerSchemeChar(s[i]);
    }
    if s != "" {
      LowerSchemeChar(s[0]);
    }
  }

  lemma LowerSchemeChar(c: char)
    requires IsSchemeChar(c)
    ensures IsSchemeChar(LowerChar(c)) && !('A' <= LowerChar(c) <= 'Z')
    ensures IsLetter(c) ==> IsLetter(LowerChar(c))
  {
  }

  lemma {:induction false} IndexOfPrefix(a: string, b: string, c: char)
    requires c !in a
    ensures IndexOf(a + b, c) == |a| + IndexOf(b, c)
    decreases |a|
  {
    if |a| > 0 {
      assert (a + b)[1..] == a[1..] + b;
      IndexOfPrefix(a[1..], b, c);
    } else {
      assert a + b == b;
    }
  }

  /** Text free of the separator in front of a string stays in front of the
      first piece of strings.Cut. */
  lemma CutPrefix(a: string, b: string, c: char)
    requires c !in a
    ensures Cut(a + b, c) == (a + Cut(b, c).0, Cut(b, c).1, Cut(b, c).2)
  {
    var (x, y, found) := Cut(b, c);
    if found {
      assert a + b == (a + x) + [c] + y;
      CutUnique(a + b, c, a + x, y);
    } else {
      assert c !in a + b;
    }
  }

  /** Cutting `a + "?" + q` at the first `?` when `a` has none. */
  lemma CutQuery(a: string, q: string)
    requires '?' !in a
    ensures Cut(a + QueryPart(q), '?').0 == a
    ensures Cut(a + QueryPart(q), '?').1 == q
  {
    var s := a + QueryPart(q);
    IndexOfPrefix(a, QueryPart(q), '?');
    if q != "" {
      assert s[..|a|] == a && s[|a| + 1..] == q;
    } else {
      assert s == a;
    }
  }

  lemma GetSchemeOf(scheme: string, rest: string)
    requires ValidScheme(scheme) && scheme != ""
    ensures GetScheme(scheme + ":" + rest) == Ok((scheme, rest))
  {
    var raw := scheme + ":" + rest;
    assert raw == scheme + (":" + rest);
    SchemeSpanPrefix(scheme, ":" + rest);
    assert raw[..|scheme|] == scheme && raw[|scheme| + 1..] == rest;
  }

  /** A relative reference whose first segment has no colon has no scheme. */
  lemma GetSchemeNone(e: string, q: string)
    requires '?' !in e && ':' !in Cut(e, '/').0
    requires q == "" || q[0] == '?'
    ensures GetScheme(e + q) == Ok(("", e + q))
  {
    var raw := e + q;
    var n := SchemeSpan(raw);
    var k := IndexOf(e, '/');
    assert forall j :: 0 <= j < |e| ==> raw[j] == e[j];
    assert q != "" ==> raw[|e|] == '?';
    assert n < |raw| && raw[n] == ':' ==> n < |e|;
    assert Cut(e, '/').0 == e[..k];
    assert forall j :: 0 <= j < k ==> e[..k][j] == e[j];
  }

  lemma GetSchemeSlash(raw: string)
    requires HasPrefix(raw, "/")
    ensures GetScheme(raw) == Ok(("", raw))
  {
    assert raw[0] == '/';
  }

  /** With no RawPath hint to honour, an empty path is written as nothing. */
  lemma EscapedPathEmpty(u: Url)
    requires u.path == ""
    ensures EscapedPath(u) == "" && RawPathHint(EscapedPath(u)) == ""
  {
    UnescapeEmpty(u.rawPath);
  }

  /** What URL.String writes around the body has no `?` before the query. */
  lemma BodyNoQuery(u: Url)
    requires Shaped(u)
    ensures '?' !in Body(u)
  {
    HostSeparators(u.host);
    assert '?' !in Authority(u);
  }

  /** A scheme is made of letters, digits, `+`, `-` and `.`. */
  lemma SchemeNoControl(s: string)
    requires ValidScheme(s)
    ensures NoControl(s)
  {
    forall c | c in s
      ensures !IsControl(c)
    {
      var i :| 0 <= i < |s| && s[i] == c;
    }
  }

  /** What URL.String writes around the body holds no control byte. */
  lemma BodyNoControl(u: Url)
    requires Shaped(u)
    ensures NoControl(Body(u))
  {
    EscapeHostNoControl(u.host);
    assert NoControl(Authority(u));
    assert NoControl(WrittenPath(u));
  }

  lemma ParseOf(raw: string, scheme: string, tail: string)
    requires NoControl(raw) && GetScheme(raw) == Ok((scheme, tail))
    ensures Parse(raw) == ParseHier(ToLower(scheme), Cut(tail, '?').0, Cut(tail, '?').1)
  {
  }

  /** url.Parse of `scheme:rest` with a valid lower-case scheme. */
  lemma ParseSchemePrefix(scheme: string, rest: string)
    requires ValidScheme(scheme) && scheme != "" && NoControl(rest)
    ensures Parse(scheme + ":" + rest) == ParseHier(scheme, Cut(rest, '?').0, Cut(rest, '?').1)
  {
    SchemeNoControl(scheme);
    GetSchemeOf(scheme, rest);
    ToLowerValid(scheme);
    ParseOf(scheme + ":" + rest, scheme, rest);
  }

  lemma ParseSchemeBody(scheme: string, body: string, query: string)
    requires ValidScheme(scheme) && scheme != "" && '?' !in body
    requires NoControl(body) && NoControl(query)
    ensures Parse(scheme + ":" + (body + QueryPart(query))) == ParseHier(scheme, body, query)
  {
    SchemeNoControl(scheme);
    GetSchemeOf(scheme, body + QueryPart(query));
    ToLowerValid(scheme);
    ParseOf(scheme + ":" + (body + QueryPart(query)), scheme, body + QueryPart(query));
    CutQuery(body, query);
  }

  lemma ParseSlashBody(body: string, query: string)
    requires HasPrefix(body, "/") && '?' !in body && NoControl(body) && NoControl(query)
    ensures Parse(body + QueryPart(query)) == ParseHier("", body, query)
  {
    assert (body + QueryPart(query))[..1] == body[..1];
    GetSchemeSlash(body + QueryPart(query));
    ParseOf(body + QueryPart(query), "", body + QueryPart(query));
    CutQuery(body, query);
  }

  lemma ParseRelativeBody(body: string, query: string)
    requires '?' !in body && ':' !in Cut(body, '/').0 && NoControl(body) && NoControl(query)
    ensures Parse(body + QueryPart(query)) == ParseHier("", body, query)
  {
    GetSchemeNone(body, QueryPart(query));
    ParseOf(body + QueryPart(query), "", body + QueryPart(query));
    CutQuery(body, query);
  }

  /** url.Parse splits off what URL.String writes around the body again. */
  lemma ParseRendered(u: Url)
    requires Shaped(u)
    ensures Parse(Render(u)) == ParseHier(u.scheme, Body(u), u.rawQuery)
  {
    BodyNoQuery(u);
    BodyNoControl(u);
    if u.scheme != "" {
      RenderScheme(u);
      ParseSchemeBody(u.scheme, Body(u), u.rawQuery);
    } else if u.host != "" {
      RenderNoScheme(u);
      BodyAuthority(u);
      ParseSlashBody(Body(u), u.rawQuery);
    } else {
      RenderNoScheme(u);
      BodyRelative(u);
      ParseRelativeBody(Body(u), u.rawQuery);
    }
  }

  lemma RenderScheme(u: Url)
    requires u.scheme != ""
    ensures Render(u) == u.scheme + ":" + (Body(u) + QueryPart(u.rawQuery))
  {
  }

  lemma RenderNoScheme(u: Url)
    requires u.scheme == ""
    ensures Render(u) == Body(u) + QueryPart(u.rawQuery)
  {
  }

  lemma BodyRelative(u: Url)
    requires Shaped(u) && u.scheme == "" && u.host == ""
    ensures Body(u) == EscapedPath(u)
    ensures ':' !in Cut(Body(u), '/').0
  {
  }

  /** The body of a URL with an authority. */
  lemma BodyAuthority(u: Url)
    requires Shaped(u) && u.opaqueData == "" && !u.omitHost
    requires u.host != "" || (u.scheme != "" && u.path != "")
    ensures Body(u) == "//" + EscapeHost(u.host) + WrittenPath(u)
    ensures WrittenPath(u) == "" || WrittenPath(u)[0] == '/'
  {
    UnescapeEmpty(EscapedPath(u));
    EscapedPathDecodes(u);
    assert Authority(u) == "//" + EscapeHost(u.host);
    HierarchyNamed(u);
  }

  lemma HierOpaque(u: Url)
    requires Shaped(u) && u.opaqueData != ""
    ensures ParseHier(u.scheme, Body(u), u.rawQuery) == Ok(Reparsed(u))
  {
    EscapedPathEmpty(u);
  }

  lemma HierOmitHost(u: Url)
    requires Shaped(u) && u.omitHost
    ensures ParseHier(u.scheme, Body(u), u.rawQuery) == Ok(Reparsed(u))
  {
    var e := EscapedPath(u);
    assert u.scheme != "" && u.host == "" && u.opaqueData == "" && HasPrefix(e, "/") && !HasPrefix(e, "//");
    assert WrittenPath(u) == e;
    assert Authority(u) == "";
    assert Hierarchy(u) == e;
    ParseHierRooted(u.scheme, e, u.rawQuery);
  }

  lemma HierEmpty(u: Url)
    requires Shaped(u) && u.opaqueData == "" && !u.omitHost && u.scheme != "" && u.host == "" && u.path == ""
    ensures ParseHier(u.scheme, Body(u), u.rawQuery) == Ok(Reparsed(u))
  {
    EscapedPathEmpty(u);
    assert Body(u) == "";
  }

  /** url.Parse of `//authority/path`, with an authority that parses as a host. */
  lemma ParseHierAuthority(scheme: string, a: string, e: string, q: string)
    requires ParseHost(a).Ok? && (e == "" || e[0] == '/')
    requires scheme != "" || a != ""
    ensures ParseHier(scheme, "//" + a + e, q) == Ok(Url(scheme, "", ParseHost(a).value, Unescape(e), RawPathHint(e), false, q))
  {
    DecodableSeparators(a);
    AuthorityFront(scheme, a, e);
    ParseHierAuthorityOf(scheme, "//" + a + e, q);
  }

  /** url.Parse of `//authority/path` fails as the host check fails. */
  lemma ParseHierBadHost(scheme: string, a: string, e: string, q: string)
    requires ParseHost(a).Err? && '/' !in a && (e == "" || e[0] == '/')
    requires scheme != "" || a != ""
    ensures ParseHier(scheme, "//" + a + e, q) == Err(ParseHost(a).error)
  {
    AuthorityFront(scheme, a, e);
    ParseHierAuthorityOf(scheme, "//" + a + e, q);
  }

  /** `//a` followed by an empty or rooted path is read as an authority `a`. */
  lemma AuthorityFront(scheme: string, a: string, e: string)
    requires '/' !in a && (e == "" || e[0] == '/')
    requires scheme != "" || a != ""
    ensures var rest := "//" + a + e;
      HasPrefix(rest, "//") && (scheme != "" || !HasPrefix(rest, "///")) && SplitAuthority(rest[2..]) == (a, e)
  {
    var rest := "//" + a + e;
    SlashesInFront(a, e);
    if scheme == "" {
      assert rest[2] == a[0];
      assert !HasPrefix(rest, "///");
    }
    SplitAuthorityOf(a, e);
  }

  /** url.Parse of a rooted path with no authority. */
  lemma ParseHierRooted(scheme: string, rest: string, q: string)
    requires HasPrefix(rest, "/") && !HasPrefix(rest, "//")
    ensures ParseHier(scheme, rest, q) == Ok(Url(scheme, "", "", Unescape(rest), RawPathHint(rest), scheme != "", q))
  {
  }

  lemma SlashesInFront(host: string, e: string)
    ensures var rest := "//" + host + e;
      HasPrefix(rest, "//") && rest[2..] == host + e && (host != "" ==> rest[2] == host[0])
  {
  }

  /** The authority of `host` followed by an empty or rooted path is `host`. */
  lemma SplitAuthorityOf(host: string, e: string)
    requires '/' !in host && (e == "" || e[0] == '/')
    ensures SplitAuthority(host + e) == (host, e)
  {
    IndexOfPrefix(host, e, '/');
    assert IndexOf(e, '/') == 0;
    assert (host + e)[..|host|] == host && (host + e)[|host|..] == e;
  }

  lemma HierAuthority(u: Url)
    requires Shaped(u) && u.opaqueData == "" && !u.omitHost
    requires u.host != "" || (u.scheme != "" && u.path != "")
    ensures ParseHier(u.scheme, Body(u), u.rawQuery) == Ok(Reparsed(u))
  {
    BodyAuthority(u);
    HostEmpty("", u.host);
    ParseHierAuthority(u.scheme, EscapeHost(u.host), WrittenPath(u), u.rawQuery);
  }

  lemma HierRelative(u: Url)
    requires Shaped(u) && u.scheme == "" && u.host == ""
    ensures ParseHier(u.scheme, Body(u), u.rawQuery) == Ok(Reparsed(u))
  {
    assert Body(u) == EscapedPath(u) == WrittenPath(u);
  }

  /** Writing a shaped URL and parsing it again gives it back, with the path
      as written and its RawPath hint recomputed. */
  lemma RenderParse(u: Url)
    requires Shaped(u)
    ensures Parse(Render(u)) == Ok(Reparsed(u))
  {
    ParseRendered(u);
    if u.opaqueData != "" {
      HierOpaque(u);
    } else if u.omitHost {
      HierOmitHost(u);
    } else if u.scheme == "" && u.host == "" {
      HierRelative(u);
    } else if u.host == "" && u.path == "" {
      HierEmpty(u);
    } else {
      HierAuthority(u);
    }
  }

  /** A well-formed URL survives URL.String followed by url.Parse unchanged. */
  lemma RenderParseWellFormed(u: Url)
    requires WellFormed(u)
    ensures Parse(Render(u)) == Ok(u)
  {
    RenderParse(u);
    EscapedPathDecodes(u);
    assert WrittenPath(u) == EscapedPath(u);
  }

  lemma EscapedPathOfParsed(p: string, u: Url)
    requires u.path == Unescape(p) && u.rawPath == RawPathHint(p)
    ensures EscapedPath(u) == p
  {
    UnescapeEmpty(p);
  }

  /** What getScheme leaves after the scheme is the tail of the source. */
  lemma GetSchemeRest(raw: string)
    requires NoControl(raw) && GetScheme(raw).Ok?
    ensures NoControl(GetScheme(raw).value.1)
  {
    var n := SchemeSpan(raw);
    if n < |raw| && raw[n] == ':' && n != 0 && !(|raw| > 0 && !IsLetter(raw[0]) && IsSchemeChar(raw[0])) {
      assert raw == raw[..n + 1] + raw[n + 1..];
    }
  }

  /** getScheme leaves a scheme that lowers to a valid one. */
  lemma GetSchemeValid(raw: string)
    requires GetScheme(raw).Ok?
    ensures ValidScheme(ToLower(GetScheme(raw).value.0))
  {
    var s := GetScheme(raw).value.0;
    if s != "" {
      assert s[0] == raw[0];
    }
    ValidSchemeLower(s);
  }

  lemma AuthorityWellFormed(scheme: string, host: string, p: string, q: string)
    requires ValidScheme(scheme) && CleanHost(host) && '?' !in p
    requires p == "" || p[0] == '/'
    requires scheme == "" && host == "" ==> !HasPrefix(p, "/")
    requires NoControl(p) && NoControl(q)
    ensures WellFormed(Url(scheme, "", host, Unescape(p), RawPathHint(p), false, q))
  {
    EscapedPathOfParsed(p, Url(scheme, "", host, Unescape(p), RawPathHint(p), false, q));
  }

  lemma ParseHierAuthorityOf(scheme: string, rest: string, q: string)
    requires HasPrefix(rest, "//") && (scheme != "" || !HasPrefix(rest, "///"))
    ensures var (a, p) := SplitAuthority(rest[2..]);
      ParseHier(scheme, rest, q) == match ParseHost(a)
        case Ok(host) => Ok(Url(scheme, "", host, Unescape(p), RawPathHint(p), false, q))
        case Err(e) => Err(e)
  {
    assert rest[..1] == "/";
  }

  lemma HierAuthorityWellFormed(scheme: string, rest: string, q: string)
    requires ValidScheme(scheme) && '?' !in rest && NoControl(rest) && NoControl(q)
    requires HasPrefix(rest, "//") && (scheme != "" || !HasPrefix(rest, "///"))
    requires ParseHier(scheme, rest, q).Ok?
    ensures WellFormed(ParseHier(scheme, rest, q).value)
  {
    var (a, p) := SplitAuthority(rest[2..]);
    ParseHierAuthorityOf(scheme, rest, q);
    AuthorityParts(rest, a, p);
    HostCanonical(a);
    HostEmpty(a, "");
    AuthorityWellFormed(scheme, ParseHost(a).value, p, q);
  }

  /** The host and the path after `//` hold no `?` when the whole does not,
      and an empty host before a rooted path means the whole starts `///`. */
  lemma AuthorityParts(rest: string, host: string, p: string)
    requires '?' !in rest && HasPrefix(rest, "//") && host + p == rest[2..]
    ensures '?' !in host && '?' !in p
    ensures NoControl(rest) ==> NoControl(p)
    ensures host == "" && HasPrefix(p, "/") ==> HasPrefix(rest, "///")
  {
    assert rest == "//" + host + p by {
      assert rest == rest[..2] + rest[2..];
    }
    assert forall i :: 0 <= i < |host| ==> host[i] == rest[i + 2];
    assert forall i :: 0 <= i < |p| ==> p[i] == rest[i + 2 + |host|];
  }

  lemma HierPathWellFormed(scheme: string, rest: string, q: string)
    requires ValidScheme(scheme) && '?' !in rest && NoControl(rest) && NoControl(q)
    requires HasPrefix(rest, "/") || scheme == ""
    requires HasPrefix(rest, "/") || ':' !in Cut(rest, '/').0
    requires !((scheme != "" || !HasPrefix(rest, "///")) && HasPrefix(rest, "//"))
    ensures ParseHier(scheme, rest, q).Ok? && WellFormed(ParseHier(scheme, rest, q).value)
  {
    ParseHierPlain(scheme, rest, q);
    CleanEmpty();
    var u := ParseHier(scheme, rest, q).value;
    EscapedPathOfParsed(rest, u);
    assert EscapedPath(u) == rest && u.host == "" && u.opaqueData == "";
    if scheme != "" {
      assert HasPrefix(rest, "/") && !HasPrefix(rest, "//");
    } else if HasPrefix(rest, "/") {
      assert Cut(rest, '/').0 == "";
    }
    assert Shaped(u);
  }

  lemma ParseHierPlain(scheme: string, rest: string, q: string)
    requires HasPrefix(rest, "/") || scheme == ""
    requires HasPrefix(rest, "/") || ':' !in Cut(rest, '/').0
    requires !((scheme != "" || !HasPrefix(rest, "///")) && HasPrefix(rest, "//"))
    ensures ParseHier(scheme, rest, q)
            == Ok(Url(scheme, "", "", Unescape(rest), RawPathHint(rest), scheme != "" && HasPrefix(rest, "/"), q))
  {
  }

  /** The query url.Parse returns holds no control byte. */
  lemma ParsedQueryNoControl(raw: string)
    requires Parse(raw).Ok?
    ensures NoControl(Parse(raw).value.rawQuery)
  {
    ParseWellFormed(raw);
  }

  /** Whatever url.Parse returns is well formed. */
  lemma ParseWellFormed(raw: string)
    requires Parse(raw).Ok?
    ensures WellFormed(Parse(raw).value)
  {
    var sr := GetScheme(raw).value;
    var scheme := ToLower(sr.0);
    GetSchemeValid(raw);
    GetSchemeRest(raw);
    var (rest, rawQuery, _) := Cut(sr.1, '?');
    CutNoControl(sr.1, '?');
    assert Parse(raw) == ParseHier(scheme, rest, rawQuery);
    HierWellFormed(scheme, rest, rawQuery);
  }

  /** Each of the three shapes url.Parse accepts is well formed. */
  lemma HierWellFormed(scheme: string, rest: string, q: string)
    requires ValidScheme(scheme) && '?' !in rest && NoControl(rest) && NoControl(q)
    requires ParseHier(scheme, rest, q).Ok?
    ensures WellFormed(ParseHier(scheme, rest, q).value)
  {
    if !HasPrefix(rest, "/") && scheme != "" {
      assert ParseHier(scheme, rest, q).value == Url(scheme, rest, "", "", "", false, q);
    } else if (scheme != "" || !HasPrefix(rest, "///")) && HasPrefix(rest, "//") {
      HierAuthorityWellFormed(scheme, rest, q);
    } else {
      HierPathWellFormed(scheme, rest, q);
    }
  }

  /** Re-parsing what URL.String writes for a parsed URL is the identity: the
      `url.Parse(u.String())` copies taken by the Firestore and Mongo
      normalisers are copies of the same value. */
  lemma ParseRenderParse(raw: string)
    requires Parse(raw).Ok?
    ensures Parse(Render(Parse(raw).value)) == Parse(raw)
  {
    ParseWellFormed(raw);
    RenderParseWellFormed(Parse(raw).value);
  }

  lemma ReparsedPath(u: Url)
    ensures EscapedPath(Reparsed(u)) == WrittenPath(u)
    ensures WrittenPath(Reparsed(u)) == WrittenPath(u)
    ensures Reparsed(u).path == "" <==> u.path == ""
    ensures u.host == "" ==> WrittenPath(u) == EscapedPath(u)
  {
    var w := WrittenPath(u);
    EscapedPathOfParsed(w, Reparsed(u));
    EscapedPathDecodes(u);
    UnescapeEmpty(w);
    UnescapeEmpty(EscapedPath(u));
  }

  /** What URL.String writes for a URL is also what it writes for the URL
      url.Parse reads back from it. */
  lemma RenderReparsed(u: Url)
    ensures Render(Reparsed(u)) == Render(u)
  {
    var v := Reparsed(u);
    ReparsedPath(u);
    assert Authority(v) == Authority(u);
    assert Hierarchy(v) == Hierarchy(u);
    assert Body(v) == Body(u);
  }

  /** A URL url.Parse returns with a scheme and no opaque part has an empty or
      rooted path, and RawPath is empty or that path. */
  lemma ParsedPathRooted(v: Url)
    requires WellFormed(v) && v.scheme != "" && v.opaqueData == ""
    ensures EscapedPath(v) == "" || EscapedPath(v)[0] == '/'
    ensures v.rawPath == "" || v.rawPath[0] == '/'
  {
  }

  /** Reading back what URL.String writes can change RawPath, but not in a way
      URL.String sees, as long as RawPath was empty or rooted (as url.Parse
      leaves it). */
  lemma RawPathReread(u: Url)
    requires u.rawPath == "" || u.rawPath[0] == '/'
    ensures var x := u.(rawPath := RawPathHint(WrittenPath(u)));
      EscapedPath(x) == EscapedPath(u) && Render(x) == Render(u)
  {
    var w := WrittenPath(u);
    EscapedPathDecodes(u);
    if w == EscapedPath(u) {
      HintOfEscaped(u);
    } else {
      HintOfSeparated(u);
    }
    RenderRawPath(u, RawPathHint(w));
  }

  lemma HintOfEscaped(u: Url)
    requires WrittenPath(u) == EscapedPath(u) && Unescape(EscapedPath(u)) == u.path
    ensures EscapedPath(u.(rawPath := RawPathHint(WrittenPath(u)))) == EscapedPath(u)
  {
  }

  lemma HintOfSeparated(u: Url)
    requires WrittenPath(u) != EscapedPath(u)
    requires u.rawPath == "" || u.rawPath[0] == '/'
    ensures EscapedPath(u.(rawPath := RawPathHint(WrittenPath(u)))) == EscapedPath(u)
  {
    var e := EscapedPath(u);
    assert WrittenPath(u) == "/" + e && e != "" && e[0] != '/';
    EscapedPathDecodes(u);
    UnescapeChar('/', e);
    assert EscapeChar('/') == "/";
    assert |Unescape("/" + e)| == 1 + |u.path|;
    assert e == Escape(u.path);
  }

  /** URL.String reads RawPath only through EscapedPath. */
  lemma RenderRawPath(u: Url, raw: string)
    requires EscapedPath(u.(rawPath := raw)) == EscapedPath(u)
    ensures Render(u.(rawPath := raw)) == Render(u)
  {
    var x := u.(rawPath := raw);
    assert WrittenPath(x) == WrittenPath(u);
    assert Authority(x) == Authority(u);
    assert Hierarchy(x) == Hierarchy(u);
    assert Body(x) == Body(u);
  }

  /** URL.String puts a `/` between a host and a path that does not start with
      one: this is how a `mem://jobs/_id` locator is written. */
  lemma RenderSeparatesHost(u: Url)
    requires u.opaqueData == "" && u.host != ""
    requires EscapedPath(u) != "" && EscapedPath(u)[0] != '/'
    ensures Render(u) == (if u.scheme != "" then u.scheme + ":" else "") + "//" + EscapeHost(u.host) + "/" + EscapedPath(u) + QueryPart(u.rawQuery)
  {
  }

  /** With neither host nor path URL.String writes only `scheme:` (and the
      query): `mem://` is written `mem:`. */
  lemma RenderBareScheme(u: Url)
    requires u.opaqueData == "" && u.scheme != "" && u.host == "" && u.path == ""
    ensures Render(u) == u.scheme + ":" + QueryPart(u.rawQuery)
  {
    EscapedPathEmpty(u);
  }

  /** URL.String of a URL with a host and a rooted path that has no valid
      RawPath hint: `scheme://host`, the escaped path, the query. */
  lemma RenderAuthority(u: Url)
    requires u.scheme != "" && u.opaqueData == "" && u.host != "" && HasPrefix(u.path, "/")
    requires u.rawPath == "" || Unescape(u.rawPath) != u.path
    ensures Render(u) == u.scheme + "://" + EscapeHost(u.host) + Escape(u.path) + QueryPart(u.rawQuery)
  {
    assert u.path == [u.path[0]] + u.path[1..];
    EscapeAppend([u.path[0]], u.path[1..]);
    assert Escape([u.path[0]]) == "/";
    assert EscapedPath(u) == Escape(u.path);
  }

  /** url.Parse of `scheme://host`, a path that is empty or rooted, and a query. */
  lemma ParseAuthorityString(scheme: string, host: string, p: string, q: string)
    requires ValidScheme(scheme) && scheme != ""
    requires ParseHost(host).Ok? && '?' !in p && (p == "" || p[0] == '/')
    requires NoControl(p) && NoControl(q)
    ensures Parse(scheme + "://" + host + p + QueryPart(q)) == Ok(Url(scheme, "", ParseHost(host).value, Unescape(p), RawPathHint(p), false, q))
  {
    var body := "//" + host + p;
    DecodableSeparators(host);
    AuthoritySpelling(scheme, host, p, QueryPart(q));
    assert '?' !in body;
    ParseSchemeBody(scheme, body, q);
    ParseHierAuthority(scheme, host, p, q);
  }

  /** URL.String of a URL with an authority and an empty or rooted path:
      `scheme://host`, the path as escaped, the query. */
  lemma RenderAuthorityString(u: Url)
    requires u.scheme != "" && u.opaqueData == "" && !u.omitHost && (u.host != "" || u.path != "")
    requires EscapedPath(u) == "" || EscapedPath(u)[0] == '/'
    ensures Render(u) == u.scheme + "://" + EscapeHost(u.host) + EscapedPath(u) + QueryPart(u.rawQuery)
  {
    var e := EscapedPath(u);
    var h := EscapeHost(u.host);
    assert WrittenPath(u) == e;
    assert Authority(u) == "//" + h;
    HierarchyNamed(u);
    assert Body(u) == "//" + h + e;
    assert Render(u) == u.scheme + ":" + ("//" + h + e) + QueryPart(u.rawQuery);
    SchemeSlashes(u.scheme, h, e, QueryPart(u.rawQuery));
  }

  lemma AuthoritySpelling(s: string, h: string, e: string, q: string)
    ensures s + "://" + h + e + q == s + ":" + (("//" + h + e) + q)
  {
  }

  /** With a scheme or a host no `./` is needed in front of the path. */
  lemma HierarchyNamed(u: Url)
    requires u.scheme != "" || u.host != ""
    ensures Hierarchy(u) == Authority(u) + WrittenPath(u)
  {
  }

  lemma SchemeSlashes(s: string, h: string, e: string, q: string)
    ensures s + ":" + ("//" + h + e) + q == s + "://" + h + e + q
  {
  }

  /** url.URL, whose fields the normalisers assign one by one. */
  class URL {
    var scheme: string
    var opaqueData: string
    var host: string
    var path: string
    var rawPath: string
    var omitHost: bool
    var rawQuery: string

    constructor (v: Url)
      ensures Value() == v
    {
      scheme := v.scheme;
      opaqueData := v.opaqueData;
      host := v.host;
      path := v.path;
      rawPath := v.rawPath;
      omitHost := v.omitHost;
      rawQuery := v.rawQuery;
    }

    /** The fields as a value. */
    function Value(): Url
      reads this
    {
      Url(scheme, opaqueData, host, path, rawPath, omitHost, rawQuery)
    }

    /** URL.Query. */
    function Query(): Values
      reads this
    {
      ParseQuery(rawQuery)
    }

    /** URL.String. */
    function String(): string
      reads this
    {
      Render(Value())
    }
  }

  /** url.Parse, allocating the url.URL it returns. */
  method ParseURL(raw: string) returns (r: Result<URL>)
    ensures r.Ok? <==> Parse(raw).Ok?
    ensures r.Ok? ==> fresh(r.value) && r.value.Value() == Parse(raw).value
    ensures r.Err? ==> r.error == Parse(raw).error
  {
    match Parse(raw)
    case Ok(v) =>
      var u := new URL(v);
      r := Ok(u);
    case Err(e) =>
      r := Err(e);
  }

  /** url.Parse(u.String()) with its error discarded, as the Firestore and
      MongoDB rewriters re-parse: for a URL the parser could have produced it
      is a fresh copy with the same fields. */
  method Reparse(u: URL) returns (w: URL)
    requires WellFormed(u.Value())
    ensures fresh(w) && w.Value() == u.Value()
  {
    RenderParseWellFormed(u.Value());
    var c := ParseURL(u.String());
    w := c.value;
  }
}
