// The host rules of Go's net/url. url.Parse checks the port of a host (the
// text after the last `:`, or after the `]` of an IP literal) and decodes
// the host, where a percent-escape may stand only for a byte beyond ASCII or
// for `%` itself (`%25`); URL.String writes a host back with every byte
// escaped that may not appear in one as it is. Characters stand for bytes.
// url.Parse refuses a control byte anywhere in a URL before it looks at the
// host; that check is made in Urls.Parse. ParseHost refuses one as well, as
// a byte that may not appear in a host.
module Hosts {
  import opened Results
  import opened Strings

  predicate IsDigit(c: char) {
    '0' <= c <= '9'
  }

  /** The bytes shouldEscape lets through in a host: letters, digits, the
      unreserved `-._~`, the sub-delimiters of section 2.2 of RFC 3986, `:`
      and `[]` for ports and IP literals, and `<`, `>` and `"`. */
  predicate HostChar(c: char) {
    Unreserved(c) || SubDelim(c) || c == ':' || c == '[' || c == ']' || c == '<' || c == '>' || c == '"'
  }

  /** The sub-delimiters of section 2.2 of RFC 3986. */
  predicate SubDelim(c: char) {
    c == '!' || c == '$' || c == '&' || c == '\'' || c == '(' || c == ')'
    || c == '*' || c == '+' || c == ',' || c == ';' || c == '='
  }

  predicate NonAscii(c: char) {
    c as int >= 128
  }

  /** The characters of a host as url.Parse returns it: any byte beyond
      ASCII, `%`, and the host characters. */
  predicate DecodedChar(c: char) {
    NonAscii(c) || HostChar(c) || c == '%'
  }

  /** Letters, digits and `-._~`: what plain names and labels are made of. */
  predicate Unreserved(c: char) {
    'a' <= c <= 'z' || 'A' <= c <= 'Z' || IsDigit(c) || c == '-' || c == '.' || c == '_' || c == '~'
  }

  predicate IsHex(c: char) {
    IsDigit(c) || 'a' <= c <= 'f' || 'A' <= c <= 'F'
  }

  function Unhex(c: char): (n: nat)
    requires IsHex(c)
    ensures n < 16
  {
    if IsDigit(c) then c as int - '0' as int
    else if 'a' <= c <= 'f' then c as int - 'a' as int + 10
    else c as int - 'A' as int + 10
  }

  /** The upper-case hex digit escape writes for `n`. */
  function HexDigit(n: nat): (c: char)
    requires n < 16
    ensures IsHex(c) && Unhex(c) == n
  {
    if n < 10 then ('0' as int + n) as char else ('A' as int + n - 10) as char
  }

  /** How URL.String writes one host character: `%` and two hex digits for
      a byte that may not appear as it is; a character beyond one byte is
      written as it is. */
  function EscapeHostChar(c: char): string {
    if HostChar(c) || c as int >= 256 then [c]
    else ['%', HexDigit(c as int / 16), HexDigit(c as int % 16)]
  }

  /** escape(host, encodeHost). */
  function EscapeHost(h: string): string {
    if |h| == 0 then "" else EscapeHostChar(h[0]) + EscapeHost(h[1..])
  }

  /** strconv.Quote: the text between double quotes, with a backslash in
      front of each `"` and `\`. */
  function Quote(s: string): string {
    "\"" + QuoteText(s) + "\""
  }

  function QuoteText(s: string): string {
    if |s| == 0 then ""
    else (if s[0] == '"' || s[0] == '\\' then ['\\', s[0]] else [s[0]]) + QuoteText(s[1..])
  }

  /** Text without `"` or `\` is quoted as it is. */
  lemma {:induction false} QuotePlain(s: string)
    requires '"' !in s && '\\' !in s
    ensures QuoteText(s) == s
    decreases |s|
  {
    if |s| > 0 {
      QuotePlain(s[1..]);
      assert s == [s[0]] + s[1..];
    }
  }

  /** A backslash in a host is refused, and quoted with a second one. */
  lemma BackslashRefused()
    ensures ParseHost("a\\b") == Err("invalid character \"\\\\\" in host name")
  {
    var h := "a\\b";
    assert |h| == 3 && h[0] == 'a' && h[1] == '\\' && h[2] == 'b';
    NoPortError(h);
    assert h[1..] == "\\b";
    assert UnescapeHost("\\b") == Err(InvalidHostError('\\'));
    BackslashQuoted();
  }

  /** A host that is not an IP literal and holds no `:` has no port to check. */
  lemma NoPortError(h: string)
    requires !HasPrefix(h, "[") && ':' !in h
    ensures PortError(h) == None
  {
  }

  lemma BackslashQuoted()
    ensures InvalidHostError('\\') == "invalid character \"\\\\\" in host name"
  {
    assert ['\\'][1..] == "";
  }

  function EscapeError(s: string): string {
    "invalid URL escape " + Quote(s)
  }

  function InvalidHostError(c: char): string {
    "invalid character " + Quote([c]) + " in host name"
  }

  function InvalidPort(p: string): string {
    "invalid port " + Quote(p) + " after host"
  }

  /** unescape(host, encodeHost): a `%` must start two hex digits, and the
      byte they give must lie beyond ASCII unless the escape is `%25`; an
      ASCII byte that is not a host character is refused. */
  function UnescapeHost(s: string): Result<string>
    decreases |s|
  {
    if |s| == 0 then Ok("")
    else if s[0] == '%' then
      if |s| < 3 || !IsHex(s[1]) || !IsHex(s[2]) then Err(EscapeError(if |s| < 3 then s else s[..3]))
      else if Unhex(s[1]) < 8 && s[..3] != "%25" then Err(EscapeError(s[..3]))
      else
        var rest :- UnescapeHost(s[3..]);
        Ok([(Unhex(s[1]) * 16 + Unhex(s[2])) as char] + rest)
    else if !NonAscii(s[0]) && !HostChar(s[0]) then Err(InvalidHostError(s[0]))
    else
      var rest :- UnescapeHost(s[1..]);
      Ok([s[0]] + rest)
  }

  /** validOptionalPort: nothing, or `:` followed by digits only. */
  predicate ValidOptionalPort(p: string) {
    p == "" || (p[0] == ':' && forall i :: 1 <= i < |p| ==> IsDigit(p[i]))
  }

  /** The port check of parseHost: after the last `]` of an IP literal, or
      after the last `:` of any other host. */
  function PortError(host: string): Option<string> {
    if HasPrefix(host, "[") then
      var i := LastIndex(host, ']');
      if i < 0 then Some("missing ']' in host")
      else if !ValidOptionalPort(host[i + 1..]) then Some(InvalidPort(host[i + 1..]))
      else None
    else
      var i := LastIndex(host, ':');
      if i >= 0 && !ValidOptionalPort(host[i..]) then Some(InvalidPort(host[i..]))
      else None
  }

  /** parseHost. */
  function ParseHost(host: string): Result<string> {
    match PortError(host)
    case Some(e) => Err(e)
    case None => UnescapeHost(host)
  }

  /** A host that URL.String writes in a form url.Parse reads back as it. */
  predicate CleanHost(h: string) {
    ParseHost(EscapeHost(h)) == Ok(h)
  }

  /** A host that url.Parse reads as it is spelt and URL.String writes as it is. */
  predicate VerbatimHost(h: string) {
    ParseHost(h) == Ok(h) && EscapeHost(h) == h
  }

  // ------------------------------------------------------------ properties

  lemma {:induction false} EscapeHostAppend(a: string, b: string)
    ensures EscapeHost(a + b) == EscapeHost(a) + EscapeHost(b)
    decreases |a|
  {
    if |a| > 0 {
      assert (a + b)[0] == a[0] && (a + b)[1..] == a[1..] + b;
      EscapeHostAppend(a[1..], b);
    } else {
      assert a + b == b;
    }
  }

  /** URL.String writes no control byte in a host. */
  lemma {:induction false} EscapeHostNoControl(h: string)
    ensures NoControl(EscapeHost(h))
    decreases |h|
  {
    if |h| > 0 {
      EscapeHostNoControl(h[1..]);
    }
  }

  /** Host characters are written as they are. */
  lemma {:induction false} EscapeHostPlain(s: string)
    requires forall i :: 0 <= i < |s| ==> HostChar(s[i])
    ensures EscapeHost(s) == s
    decreases |s|
  {
    if |s| > 0 {
      EscapeHostPlain(s[1..]);
      assert s == [s[0]] + s[1..];
    }
  }

  /** Host characters other than `%` decode to themselves. */
  lemma {:induction false} UnescapeHostPlain(s: string)
    requires forall i :: 0 <= i < |s| ==> HostChar(s[i])
    ensures UnescapeHost(s) == Ok(s)
    decreases |s|
  {
    if |s| > 0 {
      assert s[0] != '%';
      UnescapeHostPlain(s[1..]);
      assert s == [s[0]] + s[1..];
    }
  }

  /** Decoding one escaped character gives it back in front of the rest. */
  lemma UnescapeHostChar(c: char, rest: string)
    requires DecodedChar(c)
    ensures UnescapeHost(EscapeHostChar(c) + rest)
            == match UnescapeHost(rest) case Ok(r) => Ok([c] + r) case Err(e) => Err(e)
  {
    var s := EscapeHostChar(c) + rest;
    if HostChar(c) || c as int >= 256 {
      assert s[0] == c && s[1..] == rest;
    } else {
      var hi, lo := c as int / 16, c as int % 16;
      assert s[0] == '%' && s[1] == HexDigit(hi) && s[2] == HexDigit(lo) && s[3..] == rest;
      assert hi * 16 + lo == c as int;
      if c == '%' {
        assert s[..3] == "%25";
      } else {
        assert NonAscii(c) && hi >= 8;
      }
    }
  }

  /** What URL.String writes for a decoded host decodes back to it. */
  lemma {:induction false} UnescapeEscapeHost(h: string)
    requires forall i :: 0 <= i < |h| ==> DecodedChar(h[i])
    ensures UnescapeHost(EscapeHost(h)) == Ok(h)
    decreases |h|
  {
    if |h| > 0 {
      UnescapeEscapeHost(h[1..]);
      UnescapeHostChar(h[0], EscapeHost(h[1..]));
      assert h == [h[0]] + h[1..];
    }
  }

  /** Decoding gives only decoded characters, and an ASCII host character
      other than `%` only where the source has it. */
  lemma {:induction false} UnescapeHostChars(s: string, c: char)
    requires UnescapeHost(s).Ok?
    ensures forall i :: 0 <= i < |UnescapeHost(s).value| ==> DecodedChar(UnescapeHost(s).value[i])
    ensures HostChar(c) && c !in s ==> c !in UnescapeHost(s).value
    decreases |s|
  {
    if |s| > 0 {
      var r := UnescapeHost(s).value;
      if s[0] == '%' {
        UnescapeHostChars(s[3..], c);
        assert c !in s ==> c !in s[3..] by {
          assert forall i :: 0 <= i < |s[3..]| ==> s[3..][i] == s[i + 3];
        }
        assert r == [r[0]] + UnescapeHost(s[3..]).value;
        assert r[0] == '%' || NonAscii(r[0]);
      } else {
        UnescapeHostChars(s[1..], c);
        assert c !in s ==> c !in s[1..] by {
          assert forall i :: 0 <= i < |s[1..]| ==> s[1..][i] == s[i + 1];
        }
        assert r == [s[0]] + UnescapeHost(s[1..]).value;
      }
    }
  }

  /** Decoding splits where a character that is no hex digit follows: the
      two parts decode on their own. */
  lemma {:induction false} UnescapeHostSplit(x: string, y: string)
    requires UnescapeHost(x + y).Ok? && |y| > 0 && !IsHex(y[0])
    ensures UnescapeHost(x).Ok? && UnescapeHost(y).Ok?
    ensures UnescapeHost(x + y).value == UnescapeHost(x).value + UnescapeHost(y).value
    decreases |x|
  {
    var s := x + y;
    if |x| == 0 {
      assert s == y;
    } else if x[0] == '%' {
      assert s[0] == '%';
      if |x| < 3 {
        assert false;
      }
      assert s[3..] == x[3..] + y && s[..3] == x[..3] && s[1] == x[1] && s[2] == x[2];
      UnescapeHostSplit(x[3..], y);
    } else {
      assert s[0] == x[0] && s[1..] == x[1..] + y;
      UnescapeHostSplit(x[1..], y);
    }
  }

  /** An escape never holds a character that is neither `%` nor a hex digit. */
  lemma {:induction false} EscapeHostWithout(h: string, c: char)
    requires c != '%' && !IsHex(c) && (HostChar(c) ==> c !in h) && (c as int >= 256 ==> c !in h)
    ensures c !in EscapeHost(h)
    decreases |h|
  {
    if |h| > 0 {
      EscapeHostWithout(h[1..], c);
      assert c !in EscapeHostChar(h[0]);
    }
  }

  /** The last `c` of `p + [c] + d`, when `d` has none, is the one after `p`. */
  lemma {:induction false} LastIndexAfter(p: string, c: char, d: string)
    requires c !in d
    ensures LastIndex(p + [c] + d, c) == |p|
    decreases |d|
  {
    var s := p + [c] + d;
    if |d| > 0 {
      var d' := d[..|d| - 1];
      assert s[..|s| - 1] == p + [c] + d';
      assert s[|s| - 1] == d[|d| - 1];
      LastIndexAfter(p, c, d');
    } else {
      assert s[|s| - 1] == c;
    }
  }

  /** A host ending in `c` and a tail of host characters other than `%`:
      decoding and escaping keep the tail where it is, after the last `c`. */
  lemma TailKept(a: string, i: int, c: char)
    requires 0 <= i < |a| && a[i] == c && !IsHex(c)
    requires forall j :: i < j < |a| ==> a[j] != c
    requires forall j :: i <= j < |a| ==> HostChar(a[j])
    requires UnescapeHost(a).Ok?
    ensures UnescapeHost(a[..i]).Ok?
    ensures var e := EscapeHost(UnescapeHost(a).value);
      var n := |EscapeHost(UnescapeHost(a[..i]).value)|;
      LastIndex(e, c) == n && e[n + 1..] == a[i + 1..]
  {
    var t := a[i..];
    assert c !in a[i + 1..] by {
      assert forall j :: i < j < |a| ==> a[j] == a[i + 1..][j - i - 1];
    }
    assert a == a[..i] + t;
    UnescapeHostSplit(a[..i], t);
    UnescapeHostPlain(t);
    var x := UnescapeHost(a[..i]).value;
    var h := UnescapeHost(a).value;
    assert h == x + t;
    EscapeHostAppend(x, t);
    EscapeHostPlain(t);
    assert t == [c] + a[i + 1..];
    assert EscapeHost(h) == EscapeHost(x) + [c] + a[i + 1..];
    LastIndexAfter(EscapeHost(x), c, a[i + 1..]);
  }

  /** Decoding and escaping keep a leading `[`, and do not make one. */
  lemma BracketKept(a: string)
    requires UnescapeHost(a).Ok?
    ensures HasPrefix(EscapeHost(UnescapeHost(a).value), "[") <==> HasPrefix(a, "[")
  {
    var h := UnescapeHost(a).value;
    if |a| > 0 {
      if a[0] == '%' {
        assert h == [h[0]] + UnescapeHost(a[3..]).value;
        assert h[0] == '%' || NonAscii(h[0]);
      } else {
        assert h == [a[0]] + UnescapeHost(a[1..]).value;
      }
      assert EscapeHost(h) == EscapeHostChar(h[0]) + EscapeHost(h[1..]);
      assert EscapeHost(h)[0] == EscapeHostChar(h[0])[0];
    }
  }

  /** The port check passes on what URL.String writes for a parsed host. */
  lemma PortKept(a: string)
    requires PortError(a).None? && UnescapeHost(a).Ok?
    ensures PortError(EscapeHost(UnescapeHost(a).value)).None?
  {
    BracketKept(a);
    if HasPrefix(a, "[") {
      PortKeptLiteral(a);
    } else if ':' in a {
      PortKeptColon(a);
    } else {
      var h := UnescapeHost(a).value;
      UnescapeHostChars(a, ':');
      EscapeHostWithout(h, ':');
    }
  }

  lemma PortKeptLiteral(a: string)
    requires PortError(a).None? && UnescapeHost(a).Ok? && HasPrefix(a, "[")
    requires HasPrefix(EscapeHost(UnescapeHost(a).value), "[")
    ensures PortError(EscapeHost(UnescapeHost(a).value)).None?
  {
    var i := LastIndex(a, ']');
    BracketPort(a);
    BracketHostChars(a, i);
    TailKept(a, i, ']');
    var e := EscapeHost(UnescapeHost(a).value);
    BracketSame(e, |EscapeHost(UnescapeHost(a[..i]).value)|, a, i);
  }

  lemma BracketPort(a: string)
    requires PortError(a).None? && HasPrefix(a, "[")
    ensures LastIndex(a, ']') >= 0 && ValidOptionalPort(a[LastIndex(a, ']') + 1..])
  {
  }

  lemma BracketHostChars(a: string, i: int)
    requires 0 <= i < |a| && a[i] == ']' && ValidOptionalPort(a[i + 1..])
    ensures forall j :: i <= j < |a| ==> HostChar(a[j])
  {
    PortHostChars(a, i + 1);
    assert HostChar(']');
  }

  lemma BracketSame(e: string, n: int, a: string, i: int)
    requires 0 <= i < |a| && ValidOptionalPort(a[i + 1..])
    requires 0 <= n < |e| && LastIndex(e, ']') == n && e[n + 1..] == a[i + 1..]
    requires HasPrefix(e, "[")
    ensures PortError(e).None?
  {
  }

  lemma PortKeptColon(a: string)
    requires PortError(a).None? && UnescapeHost(a).Ok? && !HasPrefix(a, "[") && ':' in a
    requires !HasPrefix(EscapeHost(UnescapeHost(a).value), "[")
    ensures PortError(EscapeHost(UnescapeHost(a).value)).None?
  {
    var i := LastIndex(a, ':');
    ColonPort(a);
    PortHostChars(a, i);
    TailKept(a, i, ':');
    var e := EscapeHost(UnescapeHost(a).value);
    PortSame(e, |EscapeHost(UnescapeHost(a[..i]).value)|, a, i);
  }

  lemma ColonPort(a: string)
    requires PortError(a).None? && !HasPrefix(a, "[") && ':' in a
    ensures ValidOptionalPort(a[LastIndex(a, ':')..])
  {
  }

  lemma PortHostChars(a: string, i: int)
    requires 0 <= i <= |a| && ValidOptionalPort(a[i..])
    ensures forall j :: i <= j < |a| ==> HostChar(a[j])
  {
    forall j | i <= j < |a|
      ensures HostChar(a[j])
    {
      assert a[j] == a[i..][j - i];
      assert j == i || IsDigit(a[j]);
    }
  }

  lemma PortSame(e: string, n: int, a: string, i: int)
    requires 0 <= i < |a| && a[i] == ':' && ValidOptionalPort(a[i..])
    requires 0 <= n < |e| && LastIndex(e, ':') == n && e[n + 1..] == a[i + 1..]
    requires !HasPrefix(e, "[")
    ensures PortError(e).None?
  {
    assert e[n..] == [':'] + e[n + 1..];
    assert a[i..] == [':'] + a[i + 1..];
  }

  /** What url.Parse returns as a host, URL.String writes so that url.Parse
      reads it back. */
  lemma HostCanonical(a: string)
    requires ParseHost(a).Ok?
    ensures CleanHost(ParseHost(a).value)
  {
    var h := UnescapeHost(a).value;
    UnescapeHostChars(a, ':');
    UnescapeEscapeHost(h);
    PortKept(a);
  }

  /** A name of letters, digits and `-._~` is read and written as it is. */
  lemma UnreservedHost(h: string)
    requires forall i :: 0 <= i < |h| ==> Unreserved(h[i])
    ensures VerbatimHost(h)
  {
    assert forall i :: 0 <= i < |h| ==> HostChar(h[i]);
    EscapeHostPlain(h);
    UnescapeHostPlain(h);
    assert ':' !in h;
    assert !HasPrefix(h, "[") by {
      if |h| > 0 {
        assert Unreserved(h[0]);
      }
    }
  }

  /** A host of lower-case letters only is read and written as it is spelt. */
  lemma LowerHost(h: string)
    requires forall i :: 0 <= i < |h| ==> 'a' <= h[i] <= 'z'
    ensures VerbatimHost(h)
  {
    UnreservedHost(h);
  }

  /** A parsed host holds neither `/` nor `?`, and neither does any escape. */
  lemma HostSeparators(h: string)
    ensures '/' !in EscapeHost(h) && '?' !in EscapeHost(h)
  {
    EscapeHostWithout(h, '/');
    EscapeHostWithout(h, '?');
  }

  /** Text that decodes as a host holds neither `/` nor `?`, nor a control byte. */
  lemma {:induction false} DecodableSeparators(s: string)
    requires UnescapeHost(s).Ok?
    ensures '/' !in s && '?' !in s && NoControl(s)
    decreases |s|
  {
    if |s| > 0 {
      if s[0] == '%' {
        DecodableSeparators(s[3..]);
        assert s == s[..3] + s[3..];
      } else {
        DecodableSeparators(s[1..]);
        assert s == [s[0]] + s[1..];
      }
    }
  }

  /** An empty host, and only an empty one, is written and read as nothing. */
  lemma HostEmpty(a: string, h: string)
    ensures EscapeHost(h) == "" <==> h == ""
    ensures UnescapeHost(a).Ok? ==> (UnescapeHost(a).value == "" <==> a == "")
    ensures ParseHost(a).Ok? ==> (ParseHost(a).value == "" <==> a == "")
  {
    if |h| > 0 {
      assert |EscapeHostChar(h[0])| > 0;
    }
  }

  /** The empty host reads back as written. */
  lemma CleanEmpty()
    ensures CleanHost("")
  {
    assert EscapeHost("") == "";
    assert PortError("") == None;
  }

  /** A `/` in a host is written `%2F`. */
  lemma SlashEscaped()
    ensures EscapeHost("/") == "%2F"
  {
    assert !HostChar('/');
    assert '/' as int / 16 == 2 && '/' as int % 16 == 15;
    assert HexDigit(2) == '2' && HexDigit(15) == 'F';
    assert EscapeHost("/") == EscapeHostChar('/') + EscapeHost("");
  }

  /** A host that starts with an escape of an ASCII byte other than `%` is
      refused, when no port check fails first. */
  lemma LowEscapeRefused(a: string)
    requires |a| >= 3 && a[0] == '%' && IsHex(a[1]) && IsHex(a[2]) && Unhex(a[1]) < 8 && a[..3] != "%25"
    requires ':' !in a
    ensures ParseHost(a) == Err(EscapeError(a[..3]))
  {
    assert !HasPrefix(a, "[");
  }

  /** A host that reads back as written holds neither `/` nor `?`, nor a
      control byte. */
  lemma CleanHostChars(h: string)
    requires CleanHost(h)
    ensures '/' !in h && '?' !in h && NoControl(h)
  {
    var s := EscapeHost(h);
    assert UnescapeHost(s) == Ok(h);
    UnescapeHostChars(s, '/');
    DecodedSeparators(h);
  }

  lemma DecodedSeparators(h: string)
    requires forall i :: 0 <= i < |h| ==> DecodedChar(h[i])
    ensures '/' !in h && '?' !in h && NoControl(h)
  {
    assert !DecodedChar('/') && !DecodedChar('?');
    IndexedNoControl(h);
  }

  /** A host url.Parse accepts holds no control byte, as written or decoded. */
  lemma ParseHostNoControl(h: string)
    requires ParseHost(h).Ok?
    ensures NoControl(h) && NoControl(ParseHost(h).value)
  {
    UnescapeHostNoControl(h);
    UnescapeHostChars(h, '/');
    IndexedNoControl(ParseHost(h).value);
  }

  lemma {:induction false} UnescapeHostNoControl(s: string)
    requires UnescapeHost(s).Ok?
    ensures NoControl(s)
    decreases |s|
  {
    if |s| > 0 {
      if s[0] == '%' {
        UnescapeHostNoControl(s[3..]);
        assert s == s[..3] + s[3..];
      } else {
        UnescapeHostNoControl(s[1..]);
        assert s == [s[0]] + s[1..];
      }
    }
  }

  /** A host read and written as it is spelt holds neither `/` nor `?`, nor a
      control byte, and reads back as written. */
  lemma VerbatimHostChars(h: string)
    requires VerbatimHost(h)
    ensures CleanHost(h) && '/' !in h && '?' !in h && NoControl(h)
  {
    DecodableSeparators(h);
  }
}
