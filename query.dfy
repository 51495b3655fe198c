// The query part of Go's net/url as the normalisers use it: URL.Query() parses
// a raw query into url.Values, decoding each key and value with QueryUnescape;
// Values.Set replaces a key; and Values.Encode writes the parameters back
// sorted by key, each key and value escaped with QueryEscape.
module Query {
  import opened Results
  import opened Strings
  import opened Hosts

  /** url.Values, keeping for each key the first value the raw query gives it. */
  type Values = map<string, string>

  /** Values.Get: the value of `key`, or "" when it is absent. */
  function Get(q: Values, key: string): (v: string)
    ensures key in q ==> v == q[key]
    ensures key !in q ==> v == ""
  {
    if key in q then q[key] else ""
  }

  /** How QueryEscape writes one byte: letters, digits and `-._~` as they
      are, a space as `+`, and every other byte as `%` and two upper-case hex
      digits; a character beyond one byte is written as it is. */
  function QueryEscapeChar(c: char): string {
    if Unreserved(c) || c as int >= 256 then [c]
    else if c == ' ' then "+"
    else ['%', HexDigit(c as int / 16), HexDigit(c as int % 16)]
  }

  /** url.QueryEscape. */
  function QueryEscape(s: string): string {
    if |s| == 0 then "" else QueryEscapeChar(s[0]) + QueryEscape(s[1..])
  }

  /** url.QueryUnescape: `%` and two hex digits give the byte they spell, `+`
      gives a space, and any other character stands for itself; a `%` that is
      not followed by two hex digits makes the whole text malformed. */
  function QueryUnescape(s: string): Option<string>
    decreases |s|
  {
    if |s| == 0 then Some("")
    else if s[0] == '%' then
      if |s| < 3 || !IsHex(s[1]) || !IsHex(s[2]) then None
      else
        match QueryUnescape(s[3..])
        case None => None
        case Some(rest) => Some([(Unhex(s[1]) * 16 + Unhex(s[2])) as char] + rest)
    else
      match QueryUnescape(s[1..])
      case None => None
      case Some(rest) => Some([if s[0] == '+' then ' ' else s[0]] + rest)
  }

  /** What URL.Query() returns for a raw query: the `&`-separated segments,
      each cut at its first `=` and both halves decoded by QueryUnescape.
      Empty segments, segments holding `;` and segments with a malformed
      escape are dropped (url.ParseQuery skips them with an error that
      Query() discards). The first occurrence of a key wins. */
  function ParseQuery(raw: string): Values
  {
    ParseSegments(Split(raw, '&'))
  }

  function ParseSegments(segs: seq<string>): Values
  {
    if |segs| == 0 then map[]
    else
      var rest := ParseSegments(segs[1..]);
      var seg := segs[0];
      if seg == "" || ';' in seg then rest
      else
        var (k, v, _) := Cut(seg, '=');
        match (QueryUnescape(k), QueryUnescape(v))
        case (Some(key), Some(value)) => rest[key := value]
        case _ => rest
  }

  /** An empty raw query has no parameters. */
  lemma ParseQueryEmpty()
    ensures ParseQuery("") == map[]
  {
    assert Split("", '&') == [""];
  }

  /** The characters QueryEscape writes: letters, digits, `-._~`, `+`, `%`,
      and characters beyond one byte. None of them is `&`, `;`, `=` or a
      control byte. */
  predicate QueryChar(c: char) {
    Unreserved(c) || c == '+' || c == '%' || c as int >= 256
  }

  lemma {:induction false} EscapedQueryChars(s: string)
    ensures forall i :: 0 <= i < |QueryEscape(s)| ==> QueryChar(QueryEscape(s)[i])
    decreases |s|
  {
    if |s| > 0 {
      EscapedQueryChars(s[1..]);
      var e, rest := QueryEscapeChar(s[0]), QueryEscape(s[1..]);
      assert QueryEscape(s) == e + rest;
      assert forall i :: 0 <= i < |e| ==> QueryChar(e[i]);
    }
  }

  /** Decoding undoes the escape of one character. */
  lemma QueryUnescapeChar(c: char, rest: string)
    ensures QueryUnescape(QueryEscapeChar(c) + rest)
            == match QueryUnescape(rest) case None => None case Some(r) => Some([c] + r)
  {
    var s := QueryEscapeChar(c) + rest;
    if Unreserved(c) || c as int >= 256 {
      assert s[0] == c && s[1..] == rest;
    } else if c == ' ' {
      assert s[0] == '+' && s[1..] == rest;
    } else {
      var hi, lo := c as int / 16, c as int % 16;
      assert s[0] == '%' && s[1] == HexDigit(hi) && s[2] == HexDigit(lo) && s[3..] == rest;
      assert hi * 16 + lo == c as int;
    }
  }

  /** QueryUnescape inverts QueryEscape. */
  lemma {:induction false} QueryUnescapeEscape(s: string)
    ensures QueryUnescape(QueryEscape(s)) == Some(s)
    decreases |s|
  {
    if |s| > 0 {
      QueryUnescapeEscape(s[1..]);
      QueryUnescapeChar(s[0], QueryEscape(s[1..]));
      assert s == [s[0]] + s[1..];
    }
  }

  /** Letters, digits and `-._~` are written as they are. */
  lemma {:induction false} QueryEscapePlain(s: string)
    requires forall i :: 0 <= i < |s| ==> Unreserved(s[i])
    ensures QueryEscape(s) == s
    decreases |s|
  {
    if |s| > 0 {
      QueryEscapePlain(s[1..]);
      assert s == [s[0]] + s[1..];
    }
  }

  // The three ways url.Query reads a value: `%41` is decoded, `+` is a
  // space, and a pair with a malformed escape is dropped.

  lemma QueryDecodesHex()
    ensures ParseQuery("x=%41") == map["x" := "A"]
  {
    PlainUnescape("x");
    HexA();
    OnePair("x", "%41", "x", "A");
    assert "x" + "=" + "%41" == "x=%41";
  }

  lemma QueryDecodesPlus()
    ensures ParseQuery("partition_key=a+b") == map["partition_key" := "a b"]
  {
    var k, v := "partition_key", "a+b";
    PartitionKeyPlain();
    PlusSpace();
    assert '&' !in v && ';' !in v;
    OnePair(k, v, k, "a b");
    PlusPairSpelling();
  }

  lemma PlusPairSpelling()
    ensures "partition_key" + "=" + "a+b" == "partition_key=a+b"
  {
  }

  lemma PartitionKeyPlain()
    ensures var k := "partition_key";
      '&' !in k && ';' !in k && '=' !in k && QueryUnescape(k) == Some(k)
  {
    var k := "partition_key";
    assert forall i :: 0 <= i < |k| ==> 'a' <= k[i] <= 'z' || k[i] == '_';
    NameUnescaped(k);
  }

  /** A parameter name made of lower-case letters and `_` holds no separator
      and decodes to itself. */
  lemma NameUnescaped(k: string)
    requires forall i :: 0 <= i < |k| ==> 'a' <= k[i] <= 'z' || k[i] == '_'
    ensures '&' !in k && ';' !in k && '=' !in k && QueryUnescape(k) == Some(k)
  {
    PlainUnescape(k);
  }

  lemma QueryDropsMalformed()
    ensures ParseQuery("region=%zz") == map[]
  {
    var v := "%zz";
    assert v[0] == '%' && !IsHex(v[1]);
    OneMalformed("region", v);
    assert "region" + "=" + v == "region=%zz";
  }

  lemma HexA()
    ensures QueryUnescape("%41") == Some("A")
  {
    HexStep('4', '1', "");
    assert ['%', '4', '1'] + "" == "%41";
    assert Unhex('4') == 4 && Unhex('1') == 1;
    assert (4 * 16 + 1) as char == 'A';
    assert ['A'] + "" == "A";
  }

  /** An escape of two hex digits is decoded on its own. */
  lemma HexStep(a: char, b: char, rest: string)
    requires IsHex(a) && IsHex(b)
    ensures QueryUnescape(['%', a, b] + rest)
            == match QueryUnescape(rest) case None => None case Some(r) => Some([(Unhex(a) * 16 + Unhex(b)) as char] + r)
  {
    var s := ['%', a, b] + rest;
    assert s[0] == '%' && s[1] == a && s[2] == b && s[3..] == rest;
  }

  lemma PlusSpace()
    ensures QueryUnescape("a+b") == Some("a b")
  {
    UnescapeStep('b', "");
    assert ['b'] + "" == "b";
    UnescapeStep('+', "b");
    assert ['+'] + "b" == "+b" && [' '] + "b" == " b";
    UnescapeStep('a', "+b");
    assert ['a'] + "+b" == "a+b" && ['a'] + " b" == "a b";
  }

  /** A character other than `%` is decoded on its own. */
  lemma UnescapeStep(c: char, rest: string)
    requires c != '%'
    ensures QueryUnescape([c] + rest)
            == match QueryUnescape(rest) case None => None case Some(r) => Some([if c == '+' then ' ' else c] + r)
  {
    assert ([c] + rest)[0] == c && ([c] + rest)[1..] == rest;
  }

  /** A raw query of one `key=value` segment is read from that segment alone. */
  lemma OnePair(k: string, v: string, key: string, value: string)
    requires '&' !in k && '&' !in v && ';' !in k && ';' !in v && '=' !in k
    requires QueryUnescape(k) == Some(key) && QueryUnescape(v) == Some(value)
    ensures ParseQuery(k + "=" + v) == map[key := value]
  {
    OneSegment(k, v);
    var seg := k + "=" + v;
    assert [seg][1..] == [] && ParseSegments([]) == map[];
    assert seg != "" && ';' !in seg;
    assert ParseSegments([seg]) == map[][key := value];
  }

  /** A raw query of one segment whose value is malformed has no parameters. */
  lemma OneMalformed(k: string, v: string)
    requires '&' !in k && '&' !in v && ';' !in k && ';' !in v && '=' !in k
    requires QueryUnescape(v) == None
    ensures ParseQuery(k + "=" + v) == map[]
  {
    OneSegment(k, v);
    var seg := k + "=" + v;
    assert [seg][1..] == [] && ParseSegments([]) == map[];
    assert seg != "" && ';' !in seg;
  }

  lemma OneSegment(k: string, v: string)
    requires '&' !in k && '&' !in v && ';' !in k && ';' !in v && '=' !in k
    ensures Split(k + "=" + v, '&') == [k + "=" + v]
    ensures Cut(k + "=" + v, '=') == (k, v, true)
  {
    SplitNone(k + "=" + v, '&');
    CutUnique(k + "=" + v, '=', k, v);
  }

  /** Text without `%` or `+` decodes to itself. */
  lemma {:induction false} PlainUnescape(s: string)
    requires '%' !in s && '+' !in s
    ensures QueryUnescape(s) == Some(s)
    decreases |s|
  {
    if |s| > 0 {
      assert s == [s[0]] + s[1..];
      PlainUnescape(s[1..]);
    }
  }

  predicate IsLeast(k: string, keys: set<string>) {
    k in keys && forall j :: j in keys ==> LexLe(k, j)
  }

  lemma {:induction false} LeastExists(keys: set<string>)
    requires keys != {}
    ensures exists k :: IsLeast(k, keys)
    decreases |keys|
  {
    var x :| x in keys;
    LexLeReflexive(x);
    if keys == {x} {
      assert IsLeast(x, keys);
    } else {
      LeastExists(keys - {x});
      var m :| IsLeast(m, keys - {x});
      LexLeTotal(x, m);
      LexLeReflexive(m);
      if LexLe(x, m) {
        forall j | j in keys ensures LexLe(x, j) {
          if j != x {
            LexLeTransitive(x, m, j);
          }
        }
        assert IsLeast(x, keys);
      } else {
        assert IsLeast(m, keys);
      }
    }
  }

  lemma LeastUnique(keys: set<string>)
    ensures forall a, b :: IsLeast(a, keys) && IsLeast(b, keys) ==> a == b
  {
    forall a, b | IsLeast(a, keys) && IsLeast(b, keys) ensures a == b {
      LexLeAntisymmetric(a, b);
    }
  }

  /** The keys in the order sort.Strings gives them: strictly increasing. */
  function SortedKeys(keys: set<string>): (r: seq<string>)
    decreases |keys|
  {
    if keys == {} then []
    else
      LeastExists(keys);
      LeastUnique(keys);
      var k :| IsLeast(k, keys);
      [k] + SortedKeys(keys - {k})
  }

  lemma {:induction false} SortedKeysSpec(keys: set<string>)
    ensures var r := SortedKeys(keys);
      && |r| == |keys|
      && (forall k :: k in keys <==> k in r)
      && (forall i, j :: 0 <= i < j < |r| ==> LexLe(r[i], r[j]) && r[i] != r[j])
    decreases |keys|
  {
    if keys != {} {
      LeastExists(keys);
      LeastUnique(keys);
      var k :| IsLeast(k, keys);
      SortedKeysSpec(keys - {k});
    }
  }

  /** One parameter as Values.Encode writes it: the key and the value, each
      passed through QueryEscape, around `=`. */
  function Pair(k: string, v: string): string {
    QueryEscape(k) + "=" + QueryEscape(v)
  }

  /** The `key=value` segments for `keys`, in that order. */
  function Pairs(q: Values, keys: seq<string>): (r: seq<string>)
    requires forall i :: 0 <= i < |keys| ==> keys[i] in q
    ensures |r| == |keys|
    ensures forall i :: 0 <= i < |keys| ==> r[i] == Pair(keys[i], q[keys[i]])
  {
    if |keys| == 0 then [] else [Pair(keys[0], q[keys[0]])] + Pairs(q, keys[1..])
  }

  /** Values.Encode: the escaped `key=value` pairs sorted by key and joined
      with `&` ("" for no parameters). */
  function Encode(q: Values): string
  {
    var keys := SortedKeys(q.Keys);
    SortedKeysSpec(q.Keys);
    Join(Pairs(q, keys), '&')
  }

  /** Encode writes nothing exactly when there is nothing to write. */
  lemma EncodeEmpty(q: Values)
    ensures Encode(q) == "" <==> q == map[]
  {
    var keys := SortedKeys(q.Keys);
    SortedKeysSpec(q.Keys);
    if q != map[] {
      var ps := Pairs(q, keys);
      assert |ps| > 0 && |ps[0]| > 0;
      if |ps| > 1 {
        assert Join(ps, '&') == ps[0] + ['&'] + Join(ps[1..], '&');
      }
    }
  }

  /** One parameter is written as its escaped `key=value` pair. */
  lemma EncodeOne(k: string, v: string)
    ensures Encode(map[k := v]) == QueryEscape(k) + "=" + QueryEscape(v)
  {
    var q := map[k := v];
    var keys := SortedKeys(q.Keys);
    SortedKeysSpec(q.Keys);
    assert keys == [k];
  }

  /** Two parameters are written in key order. */
  lemma EncodeTwo(k1: string, v1: string, k2: string, v2: string)
    requires LexLe(k1, k2) && k1 != k2
    ensures Encode(map[k1 := v1, k2 := v2]) == Pair(k1, v1) + "&" + Pair(k2, v2)
  {
    var q := map[k1 := v1, k2 := v2];
    assert q.Keys == {k1, k2};
    LexLeReflexive(k1);
    assert IsLeast(k1, q.Keys);
    LeastUnique(q.Keys);
    assert q.Keys - {k1} == {k2};
    var rest := SortedKeys({k2});
    SortedKeysSpec({k2});
    assert rest == [k2];
    assert SortedKeys(q.Keys) == [k1] + rest;
    var ps := Pairs(q, [k1, k2]);
    assert ps == [Pair(k1, v1), Pair(k2, v2)];
    assert Join(ps, '&') == ps[0] + ['&'] + Join(ps[1..], '&');
  }

  lemma {:induction false} ParsePairs(q: Values, keys: seq<string>)
    requires forall i :: 0 <= i < |keys| ==> keys[i] in q
    ensures ParseSegments(Pairs(q, keys)) == map k | k in keys :: q[k]
  {
    var ps := Pairs(q, keys);
    if |keys| > 0 {
      var k := keys[0];
      ParsePairs(q, keys[1..]);
      assert ps[1..] == Pairs(q, keys[1..]);
      PairSegment(k, q[k]);
      ConsKeys(q, keys);
    }
  }

  /** One escaped pair reads back as its key and value. */
  lemma PairSegment(k: string, v: string)
    ensures var seg := Pair(k, v);
      && seg != "" && '&' !in seg && ';' !in seg
      && Cut(seg, '=') == (QueryEscape(k), QueryEscape(v), true)
      && QueryUnescape(QueryEscape(k)) == Some(k) && QueryUnescape(QueryEscape(v)) == Some(v)
  {
    var ek, ev := QueryEscape(k), QueryEscape(v);
    EscapedSeparators(k);
    EscapedSeparators(v);
    CutUnique(ek + "=" + ev, '=', ek, ev);
    QueryUnescapeEscape(k);
    QueryUnescapeEscape(v);
  }

  /** QueryEscape writes none of the characters that separate parameters. */
  lemma EscapedSeparators(s: string)
    ensures '=' !in QueryEscape(s) && '&' !in QueryEscape(s) && ';' !in QueryEscape(s)
  {
    EscapedQueryChars(s);
  }

  lemma ConsKeys(q: Values, keys: seq<string>)
    requires |keys| > 0 && forall i :: 0 <= i < |keys| ==> keys[i] in q
    ensures (map x | x in keys[1..] :: q[x])[keys[0] := q[keys[0]]] == map x | x in keys :: q[x]
  {
    assert keys == [keys[0]] + keys[1..];
  }

  lemma SameKeys(q: Values, keys: seq<string>)
    requires forall k :: k in q <==> k in keys
    ensures (map k | k in keys :: q[k]) == q
  {
    var m := map k | k in keys :: q[k];
    assert m.Keys == q.Keys;
    forall k | k in m ensures m[k] == q[k] { }
  }

  /** Re-parsing what Encode writes gives the parameters back. */
  lemma ParseEncode(q: Values)
    ensures ParseQuery(Encode(q)) == q
  {
    var keys := SortedKeys(q.Keys);
    SortedKeysSpec(q.Keys);
    var ps := Pairs(q, keys);
    ParsePairs(q, keys);
    SameKeys(q, keys);
    if |ps| == 0 {
      assert Encode(q) == "";
      assert Split("", '&') == [""];
      assert ParseSegments([""]) == map[];
    } else {
      forall i | 0 <= i < |ps| ensures '&' !in ps[i] {
        PairSegment(keys[i], q[keys[i]]);
      }
      SplitJoin(ps, '&');
      assert Split(Encode(q), '&') == ps;
    }
  }

  /** QueryEscape writes no control byte. */
  lemma QueryEscapeNoControl(s: string)
    ensures NoControl(QueryEscape(s))
  {
    EscapedQueryChars(s);
    IndexedNoControl(QueryEscape(s));
  }

  /** Encode writes no control byte, whatever the parameters hold. */
  lemma EncodeNoControl(q: Values)
    ensures NoControl(Encode(q))
  {
    var keys := SortedKeys(q.Keys);
    SortedKeysSpec(q.Keys);
    PairsNoControl(q, keys);
    JoinNoControl(Pairs(q, keys), '&');
  }

  lemma PairsNoControl(q: Values, keys: seq<string>)
    requires forall i :: 0 <= i < |keys| ==> keys[i] in q
    ensures forall i :: 0 <= i < |keys| ==> NoControl(Pairs(q, keys)[i])
  {
    var ps := Pairs(q, keys);
    forall i | 0 <= i < |ps|
      ensures NoControl(ps[i])
    {
      var k := keys[i];
      QueryEscapeNoControl(k);
      QueryEscapeNoControl(q[k]);
      NoControlAppend(QueryEscape(k), "=");
      NoControlAppend(QueryEscape(k) + "=", QueryEscape(q[k]));
    }
  }

  /** The query written for a locator that has no region: `region` set to
      the value, alone. */
  function RegionQuery(region: string): string {
    Encode(map["region" := region])
  }

  /** RegionQuery writes `region=` and the escaped value, which reads back as
      the only parameter. */
  lemma RegionQueryRule(region: string)
    ensures RegionQuery(region) == "region=" + QueryEscape(region)
    ensures RegionQuery(region) != ""
    ensures ParseQuery(RegionQuery(region)) == map["region" := region]
  {
    RegionVerbatim();
    SingleParameter("region", region);
    RegionKeySpelling(QueryEscape(region));
  }

  lemma RegionKeySpelling(e: string)
    ensures "region" + "=" + e == "region=" + e
  {
  }

  /** A single parameter whose name needs no escaping is written as the
      name, `=` and the escaped value, and reads back as itself. */
  lemma SingleParameter(k: string, v: string)
    requires QueryEscape(k) == k
    ensures Encode(map[k := v]) == k + "=" + QueryEscape(v)
    ensures ParseQuery(Encode(map[k := v])) == map[k := v]
  {
    EncodeOne(k, v);
    ParseEncode(map[k := v]);
  }

  /** The region query holds no control byte, whatever the region. */
  lemma RegionQueryNoControl(region: string)
    ensures NoControl(RegionQuery(region))
  {
    EncodeNoControl(map["region" := region]);
  }

  lemma RegionVerbatim()
    ensures QueryEscape("region") == "region"
  {
    NameVerbatim("region");
  }

  /** Does the escape `%28` of a `(` start at position `i`? */
  predicate OpensAt(s: string, i: nat) {
    i + 3 <= |s| && s[i] == '%' && s[i + 1] == '2' && s[i + 2] == '8'
  }

  predicate NoOpenEscape(s: string) {
    forall i :: 0 <= i < |s| ==> !OpensAt(s, i)
  }

  /** QueryEscape writes `%28` only for a `(`. */
  lemma {:induction false} EscapeOpenFree(s: string)
    requires '(' !in s
    ensures NoOpenEscape(QueryEscape(s))
    decreases |s|
  {
    if |s| > 0 {
      assert s == [s[0]] + s[1..];
      EscapeOpenFree(s[1..]);
      var e, rest := QueryEscapeChar(s[0]), QueryEscape(s[1..]);
      assert QueryEscape(s) == e + rest;
      forall i: nat | OpensAt(e + rest, i)
        ensures false
      {
        if i >= |e| {
          var opens := OpensAt(rest, i - |e|);
        } else {
          CharOpenFree(s[0], rest, i);
        }
      }
    }
  }

  lemma CharOpenFree(c: char, rest: string, i: nat)
    requires c != '(' && i < |QueryEscapeChar(c)|
    ensures !OpensAt(QueryEscapeChar(c) + rest, i)
  {
  }

  /** Text without `%` in front of escaped text adds no `%28`. */
  lemma PrefixOpenFree(pre: string, s: string)
    requires '%' !in pre && NoOpenEscape(s)
    ensures NoOpenEscape(pre + s)
  {
    forall i: nat | OpensAt(pre + s, i)
      ensures false
    {
      if i >= |pre| {
        var opens := OpensAt(s, i - |pre|);
      }
    }
  }

  /** A parameter name made of lower-case letters and `_` is written as it is. */
  lemma NameVerbatim(k: string)
    requires forall i :: 0 <= i < |k| ==> 'a' <= k[i] <= 'z' || k[i] == '_'
    ensures QueryEscape(k) == k
  {
    QueryEscapePlain(k);
  }
}
