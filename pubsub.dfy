// The publish/subscribe normaliser: NormalizePubSubURL classifies a locator
// by its prefix and rewrites AWS SNS/SQS and GCP Pub/Sub locators into the
// forms the Go CDK openers accept; anything else is returned as it came.
//
// The two rewriters are functions that state the string they return, and
// methods that reassign the source string and the parsed url.URL's fields in
// the order the rewriters do, proved to return the same string.
module PubSub {
  import opened Results
  import opened Strings
  import opened Query
  import opened Urls
  import opened Hosts
  import opened Paths

  const SnsScheme := "awssns:///"
  const SqsScheme := "awssqs://"
  const SqsHttps := "awssqs://https://"
  const SnsArn := "arn:aws:sns"
  const SqsEndpoint := "https://sqs."
  const GcpScheme := "gcppubsub://"

  const NoTopic := "gcppubsub url should have project and topic names"

  /** isAWSPubSub: one of the four AWS prefixes. */
  predicate IsAWSPubSub(s: string) {
    HasPrefix(s, SnsScheme) || HasPrefix(s, SqsScheme) || HasPrefix(s, SnsArn) || HasPrefix(s, SqsEndpoint)
  }

  /** The SQS branch: an `awssqs://https://` locator or a bare SQS endpoint. */
  predicate SqsSource(s: string) {
    HasPrefix(s, SqsHttps) || HasPrefix(s, SqsEndpoint)
  }

  /** The locator the SQS branch parses: the source with `awssqs://` removed. */
  function SqsTarget(s: string): string {
    if HasPrefix(s, SqsHttps) then s[|SqsScheme|..] else s
  }

  /** The inputs on which normalizeAWSPubSub indexes only into pieces that
      exist (Go panics on the others): a bare ARN has a fourth `:` field, ... */
  predicate ArnIndexable(s: string) {
    HasPrefix(s, SnsArn) ==> |Split(s, ':')| > 3
  }

  /** ... an `awssns:///` locator without a region has a fifth, ... */
  predicate SnsIndexable(s: string) {
    HasPrefix(s, SnsScheme) && Parse(s).Ok? && !HasRegion(Parse(s).value) ==> |Split(s, ':')| > 4
  }

  /** ... and an SQS locator without a region has a `.` in its host. */
  predicate SqsIndexable(s: string) {
    SqsSource(s) && Parse(SqsTarget(s)).Ok? && !HasRegion(Parse(SqsTarget(s)).value) ==>
      |Split(Parse(SqsTarget(s)).value.host, '.')| > 1
  }

  predicate AWSIndexable(s: string) {
    ArnIndexable(s) && SnsIndexable(s) && SqsIndexable(s)
  }

  /** normalizeAWSPubSub. */
  function AWSPubSub(src: string): Result<string>
    requires AWSIndexable(src)
  {
    if HasPrefix(src, SnsArn) then Ok(SnsScheme + src + "?region=" + Split(src, ':')[3])
    else if HasPrefix(src, SnsScheme) then SnsLocator(src)
    else if SqsSource(src) then SqsLocator(src)
    else Ok(src)
  }

  /** The `awssns:///` branch: re-serialised, with `region` from the fifth
      `:` field of the source when it has none. */
  function SnsLocator(src: string): Result<string>
    requires HasPrefix(src, SnsScheme) && SnsIndexable(src)
  {
    var v :- Parse(src);
    Ok(Render(if HasRegion(v) then v else v.(rawQuery := RegionQuery(Split(src, ':')[4]))))
  }

  /** The SQS branch: the endpoint re-serialised behind `awssqs://`, with
      `region` from the second label of its host when it has none. */
  function SqsLocator(src: string): Result<string>
    requires SqsSource(src) && SqsIndexable(src)
  {
    var v :- Parse(SqsTarget(src));
    Ok(SqsScheme + Render(if HasRegion(v) then v else v.(rawQuery := RegionQuery(Split(v.host, '.')[1]))))
  }

  method NormalizeAWSPubSub(srcUrl: string) returns (r: Result<string>)
    requires AWSIndexable(srcUrl)
    ensures r == AWSPubSub(srcUrl)
  {
    if HasPrefix(srcUrl, SnsArn) {
      var fragments := Split(srcUrl, ':');
      return Ok(SnsScheme + srcUrl + "?region=" + fragments[3]);
    } else if HasPrefix(srcUrl, SnsScheme) {
      var parsed := ParseURL(srcUrl);
      if parsed.Err? {
        return Err(parsed.error);
      }
      var u := parsed.value;
      if "region" !in u.Query() {
        var fragments := Split(srcUrl, ':');
        var q: Values := map[];
        q := q["region" := fragments[4]];
        u.rawQuery := Encode(q);
      }
      return Ok(u.String());
    } else if HasPrefix(srcUrl, SqsHttps) || HasPrefix(srcUrl, SqsEndpoint) {
      var src := srcUrl;
      if HasPrefix(src, SqsHttps) {
        src := src[|SqsScheme|..];
      }
      var parsed := ParseURL(src);
      if parsed.Err? {
        return Err(parsed.error);
      }
      var u := parsed.value;
      if "region" !in u.Query() {
        var fragments := Split(u.host, '.');
        var q: Values := map[];
        q := q["region" := fragments[1]];
        u.rawQuery := Encode(q);
      }
      return Ok(SqsScheme + u.String());
    }
    return Ok(srcUrl);
  }

  /** normalizeGCPPubSub. */
  function GCPPubSub(p: string): Result<string>
  {
    var v :- Parse(p);
    var fragments := Split(v.path, '/');
    if v.host == "" then Err(NoTopic)
    else if v.host == "projects" then
      if |fragments| != 4 then Err(NoTopic) else Ok(p)
    else if |fragments| != 2 then Err(NoTopic)
    else Ok(Render(v.(path := RootedJoin([v.host, "topics", fragments[1]]), host := "projects")))
  }

  method NormalizeGCPPubSub(p: string) returns (r: Result<string>)
    ensures r == GCPPubSub(p)
  {
    var parsed := ParseURL(p);
    if parsed.Err? {
      return Err(parsed.error);
    }
    var u := parsed.value;
    var fragments := Split(u.path, '/');
    if u.host == "" {
      return Err(NoTopic);
    } else if u.host == "projects" {
      if |fragments| != 4 {
        return Err(NoTopic);
      }
    } else {
      if |fragments| != 2 {
        return Err(NoTopic);
      }
      u.path := RootedJoin([u.host, "topics", fragments[1]]);
      u.host := "projects";
      return Ok(u.String());
    }
    return Ok(p);
  }

  /** NormalizePubSubURL. */
  function NormalizePubSubURL(srcUrl: string): Result<string>
    requires AWSIndexable(srcUrl)
  {
    if IsAWSPubSub(srcUrl) then AWSPubSub(srcUrl)
    else if HasPrefix(srcUrl, GcpScheme) then GCPPubSub(srcUrl)
    else Ok(srcUrl)
  }

  method NormalizePubSub(srcUrl: string) returns (r: Result<string>)
    requires AWSIndexable(srcUrl)
    ensures r == NormalizePubSubURL(srcUrl)
  {
    if IsAWSPubSub(srcUrl) {
      r := NormalizeAWSPubSub(srcUrl);
    } else if HasPrefix(srcUrl, GcpScheme) {
      r := NormalizeGCPPubSub(srcUrl);
    } else {
      r := Ok(srcUrl);
    }
  }

  // ------------------------------------------------------------- dispatch

  /** A `gcppubsub://` locator is never taken for an AWS one; a locator with
      neither kind of prefix, or an `awssqs://` one that does not wrap an
      `https://` endpoint, comes back as it is. */
  lemma PubSubRoutes(s: string)
    ensures HasPrefix(s, GcpScheme) ==> !IsAWSPubSub(s)
    ensures !IsAWSPubSub(s) ==> AWSIndexable(s)
    ensures !IsAWSPubSub(s) && !HasPrefix(s, GcpScheme) ==> NormalizePubSubURL(s) == Ok(s)
    ensures HasPrefix(s, SqsScheme) && !HasPrefix(s, SqsHttps) ==> AWSIndexable(s) && NormalizePubSubURL(s) == Ok(s)
  {
    PrefixesDiffer(s, GcpScheme, SnsScheme, 0);
    PrefixesDiffer(s, GcpScheme, SqsScheme, 0);
    PrefixesDiffer(s, GcpScheme, SnsArn, 0);
    PrefixesDiffer(s, GcpScheme, SqsEndpoint, 0);
    SqsHttpsIsSqs(s);
    PrefixesDiffer(s, SqsScheme, SnsArn, 1);
    PrefixesDiffer(s, SqsScheme, SnsScheme, 4);
    PrefixesDiffer(s, SqsScheme, SqsEndpoint, 0);
  }

  /** url.Parse refuses a control byte, so every branch that parses the
      locator refuses it; an ARN, which is not parsed, and a locator of no
      known kind come back as before. */
  lemma PubSubControl(s: string)
    requires !NoControl(s) && AWSIndexable(s)
    ensures HasPrefix(s, SnsScheme) || SqsSource(s) || HasPrefix(s, GcpScheme) ==>
      NormalizePubSubURL(s) == Err(ControlError)
  {
    if HasPrefix(s, SnsScheme) {
      SnsControl(s);
    } else if SqsSource(s) {
      SqsControl(s);
    } else if HasPrefix(s, GcpScheme) {
      PubSubRoutes(s);
    }
  }

  lemma SnsControl(s: string)
    requires !NoControl(s) && AWSIndexable(s) && HasPrefix(s, SnsScheme)
    ensures NormalizePubSubURL(s) == Err(ControlError)
  {
    AWSBranches(s);
    SnsOnly(s);
  }

  lemma SqsControl(s: string)
    requires !NoControl(s) && AWSIndexable(s) && SqsSource(s)
    ensures NormalizePubSubURL(s) == Err(ControlError)
  {
    SqsHttpsIsSqs(s);
    assert IsAWSPubSub(s);
    AWSBranches(s);
    SqsTargetControl(s);
    assert Parse(SqsTarget(s)) == Err(ControlError);
  }

  /** The `awssqs://` in front adds no control byte. */
  lemma SqsTargetControl(s: string)
    requires !NoControl(s) && SqsSource(s)
    ensures !NoControl(SqsTarget(s))
  {
    if HasPrefix(s, SqsHttps) {
      SqsHttpsIsSqs(s);
      assert s == s[..|SqsScheme|] + s[|SqsScheme|..];
      NoControlAppend(s[..|SqsScheme|], s[|SqsScheme|..]);
    }
  }

  /** The three AWS prefixes exclude each other, so each AWS branch is taken
      exactly for its own prefix. */
  lemma AWSBranches(src: string)
    requires AWSIndexable(src)
    ensures HasPrefix(src, SnsScheme) ==> AWSPubSub(src) == SnsLocator(src)
    ensures SqsSource(src) ==> AWSPubSub(src) == SqsLocator(src)
  {
    PrefixesDiffer(src, SnsScheme, SnsArn, 1);
    PrefixesDiffer(src, SqsHttps, SnsArn, 1);
    PrefixesDiffer(src, SqsHttps, SnsScheme, 4);
    PrefixesDiffer(src, SqsEndpoint, SnsArn, 0);
    PrefixesDiffer(src, SqsEndpoint, SnsScheme, 0);
  }

  lemma SqsHttpsIsSqs(s: string)
    ensures HasPrefix(s, SqsHttps) ==> HasPrefix(s, SqsScheme)
  {
    if HasPrefix(s, SqsHttps) {
      assert s[..|SqsScheme|] == s[..|SqsHttps|][..|SqsScheme|];
    }
  }

  // ------------------------------------------------------------------ SNS

  /** What url.Parse returns for `awssns:///` followed by `t` and a query. */
  function SnsUrl(t: string, q: string): Url {
    Url("awssns", "", "", Unescape("/" + t), RawPathHint("/" + t), false, q)
  }

  /** Every `awssns:///` locator without a control byte parses: no host, the
      rest up to `?` as the path. */
  lemma SnsParse(src: string)
    requires HasPrefix(src, SnsScheme)
    ensures !NoControl(src) ==> Parse(src) == Err(ControlError)
    ensures NoControl(src) ==> var (t, q, _) := Cut(src[|SnsScheme|..], '?');
      '?' !in t && Parse(src) == Ok(SnsUrl(t, q))
  {
    if !NoControl(src) {
      return;
    }
    var rest := src[|SnsScheme|..];
    var (t, q, _) := Cut(rest, '?');
    SnsSplit(src);
    NoControlAppend("awssns" + ":", "///" + rest);
    ParseSchemePrefix("awssns", "///" + rest);
    CutPrefix("///", rest, '?');
    SnsPath(t);
    ParseHierAuthority("awssns", "", "/" + t, q);
  }

  lemma SnsSplit(src: string)
    requires HasPrefix(src, SnsScheme)
    ensures src == "awssns" + ":" + ("///" + src[|SnsScheme|..])
  {
    assert src == src[..|SnsScheme|] + src[|SnsScheme|..];
  }

  lemma SnsPath(t: string)
    ensures "///" + t == "//" + "" + ("/" + t)
  {
  }

  /** URL.String writes such a URL back with the prefix, the path and the query. */
  lemma SnsRender(t: string, q: string)
    ensures Render(SnsUrl(t, q)) == SnsScheme + t + QueryPart(q)
  {
    var u := SnsUrl(t, q);
    EscapedPathOfParsed("/" + t, u);
    UnescapeEmpty("/" + t);
    RenderAuthorityString(u);
    SnsSpelling(t, QueryPart(q));
  }

  lemma SnsSpelling(t: string, q: string)
    ensures "awssns" + "://" + "" + ("/" + t) + q == SnsScheme + t + q
  {
  }

  /** An `awssns:///` locator with a region is returned exactly as it came;
      without one its query is replaced by `region` set to the fifth `:` field.
      One with a control byte is refused by url.Parse. */
  lemma SnsRegion(src: string)
    requires HasPrefix(src, SnsScheme) && AWSIndexable(src)
    ensures Parse(src).Ok? <==> NoControl(src)
    ensures !NoControl(src) ==> AWSPubSub(src) == Err(ControlError)
    ensures NoControl(src) && HasRegion(Parse(src).value) ==> AWSPubSub(src) == Ok(src)
    ensures NoControl(src) && !HasRegion(Parse(src).value) ==>
              && |Split(src, ':')| > 4
              && AWSPubSub(src) == Ok(SnsScheme + Cut(src[|SnsScheme|..], '?').0 + "?" + RegionQuery(Split(src, ':')[4]))
  {
    AWSBranches(src);
    SnsLocatorRegion(src);
  }

  lemma SnsLocatorRegion(src: string)
    requires HasPrefix(src, SnsScheme) && SnsIndexable(src)
    ensures Parse(src).Ok? <==> NoControl(src)
    ensures !NoControl(src) ==> SnsLocator(src) == Err(ControlError)
    ensures NoControl(src) && HasRegion(Parse(src).value) ==> SnsLocator(src) == Ok(src)
    ensures NoControl(src) && !HasRegion(Parse(src).value) ==>
              && |Split(src, ':')| > 4
              && SnsLocator(src) == Ok(SnsScheme + Cut(src[|SnsScheme|..], '?').0 + "?" + RegionQuery(Split(src, ':')[4]))
  {
    var rest := src[|SnsScheme|..];
    var (t, q, found) := Cut(rest, '?');
    SnsParse(src);
    if !NoControl(src) {
      return;
    }
    RegionQueryRule(if |Split(src, ':')| > 4 then Split(src, ':')[4] else "");
    if HasRegion(Parse(src).value) {
      SnsKept(src, t, q);
    } else {
      var rq := RegionQuery(Split(src, ':')[4]);
      assert Parse(src).value.(rawQuery := rq) == SnsUrl(t, rq);
      SnsAdded(t, rq);
    }
  }

  lemma SnsAdded(t: string, rq: string)
    requires rq != ""
    ensures Render(SnsUrl(t, rq)) == SnsScheme + t + "?" + rq
  {
    SnsRender(t, rq);
    assert SnsScheme + t + ("?" + rq) == SnsScheme + t + "?" + rq;
  }

  lemma SnsKept(src: string, t: string, q: string)
    requires HasPrefix(src, SnsScheme) && Cut(src[|SnsScheme|..], '?') == (t, q, '?' in src[|SnsScheme|..])
    requires "region" in ParseQuery(q)
    ensures Render(SnsUrl(t, q)) == src
  {
    var rest := src[|SnsScheme|..];
    SnsRender(t, q);
    ParseQueryEmpty();
    assert q != "" && '?' in rest;
    assert rest == t + "?" + q;
    RejoinQuery(src, SnsScheme, t, q);
  }

  /** A locator cut after a prefix and at its `?` is the pieces rejoined. */
  lemma RejoinQuery(src: string, prefix: string, t: string, q: string)
    requires HasPrefix(src, prefix) && src[|prefix|..] == t + "?" + q && q != ""
    ensures prefix + t + QueryPart(q) == src
  {
    assert src == src[..|prefix|] + src[|prefix|..];
  }

  /** An `awssns:///` locator that carries a region is settled: normalising
      it again returns it unchanged, unless it holds a control byte. */
  lemma SnsSettled(t: string, rq: string)
    requires '?' !in t && rq != "" && "region" in ParseQuery(rq)
    ensures AWSIndexable(SnsScheme + t + "?" + rq)
    ensures NoControl(t) && NoControl(rq) ==> AWSPubSub(SnsScheme + t + "?" + rq) == Ok(SnsScheme + t + "?" + rq)
    ensures !(NoControl(t) && NoControl(rq)) ==> AWSPubSub(SnsScheme + t + "?" + rq) == Err(ControlError)
  {
    var o := SnsScheme + t + "?" + rq;
    SnsSettledIndexable(t, rq);
    SnsPiecesControl(t, rq);
    if NoControl(o) {
      SnsSettledClean(t, rq);
    } else {
      SnsTail(t, rq);
      SnsRegion(o);
    }
  }

  /** The locator holds a control byte exactly when its topic or its query does. */
  lemma SnsPiecesControl(t: string, rq: string)
    ensures NoControl(SnsScheme + t + "?" + rq) <==> NoControl(t) && NoControl(rq)
  {
    NoControlAppend(SnsScheme + t, "?" + rq);
    NoControlAppend(SnsScheme, t);
    NoControlAppend("?", rq);
  }

  /** Without a control byte the locator parses as its topic and its query. */
  lemma SnsSettledParse(t: string, rq: string)
    requires '?' !in t && NoControl(SnsScheme + t + "?" + rq)
    ensures Parse(SnsScheme + t + "?" + rq) == Ok(SnsUrl(t, rq))
  {
    var o := SnsScheme + t + "?" + rq;
    SnsTail(t, rq);
    CutUnique(t + "?" + rq, '?', t, rq);
    assert Cut(o[|SnsScheme|..], '?') == (t, rq, true);
    SnsParse(o);
  }

  lemma SnsSettledIndexable(t: string, rq: string)
    requires '?' !in t && "region" in ParseQuery(rq)
    ensures AWSIndexable(SnsScheme + t + "?" + rq)
  {
    var o := SnsScheme + t + "?" + rq;
    SnsTail(t, rq);
    SnsOnly(o);
    if NoControl(o) {
      SnsSettledParse(t, rq);
      assert HasRegion(Parse(o).value);
    } else {
      SnsParse(o);
    }
  }

  lemma SnsSettledClean(t: string, rq: string)
    requires '?' !in t && "region" in ParseQuery(rq)
    requires NoControl(SnsScheme + t + "?" + rq) && AWSIndexable(SnsScheme + t + "?" + rq)
    ensures AWSPubSub(SnsScheme + t + "?" + rq) == Ok(SnsScheme + t + "?" + rq)
  {
    var o := SnsScheme + t + "?" + rq;
    SnsTail(t, rq);
    SnsSettledParse(t, rq);
    assert HasRegion(Parse(o).value);
    SnsRegion(o);
  }

  /** An `awssns:///` locator is neither an ARN nor an SQS locator. */
  lemma SnsOnly(s: string)
    requires HasPrefix(s, SnsScheme)
    ensures !HasPrefix(s, SnsArn) && !SqsSource(s)
  {
    PrefixesDiffer(s, SnsScheme, SnsArn, 1);
    PrefixesDiffer(s, SqsHttps, SnsScheme, 4);
    PrefixesDiffer(s, SqsEndpoint, SnsScheme, 0);
  }

  lemma SnsTail(t: string, rq: string)
    ensures HasPrefix(SnsScheme + t + "?" + rq, SnsScheme)
    ensures (SnsScheme + t + "?" + rq)[|SnsScheme|..] == t + "?" + rq
  {
    assert SnsScheme + t + "?" + rq == SnsScheme + (t + "?" + rq);
  }

  /** normalizeAWSPubSub is idempotent on `awssns:///` locators. */
  lemma SnsIdempotent(src: string)
    requires HasPrefix(src, SnsScheme) && AWSIndexable(src) && Parse(src).Ok?
    ensures AWSPubSub(src).Ok? && AWSIndexable(AWSPubSub(src).value)
    ensures AWSPubSub(AWSPubSub(src).value) == AWSPubSub(src)
  {
    SnsRegion(src);
    if !HasRegion(Parse(src).value) {
      var t := Cut(src[|SnsScheme|..], '?').0;
      var r := Split(src, ':')[4];
      SnsParse(src);
      RegionQueryRule(r);
      SnsPiecesNoControl(src);
      SnsSettled(t, RegionQuery(r));
    }
  }

  /** The path and the region taken from a locator without control bytes
      have none either. */
  lemma SnsPiecesNoControl(src: string)
    requires HasPrefix(src, SnsScheme) && NoControl(src) && |Split(src, ':')| > 4
    ensures NoControl(Cut(src[|SnsScheme|..], '?').0) && NoControl(RegionQuery(Split(src, ':')[4]))
  {
    DropNoControl(src, |SnsScheme|);
    CutNoControl(src[|SnsScheme|..], '?');
    RegionQueryNoControl(Split(src, ':')[4]);
  }

  // ------------------------------------------------------------------ ARN

  /** A bare ARN becomes an `awssns:///` locator with `region=` and the ARN's
      fourth `:` field appended as they are, neither parsed nor escaped. When
      that field needs no escaping the locator is settled; when the ARN holds
      a control byte it is refused by url.Parse. */
  lemma ArnLocator(arn: string)
    requires HasPrefix(arn, SnsArn) && |Split(arn, ':')| > 3 && '?' !in arn
    ensures AWSIndexable(arn)
    ensures AWSPubSub(arn) == Ok(SnsScheme + arn + "?region=" + Split(arn, ':')[3])
    ensures var out := AWSPubSub(arn).value; var r := Split(arn, ':')[3];
      NoControl(arn) && QueryEscape(r) == r ==>
        && Parse(out).Ok? && ParseQuery(Parse(out).value.rawQuery) == map["region" := r]
        && AWSIndexable(out) && AWSPubSub(out) == Ok(out)
    ensures var out := AWSPubSub(arn).value;
      !NoControl(arn) ==> Parse(out) == Err(ControlError) && AWSIndexable(out) && AWSPubSub(out) == Err(ControlError)
  {
    var r := Split(arn, ':')[3];
    PrefixesDiffer(arn, SnsArn, SnsScheme, 1);
    PrefixesDiffer(arn, SnsArn, SqsHttps, 1);
    PrefixesDiffer(arn, SnsArn, SqsEndpoint, 0);
    ArnSpelling(arn, r);
    if NoControl(arn) {
      if QueryEscape(r) == r {
        SplitNoControl(arn, ':');
        ArnSettled(arn, r);
      }
    } else {
      ArnRefused(arn, "region=" + r);
    }
  }

  /** The locator made from an ARN whose region needs no escaping parses
      with that region and is settled. */
  lemma ArnSettled(arn: string, r: string)
    requires '?' !in arn && NoControl(arn) && NoControl(r) && QueryEscape(r) == r
    ensures var out := SnsScheme + arn + "?" + ("region=" + r);
      && Parse(out).Ok? && ParseQuery(Parse(out).value.rawQuery) == map["region" := r]
      && AWSIndexable(out) && AWSPubSub(out) == Ok(out)
  {
    RegionQueryRule(r);
    RegionQueryNoControl(r);
    var rq := RegionQuery(r);
    var out := SnsScheme + arn + "?" + rq;
    SnsTail(arn, rq);
    CutUnique(arn + "?" + rq, '?', arn, rq);
    SnsPiecesControl(arn, rq);
    SnsParse(out);
    SnsSettled(arn, rq);
  }

  /** The locator made from an ARN holding a control byte is refused. */
  lemma ArnRefused(arn: string, rq: string)
    requires !NoControl(arn)
    ensures var out := SnsScheme + arn + "?" + rq;
      Parse(out) == Err(ControlError) && AWSIndexable(out) && AWSPubSub(out) == Err(ControlError)
  {
    var out := SnsScheme + arn + "?" + rq;
    SnsTail(arn, rq);
    ControlInside(SnsScheme, arn, "?" + rq);
    assert out == SnsScheme + arn + ("?" + rq);
    SnsParse(out);
    SnsOnly(out);
    SnsRegion(out);
  }

  lemma ArnSpelling(arn: string, r: string)
    ensures SnsScheme + arn + "?region=" + r == SnsScheme + arn + "?" + ("region=" + r)
  {
  }

  // ------------------------------------------------------------------ SQS

  /** An `awssqs://` locator is neither an SNS locator nor an ARN nor a bare endpoint. */
  lemma SqsOnly(s: string)
    requires HasPrefix(s, SqsScheme)
    ensures !HasPrefix(s, SnsArn) && !HasPrefix(s, SnsScheme) && !HasPrefix(s, SqsEndpoint)
  {
    PrefixesDiffer(s, SqsScheme, SnsArn, 1);
    PrefixesDiffer(s, SqsScheme, SnsScheme, 4);
    PrefixesDiffer(s, SqsScheme, SqsEndpoint, 0);
  }

  /** A bare endpoint is neither an SNS locator nor an ARN nor an `awssqs://` one. */
  lemma EndpointOnly(s: string)
    requires HasPrefix(s, SqsEndpoint)
    ensures !HasPrefix(s, SnsArn) && !HasPrefix(s, SnsScheme) && !HasPrefix(s, SqsHttps)
  {
    PrefixesDiffer(s, SqsEndpoint, SnsArn, 0);
    PrefixesDiffer(s, SqsEndpoint, SnsScheme, 0);
    PrefixesDiffer(s, SqsEndpoint, SqsHttps, 0);
  }

  lemma SqsPrefixed(r: string)
    ensures HasPrefix(SqsScheme + r, SqsScheme) && (SqsScheme + r)[|SqsScheme|..] == r
  {
  }

  /** An SQS locator whose endpoint carries a region is settled: normalising
      it again returns it unchanged. */
  lemma SqsSettled(w: Url)
    requires WellFormed(w) && HasRegion(w)
    ensures AWSIndexable(SqsScheme + Render(w))
    ensures AWSPubSub(SqsScheme + Render(w)) == Ok(SqsScheme + Render(w))
  {
    var o := SqsScheme + Render(w);
    SqsPrefixed(Render(w));
    SqsOnly(o);
    if HasPrefix(o, SqsHttps) {
      assert SqsTarget(o) == Render(w);
      RenderParseWellFormed(w);
      assert Parse(SqsTarget(o)) == Ok(w);
      assert SqsLocator(o) == Ok(o);
      AWSBranches(o);
    } else {
      assert !SqsSource(o);
    }
  }

  /** normalizeAWSPubSub is idempotent on SQS locators. */
  lemma SqsIdempotent(src: string)
    requires SqsSource(src) && AWSIndexable(src) && Parse(SqsTarget(src)).Ok?
    requires var v := Parse(SqsTarget(src)).value;
      !HasRegion(v) ==> |Split(v.host, '.')| > 1
    ensures AWSPubSub(src).Ok? && AWSIndexable(AWSPubSub(src).value)
    ensures AWSPubSub(AWSPubSub(src).value) == AWSPubSub(src)
  {
    var v := Parse(SqsTarget(src)).value;
    AWSBranches(src);
    ParseWellFormed(SqsTarget(src));
    if HasRegion(v) {
      SqsSettled(v);
    } else {
      var r := Split(v.host, '.')[1];
      RegionQueryRule(r);
      RegionQueryNoControl(r);
      assert HasRegion(v.(rawQuery := RegionQuery(r)));
      SqsSettled(v.(rawQuery := RegionQuery(r)));
    }
  }

  /** A leading `awssqs://` in front of an SQS endpoint changes nothing. */
  lemma SqsStrip(src: string)
    requires HasPrefix(src, SqsHttps) && HasPrefix(src[|SqsScheme|..], SqsEndpoint)
    ensures AWSIndexable(src) <==> AWSIndexable(src[|SqsScheme|..])
    ensures AWSIndexable(src) ==> AWSPubSub(src) == AWSPubSub(src[|SqsScheme|..])
  {
    var s := src[|SqsScheme|..];
    SqsHttpsIsSqs(src);
    SqsOnly(src);
    EndpointOnly(s);
    assert SqsTarget(src) == s == SqsTarget(s);
    if AWSIndexable(src) {
      AWSBranches(src);
      AWSBranches(s);
    }
  }

  /** The URL an SQS endpoint `https://<host><path>?<query>` parses to. */
  function EndpointUrl(host: string, p: string, q: string): Url {
    Url("https", "", host, Unescape(p), RawPathHint(p), false, q)
  }

  /** An SQS endpoint `https://sqs.<region>.…/account/queue`: with a region
      parameter it is only prefixed with `awssqs://`; without one its query
      becomes `region` set to the second label of the host. A control byte in
      the path or the query is refused by url.Parse. */
  lemma SqsEndpointRegion(host: string, p: string, q: string)
    requires HasPrefix(host, "sqs.") && VerbatimHost(host)
    requires '?' !in p && (p == "" || p[0] == '/')
    ensures var src := "https://" + host + p + QueryPart(q);
      && AWSIndexable(src)
      && (!(NoControl(p) && NoControl(q)) ==> AWSPubSub(src) == Err(ControlError))
      && (NoControl(p) && NoControl(q) && "region" in ParseQuery(q) ==> AWSPubSub(src) == Ok(SqsScheme + src))
      && (NoControl(p) && NoControl(q) && "region" !in ParseQuery(q) ==>
            && |Split(host, '.')| > 1
            && AWSPubSub(src) == Ok(SqsScheme + "https://" + host + p + "?" + RegionQuery(Split(host, '.')[1])))
  {
    var src := "https://" + host + p + QueryPart(q);
    var v := EndpointUrl(host, p, q);
    EndpointParse(host, p, q);
    if !(NoControl(p) && NoControl(q)) {
      EndpointOnly(src);
      AWSBranches(src);
      return;
    }
    HostLabels(host);
    EndpointRoute(src, v);
    EndpointRender(host, p, q);
    if "region" !in ParseQuery(q) {
      var rq := RegionQuery(Split(host, '.')[1]);
      RegionQueryRule(Split(host, '.')[1]);
      EndpointRender(host, p, rq);
      assert v.(rawQuery := rq) == EndpointUrl(host, p, rq);
      assert QueryPart(rq) == "?" + rq;
      SqsSpelling(host, p, rq);
    }
  }

  /** A bare endpoint with a `.` in its host is normalised by SqsLocator. */
  lemma EndpointRoute(s: string, v: Url)
    requires HasPrefix(s, SqsEndpoint) && Parse(s) == Ok(v) && |Split(v.host, '.')| > 1
    ensures AWSIndexable(s)
    ensures AWSPubSub(s) == Ok(SqsScheme + Render(if HasRegion(v) then v else v.(rawQuery := RegionQuery(Split(v.host, '.')[1]))))
  {
    EndpointOnly(s);
    assert SqsTarget(s) == s;
    AWSBranches(s);
  }

  /** The endpoint is a bare SQS source that parses to EndpointUrl, or is
      refused for a control byte in its path or query. */
  lemma EndpointParse(host: string, p: string, q: string)
    requires HasPrefix(host, "sqs.") && VerbatimHost(host)
    requires '?' !in p && (p == "" || p[0] == '/')
    ensures var src := "https://" + host + p + QueryPart(q);
      && HasPrefix(src, SqsEndpoint) && SqsSource(src) && SqsTarget(src) == src
      && (NoControl(p) && NoControl(q) ==> Parse(src) == Ok(EndpointUrl(host, p, q)))
      && (!(NoControl(p) && NoControl(q)) ==> Parse(src) == Err(ControlError))
  {
    var src := "https://" + host + p + QueryPart(q);
    HttpsSpelling(host, p, QueryPart(q));
    VerbatimHostChars(host);
    EndpointPrefix(host, p, QueryPart(q));
    EndpointOnly(src);
    if NoControl(p) && NoControl(q) {
      ParseAuthorityString("https", host, p, q);
    } else if !NoControl(p) {
      ControlInside("https://" + host, p, QueryPart(q));
    } else {
      QueryPartControl("https://" + host + p, q);
    }
  }

  /** EndpointUrl is written back as the endpoint. */
  lemma EndpointRender(host: string, p: string, q: string)
    requires host != "" && EscapeHost(host) == host && (p == "" || p[0] == '/')
    ensures Render(EndpointUrl(host, p, q)) == "https://" + host + p + QueryPart(q)
  {
    var v := EndpointUrl(host, p, q);
    EscapedPathOfParsed(p, v);
    RenderAuthorityString(v);
    HttpsSpelling(host, p, QueryPart(q));
  }

  /** A leading `awssqs://` in front of an SQS endpoint changes nothing. */
  lemma SqsEndpointWrapped(src: string)
    requires HasPrefix(src, SqsEndpoint)
    ensures AWSIndexable(SqsScheme + src) <==> AWSIndexable(src)
    ensures AWSIndexable(src) ==> AWSPubSub(SqsScheme + src) == AWSPubSub(src)
  {
    SqsWrapped(src);
    SqsStrip(SqsScheme + src);
  }

  lemma SqsSpelling(host: string, p: string, rq: string)
    ensures SqsScheme + ("https://" + host + p + ("?" + rq)) == SqsScheme + "https://" + host + p + "?" + rq
  {
  }

  lemma HttpsSpelling(host: string, p: string, q: string)
    ensures "https" + "://" + host + p + q == "https://" + host + p + q
  {
  }

  lemma EndpointPrefix(host: string, p: string, q: string)
    requires HasPrefix(host, "sqs.")
    ensures HasPrefix("https://" + host + p + q, SqsEndpoint)
  {
    assert ("https://" + host + p + q)[..|SqsEndpoint|] == "https://" + host[..4];
  }

  lemma SqsWrapped(src: string)
    requires HasPrefix(src, "https://")
    ensures HasPrefix(SqsScheme + src, SqsHttps) && (SqsScheme + src)[|SqsScheme|..] == src
  {
    assert (SqsScheme + src)[..|SqsHttps|] == SqsScheme + src[..8];
  }

  /** A host `sqs.<rest>` has at least two `.`-separated labels. */
  lemma HostLabels(host: string)
    requires HasPrefix(host, "sqs.")
    ensures |Split(host, '.')| > 1
  {
    var rest := host[4..];
    assert host == "sqs" + ("." + rest);
    SplitPrefix("sqs", "." + rest, '.');
    assert ("." + rest)[1..] == rest;
    assert Split("." + rest, '.') == [""] + Split(rest, '.');
  }

  // ------------------------------------------------------------------ GCP

  /** The shorthand's rewrite is settled: normalising its result again returns
      it unchanged, provided path.Join keeps the project and the topic as they
      are (neither is empty, `.` or `..`) and the decoded topic holds no
      control byte. The full form is returned as it is. */
  lemma GcpSettled(p: string)
    requires GCPPubSub(p).Ok?
    requires var v := Parse(p).value; var fragments := Split(v.path, '/');
      v.host != "projects" && |fragments| == 2 ==> Plain(v.host) && Plain(fragments[1])
    ensures GCPPubSub(GCPPubSub(p).value) == GCPPubSub(p)
  {
    var v := Parse(p).value;
    var fragments := Split(v.path, '/');
    if v.host != "projects" {
      var h, t := v.host, fragments[1];
      var np := RootedJoin([h, "topics", t]);
      var w := v.(path := np, host := "projects");
      assert GCPPubSub(p) == Ok(Render(w));
      ParseWellFormed(p);
      PathNoControl(v);
      SplitNoControl(v.path, '/');
      GcpTopicNoQuery(v, fragments);
      GcpPath(h, t);
      CleanHostChars(h);
      GcpPathNoControl(h, t);
      GcpRewriteParses(v, np);
      GcpFull(Render(w), Reparsed(w));
    }
  }

  /** The host `projects` is read and written as it is spelt. */
  lemma ProjectsHost()
    ensures VerbatimHost("projects")
  {
    assert forall i :: 0 <= i < |"projects"| ==> 'a' <= "projects"[i] <= 'z';
    LowerHost("projects");
  }

  lemma ProjectsParses()
    ensures ParseHost("projects") == Ok("projects")
  {
    ProjectsHost();
  }

  lemma ProjectsWritten()
    ensures EscapeHost("projects") == "projects"
  {
    ProjectsHost();
  }

  lemma ProjectsClean()
    ensures CleanHost("projects")
  {
    ProjectsHost();
  }

  /** The full form is returned as it is. */
  lemma GcpFull(o: string, w: Url)
    requires Parse(o) == Ok(w) && w.host == "projects" && |Split(w.path, '/')| == 4
    ensures GCPPubSub(o) == Ok(o)
  {
  }

  /** What url.Parse reads back from the rewritten URL: host `projects` and
      the new path. */
  lemma GcpRewriteParses(v: Url, np: string)
    requires WellFormed(v) && v.host != "" && |Split(v.path, '/')| == 2
    requires |Split(np, '/')| == 4 && HasPrefix(np, "/") && '?' !in np && NoControl(np)
    ensures var w := v.(path := np, host := "projects");
      Parse(Render(w)) == Ok(Reparsed(w)) && Reparsed(w).host == "projects" && Reparsed(w).path == np
  {
    var w := v.(path := np, host := "projects");
    GcpEscapedPath(v, np);
    EscapeNoQuery(np);
    EscapeNoControl(np);
    EscapeRooted(np);
    ProjectsClean();
    ShapedAuthority(w);
    RenderParse(w);
    assert WrittenPath(w) == Escape(np);
    UnescapeEscape(np);
  }

  /** Neither the host nor the path of a parsed URL holds a `?`, so neither
      does the topic. */
  lemma GcpTopicNoQuery(v: Url, fragments: seq<string>)
    requires WellFormed(v) && fragments == Split(v.path, '/') && |fragments| == 2
    ensures '?' !in v.host && '?' !in fragments[1]
  {
    CleanHostChars(v.host);
    EscapedPathDecodes(v);
    UnescapeNoQuery(EscapedPath(v));
    JoinSplit(v.path, '/');
    JoinThree(fragments[0], fragments[1], "", '/');
    assert fragments == [fragments[0], fragments[1]];
    assert v.path == fragments[0] + "/" + fragments[1];
  }

  /** The full path the shorthand is rewritten to, and its four pieces. */
  lemma GcpPath(h: string, t: string)
    requires Plain(h) && Plain(t) && '?' !in h && '?' !in t
    ensures RootedJoin([h, "topics", t]) == "/" + h + "/topics/" + t
    ensures Split("/" + h + "/topics/" + t, '/') == ["", h, "topics", t]
    ensures '?' !in "/" + h + "/topics/" + t
  {
    assert Plain("topics");
    RootedJoinThree(h, "topics", t);
    assert "/" + h + "/" + "topics" + "/" + t == "/" + h + "/topics/" + t;
  }

  lemma GcpPathNoControl(h: string, t: string)
    ensures NoControl("/" + h + "/topics/" + t) <==> NoControl(h) && NoControl(t)
  {
    NoControlAppend("/" + h, "/topics/");
    NoControlAppend("/", h);
    NoControlAppend("/" + h + "/topics/", t);
  }

  /** The old RawPath hint no longer encodes a path with a different number
      of pieces, so the rewritten path is written escaped. */
  lemma GcpEscapedPath(v: Url, np: string)
    requires WellFormed(v) && |Split(v.path, '/')| == 2 && |Split(np, '/')| == 4
    ensures EscapedPath(v.(path := np, host := "projects")) == Escape(np)
  {
    EscapedPathDecodes(v);
    assert Split("", '/') == [""];
    assert np != v.path && np != "";
  }

  /** The shorthand `gcppubsub://<project>/<topic>` becomes the full form
      `gcppubsub://projects/<project>/topics/<topic>`, which is settled; with
      a control byte in the topic or the query it is refused by url.Parse. */
  lemma GcpShorthand(project: string, topic: string, q: string)
    requires Plain(project) && project != "projects" && Plain(topic) && VerbatimHost(project)
    requires NoEscape(project) && NoEscape(topic) && '?' !in project && '?' !in topic
    ensures !(NoControl(topic) && NoControl(q)) ==>
      GCPPubSub(GcpScheme + project + "/" + topic + QueryPart(q)) == Err(ControlError)
    ensures NoControl(topic) && NoControl(q) ==>
      var out := GcpScheme + "projects/" + project + "/topics/" + topic + QueryPart(q);
      && GCPPubSub(GcpScheme + project + "/" + topic + QueryPart(q)) == Ok(out)
      && GCPPubSub(out) == Ok(out)
  {
    if NoControl(topic) && NoControl(q) {
      ShorthandSettled(project, topic, q);
    } else {
      ShorthandSpelling(project, topic, QueryPart(q));
      NoControlAppend("/", topic);
      GcpParse(project, "/" + topic, q);
    }
  }

  lemma ShorthandSettled(project: string, topic: string, q: string)
    requires Plain(project) && project != "projects" && Plain(topic) && VerbatimHost(project)
    requires NoEscape(project) && NoEscape(topic) && '?' !in project && '?' !in topic
    requires NoControl(topic) && NoControl(q)
    ensures var out := GcpScheme + "projects/" + project + "/topics/" + topic + QueryPart(q);
      && GCPPubSub(GcpScheme + project + "/" + topic + QueryPart(q)) == Ok(out)
      && GCPPubSub(out) == Ok(out)
  {
    var src := GcpScheme + project + "/" + topic + QueryPart(q);
    var np := "/" + project + "/topics/" + topic;
    ShorthandSpelling(project, topic, QueryPart(q));
    NoControlAppend("/", topic);
    GcpParse(project, "/" + topic, q);
    ProjectsWritten();
    TopicPath(topic);
    var v := Url("gcppubsub", "", project, "/" + topic, "", false, q);
    assert Parse(src) == Ok(v);
    GcpPath(project, topic);
    var w := v.(path := np, host := "projects");
    assert GCPPubSub(src) == Ok(Render(w));
    FullPathPlain(project, topic);
    GcpRender(w);
    FullSpelling(project, topic, QueryPart(q));
    GcpSettled(src);
  }

  /** The full form `gcppubsub://projects/<project>/topics/<topic>` is
      returned as it is, unless url.Parse refuses a control byte in it. */
  lemma GcpAsIs(project: string, topic: string, q: string)
    requires '/' !in project && '/' !in topic && NoEscape(project) && NoEscape(topic)
    requires '?' !in project && '?' !in topic
    ensures var src := GcpScheme + "projects/" + project + "/topics/" + topic + QueryPart(q);
      GCPPubSub(src) == if NoControl(project) && NoControl(topic) && NoControl(q) then Ok(src) else Err(ControlError)
  {
    ProjectsParses();
    var np := "/" + project + "/topics/" + topic;
    FullSpelling(project, topic, QueryPart(q));
    FullPathSplit(project, topic);
    GcpPathNoControl(project, topic);
    GcpParse("projects", np, q);
    if !(NoControl(project) && NoControl(topic) && NoControl(q)) {
      return;
    }
    UnescapePlain(np);
    GcpFull(GcpScheme + "projects/" + project + "/topics/" + topic + QueryPart(q),
            Url("gcppubsub", "", "projects", np, "", false, q));
  }

  /** Without a `/` after the project (`gcppubsub://`, `gcppubsub://myproject`)
      there is no topic: an error, unless url.Parse has already refused a
      control byte in the query. */
  lemma GcpNoTopic(project: string, q: string)
    requires ParseHost(project).Ok?
    ensures GCPPubSub(GcpScheme + project + QueryPart(q)) == Err(if NoControl(q) then NoTopic else ControlError)
  {
    assert GcpScheme + project + QueryPart(q) == GcpScheme + project + "" + QueryPart(q);
    GcpParse(project, "", q);
    assert Unescape("") == "" && Split("", '/') == [""];
  }

  /** A shorthand with an empty topic (`gcppubsub://<project>/`) is accepted,
      but path.Join drops the empty topic, so the result names no topic and
      normalising it again fails. */
  lemma GcpEmptyTopic(project: string)
    requires Plain(project) && project != "projects" && NoEscape(project) && VerbatimHost(project)
    ensures var out := GcpScheme + "projects/" + project + "/topics";
      && GCPPubSub(GcpScheme + project + "/") == Ok(out)
      && GCPPubSub(out) == Err(NoTopic)
  {
    var src := GcpScheme + project + "/";
    VerbatimHostChars(project);
    assert Plain("topics");
    EmptyTopicSpelling(project);
    SlashNoControl();
    GcpParse(project, "/", "");
    UnescapePlain("/");
    var v := Url("gcppubsub", "", project, "/", "", false, "");
    assert Parse(src) == Ok(v);
    assert Split("/", '/') == ["", ""];
    RootedJoinEmptyLast(project, "topics");
    var np := "/" + project + "/topics";
    assert RootedJoin([project, "topics", ""]) == np;
    var w := Url("gcppubsub", "", "projects", np, "", false, "");
    assert v.(path := np, host := "projects") == w;
    assert GCPPubSub(src) == Ok(Render(w));
    EmptyTopicRender(project, w);
    EmptyTopicOutput(project);
  }

  lemma SlashNoControl()
    ensures NoControl("/") && NoControl("")
  {
  }

  lemma EmptyTopicRender(project: string, w: Url)
    requires NoEscape(project) && project != "" && '?' !in project
    requires w == Url("gcppubsub", "", "projects", "/" + project + "/topics", "", false, "")
    ensures Render(w) == GcpScheme + "projects/" + project + "/topics"
  {
    EmptyTopicPlain(project);
    ProjectsWritten();
    GcpRender(w);
    EmptyTopicSpelling(project);
  }

  /** The result for an empty topic has only three path pieces: an error,
      unless url.Parse has already refused a control byte in the project. */
  lemma EmptyTopicOutput(project: string)
    requires Plain(project) && NoEscape(project) && '?' !in project
    ensures GCPPubSub(GcpScheme + "projects/" + project + "/topics") == Err(if NoControl(project) then NoTopic else ControlError)
  {
    var src := GcpScheme + "projects/" + project + "/topics";
    EmptyTopicParse(project);
    if NoControl(project) {
      EmptyTopicClean(src, project);
    } else {
      GcpParseError(src);
    }
  }

  /** url.Parse of the empty-topic locator: the three path pieces, or the
      control-byte error. */
  lemma EmptyTopicParse(project: string)
    requires Plain(project) && NoEscape(project) && '?' !in project
    ensures NoControl(project) ==>
      Parse(GcpScheme + "projects/" + project + "/topics") ==
        Ok(Url("gcppubsub", "", "projects", Unescape("/" + project + "/topics"),
               RawPathHint("/" + project + "/topics"), false, ""))
    ensures !NoControl(project) ==> Parse(GcpScheme + "projects/" + project + "/topics") == Err(ControlError)
  {
    var np := "/" + project + "/topics";
    EmptyTopicSpelling(project);
    assert NoControl("/topics") && NoControl("/") && NoControl("");
    NoControlAppend("/" + project, "/topics");
    NoControlAppend("/", project);
    assert NoControl(np) <==> NoControl(project);
    ProjectsParses();
    EmptyTopicPlain(project);
    GcpParse("projects", np, "");
  }

  /** A url.Parse error is GCPPubSub's result. */
  lemma GcpParseError(p: string)
    requires Parse(p).Err?
    ensures GCPPubSub(p) == Err(Parse(p).error)
  {
  }

  lemma EmptyTopicClean(src: string, project: string)
    requires Plain(project) && NoEscape(project) && '?' !in project
    requires Parse(src) ==
               Ok(Url("gcppubsub", "", "projects", Unescape("/" + project + "/topics"),
                      RawPathHint("/" + project + "/topics"), false, ""))
    ensures GCPPubSub(src) == Err(NoTopic)
  {
    var np := "/" + project + "/topics";
    assert Plain("topics");
    RootedJoinEmptyLast(project, "topics");
    EmptyTopicSpelling(project);
    assert |Split(np, '/')| == 3;
    EmptyTopicPlain(project);
    UnescapePlain(np);
    ProjectsFragments(src);
  }

  /** A `projects` locator whose path does not split into four pieces has no topic. */
  lemma ProjectsFragments(p: string)
    requires Parse(p).Ok? && Parse(p).value.host == "projects" && |Split(Parse(p).value.path, '/')| != 4
    ensures GCPPubSub(p) == Err(NoTopic)
  {
  }

  /** url.Parse of `gcppubsub://<host><path>?<query>`: refused for a control
      byte in the path or the query. */
  lemma GcpParse(h: string, p: string, q: string)
    requires ParseHost(h).Ok? && '?' !in p && (p == "" || p[0] == '/')
    ensures NoControl(p) && NoControl(q) ==>
      Parse(GcpScheme + h + p + QueryPart(q)) == Ok(Url("gcppubsub", "", ParseHost(h).value, Unescape(p), RawPathHint(p), false, q))
    ensures !(NoControl(p) && NoControl(q)) ==> Parse(GcpScheme + h + p + QueryPart(q)) == Err(ControlError)
  {
    if !NoControl(p) {
      ControlInside(GcpScheme + h, p, QueryPart(q));
      return;
    } else if !NoControl(q) {
      QueryPartControl(GcpScheme + h + p, q);
      return;
    }
    var raw := "gcppubsub" + "://" + h + p + QueryPart(q);
    GcpValidScheme();
    ParseAuthorityString("gcppubsub", h, p, q);
    GcpSpelling(h, p, QueryPart(q));
    assert raw == GcpScheme + h + p + QueryPart(q);
  }

  lemma GcpValidScheme()
    ensures ValidScheme("gcppubsub")
  {
    assert IsLetter('g');
  }

  /** URL.String of a `gcppubsub` URL with a host and an empty or rooted path. */
  lemma GcpRender(w: Url)
    requires w.scheme == "gcppubsub" && w.opaqueData == "" && !w.omitHost && w.host != ""
    requires EscapedPath(w) == "" || EscapedPath(w)[0] == '/'
    ensures Render(w) == GcpScheme + EscapeHost(w.host) + EscapedPath(w) + QueryPart(w.rawQuery)
  {
    RenderAuthorityString(w);
    GcpSpelling(EscapeHost(w.host), EscapedPath(w), QueryPart(w.rawQuery));
  }

  lemma GcpSpelling(h: string, p: string, q: string)
    ensures "gcppubsub" + "://" + h + p + q == GcpScheme + h + p + q
  {
  }

  lemma ShorthandSpelling(project: string, topic: string, q: string)
    ensures GcpScheme + project + "/" + topic + q == GcpScheme + project + ("/" + topic) + q
  {
  }

  lemma FullSpelling(project: string, topic: string, q: string)
    ensures GcpScheme + "projects" + ("/" + project + "/topics/" + topic) + q
         == GcpScheme + "projects/" + project + "/topics/" + topic + q
  {
  }

  lemma EmptyTopicSpelling(project: string)
    ensures GcpScheme + project + "/" == GcpScheme + project + "/" + QueryPart("")
    ensures "/" + project + "/" + "topics" == "/" + project + "/topics"
    ensures GcpScheme + "projects" + ("/" + project + "/topics") + QueryPart("") == GcpScheme + "projects/" + project + "/topics"
  {
  }

  /** The shorthand's path: one topic after the root. */
  lemma TopicPath(topic: string)
    requires Plain(topic) && NoEscape(topic)
    ensures Unescape("/" + topic) == "/" + topic && RawPathHint("/" + topic) == ""
    ensures Split("/" + topic, '/') == ["", topic]
  {
    UnescapePlain("/" + topic);
    SplitRooted([topic]);
  }

  lemma FullPathPlain(project: string, topic: string)
    requires NoEscape(project) && NoEscape(topic)
    ensures NoEscape("/" + project + "/topics/" + topic)
    ensures Escape("/" + project + "/topics/" + topic) == "/" + project + "/topics/" + topic
  {
    EscapePlain("/" + project + "/topics/" + topic);
  }

  lemma EmptyTopicPlain(project: string)
    requires NoEscape(project) && '?' !in project
    ensures NoEscape("/" + project + "/topics") && '?' !in "/" + project + "/topics"
    ensures Escape("/" + project + "/topics") == "/" + project + "/topics"
  {
    EscapePlain("/" + project + "/topics");
  }

  /** The full form's path splits into four pieces. */
  lemma FullPathSplit(project: string, topic: string)
    requires '/' !in project && '/' !in topic && NoEscape(project) && NoEscape(topic)
    requires '?' !in project && '?' !in topic
    ensures NoEscape("/" + project + "/topics/" + topic) && '?' !in "/" + project + "/topics/" + topic
    ensures |Split("/" + project + "/topics/" + topic, '/')| == 4
  {
    var np := "/" + project + "/topics/" + topic;
    JoinFour(project, topic);
    SplitJoin(["", project, "topics", topic], '/');
  }

  lemma JoinFour(project: string, topic: string)
    ensures Join(["", project, "topics", topic], '/') == "/" + project + "/topics/" + topic
  {
    JoinThree(project, "topics", topic, '/');
    assert ["", project, "topics", topic][1..] == [project, "topics", topic];
  }
}
