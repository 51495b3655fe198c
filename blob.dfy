// The blob normaliser: normalizeBlobURL turns a bare `mem` into the memblob
// locator `mem:`, any other bare path into a fileblob locator, and gives an
// S3 locator without a `region` parameter the region of the first
// `AWS_REGION=` entry of the environment list it is handed.
//
// BlobURL states the string it returns; NormalizeBlob reassigns the parsed
// url.URL's fields and walks the environment list with the same early exit.
module Blob {
  import opened Results
  import opened Strings
  import opened Query
  import opened Urls
  import opened Hosts

  const RegionPrefix := "AWS_REGION="

  /** The message for an S3 locator that has no region anywhere. */
  function NoRegion(locator: string): string {
    "S3 URL '" + locator + "' doesn't have region query and no AWS_REGION env var"
  }

  /** The text after `AWS_REGION=` in the first entry that starts with it. */
  function EnvRegion(environ: seq<string>): Option<string>
  {
    if |environ| == 0 then None
    else if HasPrefix(environ[0], RegionPrefix) then Some(environ[0][|RegionPrefix|..])
    else EnvRegion(environ[1..])
  }

  /** What normalizeBlobURL makes of the parsed locator before writing it
      out again. */
  function Rewrite(v: Url, environ: seq<string>): Result<Url>
  {
    if v.scheme == "" then
      if v.path == "mem" then Ok(v.(scheme := "mem", path := ""))
      else Ok(v.(scheme := "file", host := v.path, path := ""))
    else if v.scheme == "s3" && !HasRegion(v) then
      match EnvRegion(environ)
      case Some(region) => Ok(v.(rawQuery := RegionQuery(region)))
      case None => Err(NoRegion(Render(v)))
    else Ok(v)
  }

  /** normalizeBlobURL. */
  function BlobURL(srcUrl: string, environ: seq<string>): Result<string>
  {
    var v :- Parse(srcUrl);
    var w :- Rewrite(v, environ);
    Ok(Render(w))
  }

  method NormalizeBlob(srcUrl: string, environ: seq<string>) returns (r: Result<string>)
    ensures r == BlobURL(srcUrl, environ)
  {
    var parsed := ParseURL(srcUrl);
    if parsed.Err? {
      return Err(parsed.error);
    }
    var u := parsed.value;
    ghost var v := u.Value();
    ghost var w := Rewrite(v, environ);
    assert BlobURL(srcUrl, environ) == if w.Ok? then Ok(Render(w.value)) else Err(w.error);
    RewriteCases(v, environ);
    if u.scheme == "" {
      if u.path == "mem" {
        u.scheme := "mem";
        u.path := "";
        assert u.Value() == v.(scheme := "mem", path := "");
      } else {
        u.scheme := "file";
        u.host := u.path;
        u.path := "";
        assert u.Value() == v.(scheme := "file", host := v.path, path := "");
      }
    } else if u.scheme == "s3" {
      if "region" !in u.Query() {
        var found := FillRegion(u, environ);
        if !found {
          return Err(NoRegion(u.String()));
        }
      }
    }
    return Ok(u.String());
  }

  lemma RewriteCases(v: Url, environ: seq<string>)
    ensures v.scheme == "" && v.path == "mem" ==> Rewrite(v, environ) == Ok(v.(scheme := "mem", path := ""))
    ensures v.scheme == "" && v.path != "mem" ==> Rewrite(v, environ) == Ok(v.(scheme := "file", host := v.path, path := ""))
    ensures v.scheme != "" && (v.scheme != "s3" || HasRegion(v)) ==> Rewrite(v, environ) == Ok(v)
    ensures v.scheme == "s3" && !HasRegion(v) && EnvRegion(environ).Some? ==>
              Rewrite(v, environ) == Ok(v.(rawQuery := RegionQuery(EnvRegion(environ).value)))
    ensures v.scheme == "s3" && !HasRegion(v) && EnvRegion(environ).None? ==>
              Rewrite(v, environ) == Err(NoRegion(Render(v)))
  {
  }

  /** The loop over the environment list: the first `AWS_REGION=` entry
      replaces the whole query by its region. */
  method FillRegion(u: URL, environ: seq<string>) returns (found: bool)
    modifies u
    ensures found <==> EnvRegion(environ).Some?
    ensures found ==> u.Value() == old(u.Value()).(rawQuery := RegionQuery(EnvRegion(environ).value))
    ensures !found ==> u.Value() == old(u.Value())
  {
    found := false;
    for i := 0 to |environ|
      invariant !found && u.Value() == old(u.Value())
      invariant EnvRegion(environ) == EnvRegion(environ[i..])
    {
      var env := environ[i];
      if HasPrefix(env, RegionPrefix) {
        var query: Values := map[];
        query := query["region" := env[|RegionPrefix|..]];
        u.rawQuery := Encode(query);
        found := true;
        assert EnvRegion(environ[i..]) == Some(env[|RegionPrefix|..]);
        break;
      }
      assert environ[i..][1..] == environ[i + 1..];
    }
    if !found {
      assert environ[|environ|..] == [];
    }
  }

  // ------------------------------------------------------------ properties

  /** EnvRegion finds a region exactly when some entry starts with
      `AWS_REGION=`, and then it is the text after the prefix in the first
      such entry. */
  lemma {:induction false} EnvRegionFirst(environ: seq<string>)
    ensures EnvRegion(environ).None? <==>
              forall i :: 0 <= i < |environ| ==> !HasPrefix(environ[i], RegionPrefix)
    ensures EnvRegion(environ).Some? ==>
              exists i :: 0 <= i < |environ| && HasPrefix(environ[i], RegionPrefix)
                && EnvRegion(environ).value == environ[i][|RegionPrefix|..]
                && forall j :: 0 <= j < i ==> !HasPrefix(environ[j], RegionPrefix)
  {
    if |environ| > 0 && !HasPrefix(environ[0], RegionPrefix) {
      var rest := environ[1..];
      EnvRegionFirst(rest);
      assert forall i :: 1 <= i < |environ| ==> environ[i] == rest[i - 1];
      if EnvRegion(rest).Some? {
        var i :| 0 <= i < |rest| && HasPrefix(rest[i], RegionPrefix)
                 && EnvRegion(rest).value == rest[i][|RegionPrefix|..]
                 && forall j :: 0 <= j < i ==> !HasPrefix(rest[j], RegionPrefix);
        assert environ[i + 1] == rest[i];
        assert forall j :: 0 <= j < i + 1 ==> !HasPrefix(environ[j], RegionPrefix) by {
          forall j | 0 <= j < i + 1 ensures !HasPrefix(environ[j], RegionPrefix) {
            if j > 0 {
              assert environ[j] == rest[j - 1];
            }
          }
        }
      } else {
        forall i | 0 <= i < |environ| ensures !HasPrefix(environ[i], RegionPrefix) {
          if i > 0 {
            assert environ[i] == rest[i - 1];
          }
        }
      }
    }
  }

  /** url.Parse refuses a locator with a control byte before anything else. */
  lemma BlobControl(srcUrl: string, environ: seq<string>)
    requires !NoControl(srcUrl)
    ensures BlobURL(srcUrl, environ) == Err(ControlError)
  {
  }

  /** A bare `mem`, and `mem://`, become `mem:`, which stays as it is. */
  lemma BlobMem(environ: seq<string>)
    ensures BlobURL("mem", environ) == Ok("mem:")
    ensures BlobURL("mem://", environ) == Ok("mem:")
    ensures BlobURL("mem:", environ) == Ok("mem:")
  {
    var m := Url("mem", "", "", "", "", false, "");
    MemParses();
    assert Url("", "", "", "mem", "", false, "").(scheme := "mem", path := "") == m;
    RenderBareScheme(m);
    MemSpelling();
  }

  lemma MemParses()
    ensures Parse("mem") == Ok(Url("", "", "", "mem", "", false, ""))
    ensures Parse("mem://") == Ok(Url("mem", "", "", "", "", false, ""))
    ensures Parse("mem:") == Ok(Url("mem", "", "", "", "", false, ""))
  {
    MemWord();
    ParseBare("mem");
    EmptyHint();
    ParseAuthorityString("mem", "", "", "");
    ParseSchemeBody("mem", "", "");
    MemSpelling();
  }

  lemma MemSpelling()
    ensures "mem" + "://" + "" + "" + QueryPart("") == "mem://"
    ensures "mem" + ":" + ("" + QueryPart("")) == "mem:"
    ensures "mem" + ":" + QueryPart("") == "mem:"
  {
  }

  lemma MemWord()
    ensures ValidScheme("mem")
    ensures "mem" != "" && ':' !in "mem" && '/' !in "mem" && '?' !in "mem" && NoEscape("mem") && NoControl("mem")
  {
    assert IsLetter('m');
  }

  /** The empty path decodes to itself and needs no RawPath hint. */
  lemma EmptyHint()
    ensures Unescape("") == "" && RawPathHint("") == ""
  {
    UnescapeEmpty("");
  }

  /** url.Parse of a bare relative name: all of it is the path. */
  lemma ParseBare(p: string)
    requires p != "" && ':' !in p && '/' !in p && '?' !in p && NoEscape(p) && NoControl(p)
    ensures Parse(p) == Ok(Url("", "", "", p, "", false, ""))
  {
    ParseRelativeBody(p, "");
    assert p + QueryPart("") == p;
    assert p[0] in p;
    ParseHierBare(p, "");
    UnescapePlain(p);
  }

  lemma ParseHierBare(rest: string, q: string)
    requires (rest == "" || rest[0] != '/') && ':' !in Cut(rest, '/').0
    ensures ParseHier("", rest, q) == Ok(Url("", "", "", Unescape(rest), RawPathHint(rest), false, q))
  {
    NoSlashPrefix(rest);
  }

  lemma NoSlashPrefix(rest: string)
    requires rest == "" || rest[0] != '/'
    ensures !HasPrefix(rest, "/") && !HasPrefix(rest, "//") && !HasPrefix(rest, "///")
  {
  }

  /** Any other bare relative name `p` becomes the fileblob locator
      `file://p`, its host escaped as URL.String escapes hosts, unless it
      holds a control byte; when that host reads back as `p` the locator
      stays as it is. */
  lemma BlobFile(p: string, environ: seq<string>)
    requires p != "" && p != "mem" && ':' !in p && '/' !in p && '?' !in p && NoEscape(p)
    ensures NoControl(p) ==> BlobURL(p, environ) == Ok("file://" + EscapeHost(p))
    ensures !NoControl(p) ==> BlobURL(p, environ) == Err(ControlError)
    ensures CleanHost(p) ==> BlobURL("file://" + EscapeHost(p), environ) == Ok("file://" + EscapeHost(p))
  {
    if !NoControl(p) {
      assert BlobURL(p, environ) == Err(ControlError);
      assert !CleanHost(p) by {
        if CleanHost(p) { CleanHostChars(p); }
      }
      return;
    }
    ParseBare(p);
    var w := Url("file", "", p, "", "", false, "");
    assert Url("", "", "", p, "", false, "").(scheme := "file", host := p, path := "") == w;
    EscapedPathEmpty(w);
    RenderAuthorityString(w);
    FileSpelling(EscapeHost(p));
    FileValid();
    EmptyHint();
    if CleanHost(p) {
      ParseAuthorityString("file", EscapeHost(p), "", "");
    }
  }

  lemma FileSpelling(h: string)
    ensures "file" + "://" + h + "" + QueryPart("") == "file://" + h
  {
  }

  lemma FileValid()
    ensures ValidScheme("file") && "file" != "" && "file" != "s3"
  {
    assert IsLetter('f');
  }

  /** A rooted bare path is not idempotent: `/name` becomes `file://%2Fname`,
      whose host url.Parse refuses, since `%2F` stands for an ASCII byte. */
  lemma BlobRootedPath(name: string, environ: seq<string>)
    requires name != "" && forall i :: 0 <= i < |name| ==> Unreserved(name[i])
    ensures BlobURL("/" + name, environ) == Ok("file://%2F" + name)
    ensures BlobURL("file://%2F" + name, environ) == Err("invalid URL escape \"%2F\"")
  {
    RootedWritten(name, environ);
    RootedRefused(name);
    RootedSpelling(name);
  }

  lemma RootedWritten(name: string, environ: seq<string>)
    requires name != "" && forall i :: 0 <= i < |name| ==> Unreserved(name[i])
    ensures BlobURL("/" + name, environ) == Ok("file://%2F" + name)
  {
    RootedParses(name);
    var w := Url("file", "", "/" + name, "", "", false, "");
    assert Rewrite(Url("", "", "", "/" + name, "", false, ""), environ) == Ok(w);
    EscapedPathEmpty(w);
    RenderAuthorityString(w);
    RootedEscaped(name);
    FileSpelling("%2F" + name);
    RootedSpelling(name);
  }

  lemma RootedSpelling(name: string)
    ensures "file://" + ("%2F" + name) == "file://%2F" + name
  {
  }

  lemma RootedParses(name: string)
    requires name != "" && forall i :: 0 <= i < |name| ==> Unreserved(name[i])
    ensures Parse("/" + name) == Ok(Url("", "", "", "/" + name, "", false, ""))
  {
    var p := "/" + name;
    assert NoEscape(p) && '?' !in p && p[1] == name[0] by {
      assert forall i :: 1 <= i < |p| ==> p[i] == name[i - 1];
    }
    assert forall i :: 0 <= i < |p| ==> !IsControl(p[i]) by {
      assert forall i :: 1 <= i < |p| ==> p[i] == name[i - 1];
    }
    IndexedNoControl(p);
    UnescapePlain(p);
    ParseHierRooted("", p, "");
    RootedBody(p);
  }

  lemma RootedBody(p: string)
    requires HasPrefix(p, "/") && '?' !in p && NoControl(p)
    ensures Parse(p) == ParseHier("", p, "")
  {
    ParseSlashBody(p, "");
    assert p + QueryPart("") == p;
  }

  /** URL.String writes the `/` of a host as `%2F`. */
  lemma RootedEscaped(name: string)
    requires forall i :: 0 <= i < |name| ==> Unreserved(name[i])
    ensures EscapeHost("/" + name) == "%2F" + name
  {
    SlashEscaped();
    EscapeHostPlain(name);
    EscapeHostAppend("/", name);
  }

  /** url.Parse refuses a host that starts with `%2F`. */
  lemma RootedRefused(name: string)
    requires forall i :: 0 <= i < |name| ==> Unreserved(name[i])
    ensures Parse("file://" + ("%2F" + name)) == Err("invalid URL escape \"%2F\"")
  {
    var a := "%2F" + name;
    assert '?' !in name && '/' !in name && ':' !in name by {
      assert forall i :: 0 <= i < |name| ==> Unreserved(name[i]);
    }
    IndexedNoControl(name);
    RootedHostRefused(name);
    ParseHierBadHost("file", a, "", "");
    RootedScheme(a);
    assert "//" + a + "" == "//" + a;
  }

  lemma RootedHostRefused(name: string)
    requires ':' !in name
    ensures ParseHost("%2F" + name) == Err("invalid URL escape \"%2F\"")
  {
    var a := "%2F" + name;
    assert a[..3] == "%2F" && a[1] == '2' && a[2] == 'F';
    assert Unhex('2') == 2;
    LowEscapeRefused(a);
    SlashEscapeError();
  }

  lemma SlashEscapeError()
    ensures EscapeError("%2F") == "invalid URL escape \"%2F\""
  {
    QuotePlain("%2F");
  }

  lemma RootedScheme(a: string)
    requires '?' !in a && NoControl(a)
    ensures Parse("file://" + a) == ParseHier("file", "//" + a, "")
  {
    FileValid();
    ParseSchemeBody("file", "//" + a, "");
    assert QueryPart("") == "";
    FileColonSpelling(a);
  }

  lemma FileColonSpelling(a: string)
    ensures "file" + ":" + ("//" + a + "") == "file://" + a
  {
  }

  /** A locator `scheme://bucket?query` of any scheme but S3, or an S3 one
      whose query has a `region`, is written out again with its bucket
      decoded and escaped afresh: unchanged when the bucket is spelt as
      URL.String spells it. A control byte in the query is refused. */
  lemma BlobBucket(scheme: string, bucket: string, q: string, environ: seq<string>)
    requires ValidScheme(scheme) && scheme != ""
    requires bucket != "" && ParseHost(bucket).Ok?
    requires scheme == "s3" ==> "region" in ParseQuery(q)
    ensures NoControl(q) ==>
      BlobURL(scheme + "://" + bucket + QueryPart(q), environ)
        == Ok(scheme + "://" + EscapeHost(ParseHost(bucket).value) + QueryPart(q))
    ensures !NoControl(q) ==> BlobURL(scheme + "://" + bucket + QueryPart(q), environ) == Err(ControlError)
  {
    if !NoControl(q) {
      QueryPartControl(scheme + "://" + bucket, q);
      return;
    }
    var v := Url(scheme, "", ParseHost(bucket).value, Unescape(""), RawPathHint(""), false, q);
    ParseAuthorityString(scheme, bucket, "", q);
    EmptyPathSpelling(scheme, bucket, QueryPart(q));
    EscapedPathOfParsed("", v);
    HostEmpty(bucket, "");
    RenderAuthorityString(v);
    EmptyPathSpelling(scheme, EscapeHost(v.host), QueryPart(q));
  }

  lemma EmptyPathSpelling(scheme: string, bucket: string, q: string)
    ensures scheme + "://" + bucket + "" + q == scheme + "://" + bucket + q
  {
  }

  /** An S3 locator without a region takes the first `AWS_REGION=` entry:
      its query becomes that one parameter, its value escaped by
      Values.Encode, and what it had before is dropped. A control byte in the
      query is refused. */
  lemma BlobS3Env(bucket: string, q: string, environ: seq<string>)
    requires bucket != "" && ParseHost(bucket).Ok?
    requires "region" !in ParseQuery(q) && EnvRegion(environ).Some?
    ensures NoControl(q) ==>
      BlobURL("s3://" + bucket + QueryPart(q), environ)
        == Ok("s3://" + EscapeHost(ParseHost(bucket).value) + "?region=" + QueryEscape(EnvRegion(environ).value))
    ensures !NoControl(q) ==> BlobURL("s3://" + bucket + QueryPart(q), environ) == Err(ControlError)
  {
    if !NoControl(q) {
      QueryPartControl("s3://" + bucket, q);
      return;
    }
    var region := EnvRegion(environ).value;
    var v := S3Parses(bucket, q);
    var w := v.(rawQuery := RegionQuery(region));
    assert Rewrite(v, environ) == Ok(w);
    RegionQueryRule(region);
    var rq := "?" + RegionQuery(region);
    assert QueryPart(w.rawQuery) == rq;
    EscapedPathOfParsed("", w);
    RenderAuthorityString(w);
    RegionSpelling(EscapeHost(w.host), QueryEscape(region));
  }

  /** Without a region and without an `AWS_REGION=` entry there is nothing
      to fill in: an error, which for a query with a control byte is the one
      url.Parse gives first. */
  lemma BlobS3NoEnv(bucket: string, q: string, environ: seq<string>)
    requires bucket != "" && ParseHost(bucket).Ok?
    requires "region" !in ParseQuery(q)
    requires forall i :: 0 <= i < |environ| ==> !HasPrefix(environ[i], RegionPrefix)
    ensures NoControl(q) ==>
      BlobURL("s3://" + bucket + QueryPart(q), environ)
        == Err(NoRegion("s3://" + EscapeHost(ParseHost(bucket).value) + QueryPart(q)))
    ensures !NoControl(q) ==> BlobURL("s3://" + bucket + QueryPart(q), environ) == Err(ControlError)
  {
    if !NoControl(q) {
      QueryPartControl("s3://" + bucket, q);
      return;
    }
    EnvRegionFirst(environ);
    var v := S3Parses(bucket, q);
    EscapedPathOfParsed("", v);
    RenderAuthorityString(v);
    S3Spelling(EscapeHost(v.host), QueryPart(q));
  }

  /** What url.Parse gives for `s3://bucket?query`. */
  lemma S3Parses(bucket: string, q: string) returns (v: Url)
    requires bucket != "" && ParseHost(bucket).Ok? && NoControl(q)
    ensures v == Url("s3", "", ParseHost(bucket).value, Unescape(""), RawPathHint(""), false, q)
    ensures Parse("s3://" + bucket + QueryPart(q)) == Ok(v)
    ensures v.scheme == "s3" && v.host != "" && (HasRegion(v) <==> "region" in ParseQuery(q))
  {
    v := Url("s3", "", ParseHost(bucket).value, Unescape(""), RawPathHint(""), false, q);
    S3Valid();
    HostEmpty(bucket, "");
    ParseAuthorityString("s3", bucket, "", q);
    S3Spelling(bucket, QueryPart(q));
  }

  lemma S3Spelling(bucket: string, q: string)
    ensures "s3" + "://" + bucket + "" + q == "s3://" + bucket + q
  {
  }

  lemma RegionSpelling(bucket: string, region: string)
    ensures "s3" + "://" + bucket + "" + ("?" + ("region=" + region)) == "s3://" + bucket + "?region=" + region
  {
  }

  lemma S3Valid()
    ensures ValidScheme("s3")
  {
    assert IsLetter('s');
  }

  /** Normalising a locator twice gives what normalising it once gave, as
      long as a bare path other than `mem` is a host URL.String writes so
      that url.Parse reads it back (BlobRootedPath shows one that is not): a bare
      name turns into a `mem:` or `file://` locator that reads back as
      itself, and a locator with a scheme is only re-serialised, with the
      region it may have been given. */
  lemma BlobIdempotent(srcUrl: string, environ: seq<string>)
    requires BlobURL(srcUrl, environ).Ok?
    requires Parse(srcUrl).Ok? && Parse(srcUrl).value.scheme == "" && Parse(srcUrl).value.path != "mem"
             ==> CleanHost(Parse(srcUrl).value.path)
    ensures BlobURL(BlobURL(srcUrl, environ).value, environ) == BlobURL(srcUrl, environ)
  {
    var v := Parse(srcUrl).value;
    ParseWellFormed(srcUrl);
    if v.scheme == "" {
      SchemelessSettled(v, environ);
    } else if v.scheme == "s3" && !HasRegion(v) {
      var region := EnvRegion(environ).value;
      var w := v.(rawQuery := RegionQuery(region));
      RegionQueryRule(region);
      RegionQueryNoControl(region);
      assert HasRegion(w);
      assert WellFormed(w);
      RenderParseWellFormed(w);
    } else {
      RenderParseWellFormed(v);
    }
  }


  /** The `mem:` and `file://` locators made from a bare name read back as
      locators of the same scheme that are written out as they were, when
      the name moved into the host reads back as itself. */
  lemma SchemelessSettled(v: Url, environ: seq<string>)
    requires Shaped(v) && v.scheme == ""
    requires v.path != "mem" ==> CleanHost(v.path)
    ensures Rewrite(v, environ).Ok?
    ensures var out := Render(Rewrite(v, environ).value);
      Parse(out).Ok? && Rewrite(Parse(out).value, environ) == Ok(Parse(out).value) && Render(Parse(out).value) == out
  {
    var w := Rewrite(v, environ).value;
    if v.path == "mem" {
      MemWord();
    } else {
      FileValid();
    }
    EscapedPathEmpty(w);
    assert Shaped(w);
    RenderParse(w);
    RenderReparsed(w);
  }
}
