// The document-store normaliser: NormalizeDocStoreURL dispatches on the
// scheme to one rewriter per store (memstore, Firestore, DynamoDB, MongoDB).
//
// Each rewriter is a function on the URL value, which states the URL it ends
// with, and a method on the url.URL object, which assigns the fields in the
// order the rewriter does and is proved to end in that state.
module DocStore {
  import opened Results
  import opened Strings
  import opened Query
  import opened Urls
  import opened Paths
  import opened Hosts

  /** The option record of NormalizeDocStoreURL. */
  datatype Option = Option(keyName: string, partitionKey: string, collection: string,
                           fileName: string, revisionField: string)

  /** The zero Option used when the caller passes none. */
  const NoOption := Option("", "", "", "", "")

  const CollectionRequired := "opt.Collection is required if source URL doesn't have Collection"
  const NoProject := "Firestore URL doesn't have project information: "
  const NoMongoHost := "mongo requires hostname as a database name, but empty"

  /** The sentinel the Firestore rewriters put back after URL.String has escaped it. */
  const DefaultName := "default"
  const EscapedDefault := "%28" + DefaultName + "%29"
  const DefaultDatabase := "(" + DefaultName + ")"

  /** The `name_field` / `id_field` rule: the key option, else the value the
      source URL carries, else `_id`. */
  function KeyField(keyName: string, existing: string): (k: string)
  {
    if existing == "" && keyName == "" then "_id"
    else if keyName != "" then keyName
    else existing
  }

  lemma KeyFieldRule(keyName: string, existing: string)
    ensures KeyField(keyName, existing) != ""
    ensures keyName != "" ==> KeyField(keyName, existing) == keyName
    ensures keyName == "" ==> KeyField(keyName, existing) == if existing == "" then "_id" else existing
    ensures KeyField(keyName, KeyField(keyName, existing)) == KeyField(keyName, existing)
  {
  }

  /** The string a rewriter returns for the URL it ends with. */
  function Written(r: Result<Url>): Result<string>
  {
    match r
    case Ok(v) => Ok(Render(v))
    case Err(e) => Err(e)
  }

  // ---------------------------------------------------------------- memstore

  /** normalizeMemstore: the URL it leaves behind. */
  function Memstore(v: Url, keyName: string, collection: string, filename: string, revision: string): Result<Url>
  {
    if collection == "" && v.host == "" then Err(CollectionRequired)
    else
      var host := if collection != "" then collection else v.host;
      var path := if v.path == "" && keyName == "" then "_id" else if keyName != "" then keyName else v.path;
      Ok(v.(host := host, path := path, rawQuery := Encode(MemstoreQuery(ParseQuery(v.rawQuery), filename, revision))))
  }

  /** The parameters normalizeMemstore writes: the source's, with `filename`
      and `revision_field` set when given. */
  function MemstoreQuery(q: Values, filename: string, revision: string): Values
  {
    var q1 := if filename != "" then q["filename" := filename] else q;
    if revision != "" then q1["revision_field" := revision] else q1
  }

  method NormalizeMemstore(u: URL, keyName: string, collection: string, filename: string, revision: string)
    returns (r: Result<string>)
    modifies u
    ensures r == Written(Memstore(old(u.Value()), keyName, collection, filename, revision))
    ensures u.Value() == match Memstore(old(u.Value()), keyName, collection, filename, revision)
                         case Ok(w) => w
                         case Err(_) => old(u.Value())
  {
    ghost var v := u.Value();
    if collection == "" && u.host == "" {
      return Err(CollectionRequired);
    }
    if collection != "" {
      u.host := collection;
    }
    if u.path == "" && keyName == "" {
      u.path := "_id";
    } else if keyName != "" {
      u.path := keyName;
    }
    var q := u.Query();
    if filename != "" {
      q := q["filename" := filename];
    }
    if revision != "" {
      q := q["revision_field" := revision];
    }
    assert q == MemstoreQuery(ParseQuery(v.rawQuery), filename, revision);
    u.rawQuery := Encode(q);
    ghost var w := Memstore(v, keyName, collection, filename, revision).value;
    assert u.host == w.host;
    assert u.path == w.path;
    assert u.rawQuery == w.rawQuery;
    assert u.Value() == w;
    r := Ok(u.String());
  }

  /** The memstore rewriter fails exactly when neither the option nor the
      source names a collection; otherwise the option wins over the host. */
  lemma MemstoreCollection(v: Url, keyName: string, collection: string, filename: string, revision: string)
    ensures Memstore(v, keyName, collection, filename, revision).Err? <==> collection == "" && v.host == ""
    ensures Memstore(v, keyName, collection, filename, revision).Err? ==>
              Memstore(v, keyName, collection, filename, revision).error == CollectionRequired
    ensures Memstore(v, keyName, collection, filename, revision).Ok? ==>
              var w := Memstore(v, keyName, collection, filename, revision).value;
              w.host != "" && w.host == (if collection != "" then collection else v.host)
  {
  }

  /** The key name becomes the path; without one an empty path becomes `_id`
      and any other path stays. Scheme and opaque part are untouched. */
  lemma MemstorePath(v: Url, keyName: string, collection: string, filename: string, revision: string)
    requires Memstore(v, keyName, collection, filename, revision).Ok?
    ensures var w := Memstore(v, keyName, collection, filename, revision).value;
      && w.path != ""
      && (keyName != "" ==> w.path == keyName)
      && (keyName == "" && v.path == "" ==> w.path == "_id")
      && (keyName == "" && v.path != "" ==> w.path == v.path)
      && w.scheme == v.scheme && w.opaqueData == v.opaqueData
  {
  }

  /** The source's parameters survive; `filename` and `revision_field` are set
      exactly when given, and nothing else is added. */
  lemma MemstoreQueryRule(q: Values, filename: string, revision: string)
    ensures var p := MemstoreQuery(q, filename, revision);
      && p.Keys == q.Keys + (if filename != "" then {"filename"} else {}) + (if revision != "" then {"revision_field"} else {})
      && (forall k :: k in q && k != "filename" && k != "revision_field" ==> p[k] == q[k])
      && (filename != "" ==> p["filename"] == filename)
      && (revision != "" ==> p["revision_field"] == revision)
  {
  }

  /** The same, read back from the URL the memstore rewriter leaves: the
      written query parses to exactly those parameters. */
  lemma MemstoreParameters(v: Url, keyName: string, collection: string, filename: string, revision: string)
    requires Memstore(v, keyName, collection, filename, revision).Ok?
    ensures ParseQuery(Memstore(v, keyName, collection, filename, revision).value.rawQuery)
            == MemstoreQuery(ParseQuery(v.rawQuery), filename, revision)
  {
    ParseEncode(MemstoreQuery(ParseQuery(v.rawQuery), filename, revision));
  }

  /** Normalising a memstore URL a second time changes nothing. */
  lemma MemstoreIdempotent(v: Url, keyName: string, collection: string, filename: string, revision: string)
    requires Memstore(v, keyName, collection, filename, revision).Ok?
    ensures var w := Memstore(v, keyName, collection, filename, revision).value;
      Memstore(w, keyName, collection, filename, revision) == Ok(w)
  {
    var w := Memstore(v, keyName, collection, filename, revision).value;
    var m := MemstoreQuery(ParseQuery(v.rawQuery), filename, revision);
    MemstoreParameters(v, keyName, collection, filename, revision);
    MemstoreQueryTwice(ParseQuery(v.rawQuery), filename, revision);
    var host := if collection != "" then collection else w.host;
    var path := if w.path == "" && keyName == "" then "_id" else if keyName != "" then keyName else w.path;
    assert host == w.host && path == w.path;
    assert Encode(MemstoreQuery(ParseQuery(w.rawQuery), filename, revision)) == w.rawQuery;
  }

  lemma MemstoreQueryTwice(q: Values, filename: string, revision: string)
    ensures MemstoreQuery(MemstoreQuery(q, filename, revision), filename, revision) == MemstoreQuery(q, filename, revision)
  {
  }

  // --------------------------------------------------------------- Firestore

  /** A host other than `projects` is folded into the path, which then starts
      with the project. */
  function FoldProject(v: Url): Url
  {
    if v.host != "projects" then v.(path := RootedJoin([v.host, v.path]), host := "projects") else v
  }

  /** The single `name_field` parameter both Firestore rewriters write. */
  function NameQuery(keyName: string, rawQuery: string): string
  {
    Encode(map["name_field" := KeyField(keyName, Get(ParseQuery(rawQuery), "name_field"))])
  }

  /** The Firestore path `/prj/databases/db/documents/docs`. */
  function DocumentsPath(project: string, database: string, documents: string): string
  {
    RootedJoin([project, "databases", database, "documents", documents])
  }

  const InnerShapes := "Firestroe URL should be firestore://(prj)/(db)/(docs) or firestore://projects/(prj)/databases/(db)/documents/(docs), but '"
  const OuterShapes := "Firestroe URL should be firestore://(project) or firestore://(project)/(database) or firestore://projects/(project)/databases/(database)/documents, but '"

  /** normalizeFirestoreWithInnerCollection after its re-parse: the URL it ends
      with. The collection is the last source segment. */
  function FirestoreInner(v: Url, keyName: string): Result<Url>
  {
    if v.host == "" then Err(NoProject + Render(v))
    else
      var w := FoldProject(v);
      var el := Split(w.path, '/');
      if |el| == 4 then Ok(w.(path := DocumentsPath(el[1], el[2], el[3]), rawQuery := NameQuery(keyName, w.rawQuery)))
      else if |el| == 6 then Ok(w.(path := DocumentsPath(el[1], el[3], el[5]), rawQuery := NameQuery(keyName, w.rawQuery)))
      else Err(InnerShapes + Render(w) + "'")
  }

  /** normalizeFirestoreWithOuterCollection after its re-parse: the URL it ends
      with. The collection is the option; a database-less source gets `(default)`. */
  function FirestoreOuter(v: Url, keyName: string, collection: string): Result<Url>
  {
    if v.host == "" then Err(NoProject + Render(v))
    else
      var w := FoldProject(v);
      var el := Split(w.path, '/');
      if |el| == 2 then Ok(w.(path := DocumentsPath(el[1], DefaultDatabase, collection), rawQuery := NameQuery(keyName, w.rawQuery)))
      else if |el| == 3 then Ok(w.(path := DocumentsPath(el[1], el[2], collection), rawQuery := NameQuery(keyName, w.rawQuery)))
      else if |el| == 4 || |el| == 5 then Ok(w.(path := DocumentsPath(el[1], el[3], collection), rawQuery := NameQuery(keyName, w.rawQuery)))
      else Err(OuterShapes + Render(w) + "'")
  }

  /** The Firestore rewriters' last step: URL.String, with the first escaped
      `(default)` put back. */
  function RestoreDefault(r: Result<Url>): Result<string>
  {
    match r
    case Ok(w) => Ok(ReplaceFirst(Render(w), EscapedDefault, DefaultDatabase))
    case Err(e) => Err(e)
  }

  /** URL.String escapes the parentheses of `(default)` into the sentinel. */
  lemma EscapeDefault()
    ensures Escape(DefaultDatabase) == EscapedDefault
  {
    EscapeAppend("(" + DefaultName, ")");
    EscapeAppend("(", DefaultName);
    assert NoEscape(DefaultName);
    EscapePlain(DefaultName);
  }

  lemma EscapeDefaultPath(front: string, back: string)
    requires NoEscape(front) && NoEscape(back)
    ensures Escape(front + DefaultDatabase + back) == front + EscapedDefault + back
  {
    EscapeAppend(front + DefaultDatabase, back);
    EscapeAppend(front, DefaultDatabase);
    EscapePlain(front);
    EscapePlain(back);
    EscapeDefault();
  }

  lemma RestoreAfter(scheme: string, host: string, front: string, back: string, query: string)
    requires '%' !in scheme && '%' !in host && '%' !in front
    ensures ReplaceFirst(scheme + "://" + host + (front + EscapedDefault + back) + query, EscapedDefault, DefaultDatabase)
            == scheme + "://" + host + (front + DefaultDatabase + back) + query
  {
    var head := scheme + "://" + host + front;
    var tail := back + query;
    assert '%' !in "://";
    assert '%' !in head;
    ReplaceFirstPast(head, tail, EscapedDefault, DefaultDatabase);
    assert scheme + "://" + host + (front + EscapedDefault + back) + query == head + EscapedDefault + tail;
    assert scheme + "://" + host + (front + DefaultDatabase + back) + query == head + DefaultDatabase + tail;
  }

  /** Restoring the sentinel gives back a path whose only escaped text is one
      `(default)`: the string is `scheme://host`, the path as built, the query. */
  lemma RestoreDefaultPath(w: Url, front: string, back: string)
    requires w.scheme != "" && w.opaqueData == "" && w.host != "" && w.rawPath == ""
    requires '%' !in w.scheme && '%' !in w.host && EscapeHost(w.host) == w.host && HasPrefix(front, "/")
    requires NoEscape(front) && NoEscape(back) && w.path == front + DefaultDatabase + back
    ensures RestoreDefault(Ok(w)) == Ok(w.scheme + "://" + w.host + w.path + QueryPart(w.rawQuery))
  {
    assert HasPrefix(w.path, "/") by {
      assert w.path[..1] == front[..1];
    }
    RenderAuthority(w);
    EscapeDefaultPath(front, back);
    RestoreAfter(w.scheme, w.host, front, back, QueryPart(w.rawQuery));
  }

  /** normalizeFirestore: the outer form when a collection option is given. */
  function NormalizeFirestore(v: Url, keyName: string, collection: string): Result<string>
  {
    if collection == "" then RestoreDefault(FirestoreInner(v, keyName))
    else RestoreDefault(FirestoreOuter(v, keyName, collection))
  }

  /** No project is an error for both forms; otherwise either form may as well
      start from the folded URL. */
  lemma FirestoreFold(v: Url, keyName: string, collection: string)
    ensures v.host == "" ==>
              && FirestoreInner(v, keyName) == Err(NoProject + Render(v))
              && FirestoreOuter(v, keyName, collection) == Err(NoProject + Render(v))
    ensures v.host != "" ==>
              && FoldProject(v).host == "projects"
              && FirestoreInner(v, keyName) == FirestoreInner(FoldProject(v), keyName)
              && FirestoreOuter(v, keyName, collection) == FirestoreOuter(FoldProject(v), keyName, collection)
  {
    if v.host != "" {
      FoldProjectSettled(v);
      FirestoreInnerFold(v, keyName);
      FirestoreOuterFold(v, keyName, collection);
    }
  }

  lemma FoldProjectSettled(v: Url)
    ensures FoldProject(v).host == "projects" && FoldProject(FoldProject(v)) == FoldProject(v)
  {
  }

  lemma FirestoreInnerFold(v: Url, keyName: string)
    requires v.host != "" && FoldProject(FoldProject(v)) == FoldProject(v) && FoldProject(v).host != ""
    ensures FirestoreInner(v, keyName) == FirestoreInner(FoldProject(v), keyName)
  {
  }

  lemma FirestoreOuterFold(v: Url, keyName: string, collection: string)
    requires v.host != "" && FoldProject(FoldProject(v)) == FoldProject(v) && FoldProject(v).host != ""
    ensures FirestoreOuter(v, keyName, collection) == FirestoreOuter(FoldProject(v), keyName, collection)
  {
  }

  /** A project host other than `projects` becomes the first path segment. */
  lemma FoldProjectSegments(v: Url, segs: seq<string>)
    requires v.host != "projects" && Plain(v.host)
    requires forall i :: 0 <= i < |segs| ==> Plain(segs[i])
    requires v.path == "/" + Join(segs, '/') || (v.path == "" && segs == [])
    ensures FoldProject(v) == v.(host := "projects", path := "/" + Join([v.host] + segs, '/'))
  {
    RootedJoinFront(v.host, v.path, segs);
  }

  /** The documents path of plain segments: path.Join only puts `/` in between. */
  lemma DocumentsPathPlain(project: string, database: string, documents: string)
    requires Plain(project) && Plain(database) && Plain(documents)
    ensures DocumentsPath(project, database, documents)
            == "/" + Join([project, "databases", database, "documents", documents], '/')
  {
    FirestoreWordsPlain();
    assert forall i :: 0 <= i < 5 ==> Plain([project, "databases", database, "documents", documents][i]);
    RootedJoinPlain([project, "databases", database, "documents", documents]);
  }

  lemma FirestoreWordsPlain()
    ensures Plain("databases") && Plain("documents")
  {
  }

  /** The elements strings.Split finds in a plain documents path. */
  lemma DocumentsSplit(project: string, database: string, documents: string)
    requires Plain(project) && Plain(database) && Plain(documents)
    ensures var out := [project, "databases", database, "documents", documents];
      && (forall i :: 0 <= i < |out| ==> Plain(out[i]))
      && Split("/" + Join(out, '/'), '/') == [""] + out
  {
    var out := [project, "databases", database, "documents", documents];
    FirestoreWordsPlain();
    assert forall i :: 0 <= i < |out| ==> Plain(out[i]);
    SplitRooted(out);
  }

  /** Without a collection option, a folded path of three or five plain
      segments is accepted and nothing else is: three segments are project,
      database, collection; of five, the second and fourth are skipped
      whatever they say. `segs` are the elements strings.Split finds after
      the root. */
  lemma FirestoreInnerSegments(v: Url, keyName: string, segs: seq<string>)
    requires v.host == "projects" && |segs| >= 1
    requires forall i :: 0 <= i < |segs| ==> Plain(segs[i])
    requires Split(v.path, '/') == [""] + segs
    ensures FirestoreInner(v, keyName).Ok? <==> |segs| == 3 || |segs| == 5
    ensures |segs| == 3 ==>
              FirestoreInner(v, keyName) ==
              Ok(v.(path := "/" + Join([segs[0], "databases", segs[1], "documents", segs[2]], '/'),
                    rawQuery := NameQuery(keyName, v.rawQuery)))
    ensures |segs| == 5 ==>
              FirestoreInner(v, keyName) ==
              Ok(v.(path := "/" + Join([segs[0], "databases", segs[2], "documents", segs[4]], '/'),
                    rawQuery := NameQuery(keyName, v.rawQuery)))
  {
    var el := Split(v.path, '/');
    assert FoldProject(v) == v;
    assert |el| == |segs| + 1 && forall i :: 0 <= i < |segs| ==> el[i + 1] == segs[i];
    if |segs| == 3 {
      DocumentsPathPlain(segs[0], segs[1], segs[2]);
    } else if |segs| == 5 {
      DocumentsPathPlain(segs[0], segs[2], segs[4]);
    }
  }

  /** With a collection option, a folded path of one to four plain segments is
      accepted: the project, then the database (`(default)` when there is only
      the project, the fourth segment of the long form's `databases/db`); the
      collection is always the option's. */
  lemma FirestoreOuterSegments(v: Url, keyName: string, collection: string, segs: seq<string>)
    requires v.host == "projects" && |segs| >= 1 && Plain(collection)
    requires forall i :: 0 <= i < |segs| ==> Plain(segs[i])
    requires Split(v.path, '/') == [""] + segs
    ensures FirestoreOuter(v, keyName, collection).Ok? <==> |segs| <= 4
    ensures |segs| <= 4 ==>
              var db := if |segs| == 1 then DefaultDatabase else if |segs| == 2 then segs[1] else segs[2];
              FirestoreOuter(v, keyName, collection) ==
              Ok(v.(path := "/" + Join([segs[0], "databases", db, "documents", collection], '/'),
                    rawQuery := NameQuery(keyName, v.rawQuery)))
  {
    if |segs| <= 4 {
      var db := if |segs| == 1 then DefaultDatabase else if |segs| == 2 then segs[1] else segs[2];
      DocumentsPathPlain(segs[0], db, collection);
    }
  }

  /** A documents path is the database between two pieces without escapes. */
  lemma DocumentsPieces(project: string, db: string, collection: string)
    requires NoEscape(project) && NoEscape(collection)
    ensures "/" + Join([project, "databases", db, "documents", collection], '/')
            == ("/" + project + "/databases/") + db + ("/documents/" + collection)
    ensures NoEscape("/" + project + "/databases/") && NoEscape("/documents/" + collection)
    ensures HasPrefix("/" + project + "/databases/", "/")
    ensures '?' !in project && '?' !in collection ==>
              '?' !in "/" + project + "/databases/" && '?' !in "/documents/" + collection
  {
    DocumentsWords(project, db, collection);
    DocumentsLiterals();
  }

  lemma DocumentsLiterals()
    ensures NoEscape("/databases/") && NoEscape("/documents/")
    ensures '?' !in "/databases/" && '?' !in "/documents/"
  {
    assert forall i :: 0 <= i < |"/databases/"| ==> 'a' <= "/databases/"[i] <= 'z' || "/databases/"[i] == '/';
    assert forall i :: 0 <= i < |"/documents/"| ==> 'a' <= "/documents/"[i] <= 'z' || "/documents/"[i] == '/';
  }

  /** The documented example `firestore://my-project` with a collection option:
      the project moves into the path, the database defaults to `(default)`,
      written unescaped, and the query is `name_field` alone. */
  lemma FirestoreDefaultDatabase(v: Url, keyName: string, collection: string)
    requires v.scheme == "firestore" && v.opaqueData == "" && v.path == "" && v.rawPath == ""
    requires Plain(v.host) && v.host != "projects" && NoEscape(v.host)
    requires Plain(collection) && NoEscape(collection)
    ensures NormalizeFirestore(v, keyName, collection)
            == Ok("firestore://projects/" + v.host + "/databases/" + DefaultDatabase + "/documents/" + collection
                  + "?name_field=" + QueryEscape(KeyField(keyName, Get(ParseQuery(v.rawQuery), "name_field"))))
  {
    var h := v.host;
    var key := KeyField(keyName, Get(ParseQuery(v.rawQuery), "name_field"));
    FirestoreFold(v, keyName, collection);
    FoldProjectSegments(v, []);
    assert [h] + [] == [h];
    var f := FoldProject(v);
    assert f.path == "/" + h;
    SplitRooted([h]);
    FirestoreOuterSegments(f, keyName, collection, [h]);
    var w := FirestoreOuter(v, keyName, collection).value;
    DocumentsPieces(h, DefaultDatabase, collection);
    var front, back := "/" + h + "/databases/", "/documents/" + collection;
    assert w.path == front + DefaultDatabase + back;
    assert w.scheme == "firestore" && w.host == "projects" && w.opaqueData == "" && w.rawPath == "";
    FirestoreLiterals();
    ProjectsWritten();
    RestoreDefaultPath(w, front, back);
    EncodeOne("name_field", key);
    NameFieldVerbatim();
    assert QueryPart(w.rawQuery) == "?" + ("name_field" + "=" + QueryEscape(key));
    FirestoreString(h, collection, QueryEscape(key));
  }

  lemma FirestoreLiterals()
    ensures '%' !in "firestore" && '%' !in "projects"
  {
  }

  lemma ProjectsWritten()
    ensures EscapeHost("projects") == "projects"
  {
    ProjectsVerbatim();
  }

  lemma ProjectsVerbatim()
    ensures VerbatimHost("projects")
  {
    assert forall i :: 0 <= i < |"projects"| ==> 'a' <= "projects"[i] <= 'z';
    LowerHost("projects");
  }

  lemma FirestoreString(project: string, collection: string, key: string)
    ensures "firestore" + "://" + "projects" + (("/" + project + "/databases/") + DefaultDatabase + ("/documents/" + collection))
              + ("?" + ("name_field" + "=" + key))
            == "firestore://projects/" + project + "/databases/" + DefaultDatabase + "/documents/" + collection
              + "?name_field=" + key
  {
    assert "firestore" + "://" + "projects" + "/" == "firestore://projects/";
    assert "?" + "name_field" + "=" == "?name_field=";
  }

  /** The `name_field` query reads back as the one parameter, and rebuilding it
      from itself changes nothing. */
  lemma NameQueryRule(keyName: string, rawQuery: string)
    ensures ParseQuery(NameQuery(keyName, rawQuery))
            == map["name_field" := KeyField(keyName, Get(ParseQuery(rawQuery), "name_field"))]
    ensures NameQuery(keyName, NameQuery(keyName, rawQuery)) == NameQuery(keyName, rawQuery)
  {
    var existing := Get(ParseQuery(rawQuery), "name_field");
    var m := map["name_field" := KeyField(keyName, existing)];
    ParseEncode(m);
    KeyFieldRule(keyName, existing);
  }

  /** The inner form accepts its own result unchanged. */
  lemma FirestoreInnerIdempotent(v: Url, keyName: string, segs: seq<string>)
    requires v.host == "projects" && (|segs| == 3 || |segs| == 5)
    requires forall i :: 0 <= i < |segs| ==> Plain(segs[i])
    requires Split(v.path, '/') == [""] + segs
    ensures FirestoreInner(v, keyName).Ok?
    ensures var w := FirestoreInner(v, keyName).value;
      FirestoreInner(w, keyName) == Ok(w)
  {
    FirestoreInnerSegments(v, keyName, segs);
    var w := FirestoreInner(v, keyName).value;
    var db, docs := if |segs| == 3 then segs[1] else segs[2], if |segs| == 3 then segs[2] else segs[4];
    DocumentsSettled(w, keyName, segs[0], db, docs, v.rawQuery);
  }

  /** The result of the collection-option form is accepted unchanged by the
      inner form, with the option's collection as its last segment. */
  lemma FirestoreOuterSettled(v: Url, keyName: string, collection: string, segs: seq<string>)
    requires v.host == "projects" && 1 <= |segs| <= 4 && Plain(collection)
    requires forall i :: 0 <= i < |segs| ==> Plain(segs[i])
    requires Split(v.path, '/') == [""] + segs
    ensures FirestoreOuter(v, keyName, collection).Ok?
    ensures var w := FirestoreOuter(v, keyName, collection).value;
      FirestoreInner(w, keyName) == Ok(w)
  {
    FirestoreOuterSegments(v, keyName, collection, segs);
    var db := if |segs| == 1 then DefaultDatabase else if |segs| == 2 then segs[1] else segs[2];
    var w := FirestoreOuter(v, keyName, collection).value;
    DocumentsSettled(w, keyName, segs[0], db, collection, v.rawQuery);
  }

  /** A documents path of plain segments with a `name_field` query is what
      the inner form settles on. */
  lemma DocumentsSettled(w: Url, keyName: string, project: string, db: string, docs: string, rawQuery: string)
    requires w.host == "projects" && Plain(project) && Plain(db) && Plain(docs)
    requires w.path == "/" + Join([project, "databases", db, "documents", docs], '/')
    requires w.rawQuery == NameQuery(keyName, rawQuery)
    ensures FirestoreInner(w, keyName) == Ok(w)
  {
    var out := [project, "databases", db, "documents", docs];
    DocumentsSplit(project, db, docs);
    FirestoreInnerSegments(w, keyName, out);
    NameQueryRule(keyName, rawQuery);
    assert [out[0], "databases", out[2], "documents", out[4]] == out;
  }

  /** normalizeFirestoreWithInnerCollection. */
  method NormalizeFirestoreWithInner(u: URL, keyName: string) returns (r: Result<string>)
    requires WellFormed(u.Value())
    ensures r == RestoreDefault(FirestoreInner(u.Value(), keyName))
  {
    var w := Reparse(u);
    if w.host == "" {
      return Err(NoProject + w.String());
    } else if w.host != "projects" {
      w.path := RootedJoin([w.host, w.path]);
      w.host := "projects";
    }
    ghost var folded := FoldProject(u.Value());
    assert w.Value() == folded;
    var elements := Split(w.path, '/');
    if |elements| == 4 {
      w.path := DocumentsPath(elements[1], elements[2], elements[3]);
    } else if |elements| == 6 {
      w.path := DocumentsPath(elements[1], elements[3], elements[5]);
    } else {
      return Err(InnerShapes + w.String() + "'");
    }
    ghost var placed := w.Value();
    w.rawQuery := NameField(w, keyName);
    assert w.Value() == placed.(rawQuery := NameQuery(keyName, folded.rawQuery));
    r := Ok(ReplaceFirst(w.String(), EscapedDefault, DefaultDatabase));
  }

  /** normalizeFirestoreWithOuterCollection. */
  method NormalizeFirestoreWithOuter(u: URL, keyName: string, collection: string) returns (r: Result<string>)
    requires WellFormed(u.Value())
    ensures r == RestoreDefault(FirestoreOuter(u.Value(), keyName, collection))
  {
    var w := Reparse(u);
    if w.host == "" {
      return Err(NoProject + w.String());
    } else if w.host != "projects" {
      w.path := RootedJoin([w.host, w.path]);
      w.host := "projects";
    }
    ghost var folded := FoldProject(u.Value());
    assert w.Value() == folded;
    var elements := Split(w.path, '/');
    if |elements| == 2 {
      w.path := DocumentsPath(elements[1], DefaultDatabase, collection);
    } else if |elements| == 3 {
      w.path := DocumentsPath(elements[1], elements[2], collection);
    } else if |elements| == 4 || |elements| == 5 {
      w.path := DocumentsPath(elements[1], elements[3], collection);
    } else {
      return Err(OuterShapes + w.String() + "'");
    }
    ghost var placed := w.Value();
    w.rawQuery := NameField(w, keyName);
    assert w.Value() == placed.(rawQuery := NameQuery(keyName, folded.rawQuery));
    r := Ok(ReplaceFirst(w.String(), EscapedDefault, DefaultDatabase));
  }

  /** The query both Firestore rewriters build in a fresh url.Values: only
      `name_field`. */
  method NameField(w: URL, keyName: string) returns (raw: string)
    ensures raw == NameQuery(keyName, w.rawQuery)
  {
    var query: Values := map[];
    var existing := Get(w.Query(), "name_field");
    if existing == "" && keyName == "" {
      query := query["name_field" := "_id"];
    } else if keyName != "" {
      query := query["name_field" := keyName];
    } else {
      query := query["name_field" := existing];
    }
    raw := Encode(query);
  }

  // ---------------------------------------------------------------- DynamoDB

  /** The key parameters normalizeDynamo writes, from the source's
      `partition_key` and `sort_key` and the two options. */
  function DynamoKeys(pk: string, sk: string, keyName: string, partitionKey: string): Values
  {
    if pk != "" && sk != "" then
      map["partition_key" := (if partitionKey != "" then partitionKey else pk),
          "sort_key" := (if keyName != "" then keyName else sk)]
    else if pk != "" then
      map["partition_key" := (if keyName != "" then keyName else pk)]
    else
      var key := if keyName == "" then "_id" else keyName;
      if partitionKey != "" then map["partition_key" := partitionKey, "sort_key" := key]
      else map["partition_key" := key]
  }

  /** normalizeDynamo: the URL it leaves behind. */
  function Dynamo(v: Url, keyName: string, partitionKey: string, collection: string): Result<Url>
  {
    if v.host == "" && collection == "" then Err(CollectionRequired)
    else
      var q := ParseQuery(v.rawQuery);
      Ok(v.(scheme := "dynamodb", host := if collection != "" then collection else v.host,
            rawQuery := Encode(DynamoKeys(Get(q, "partition_key"), Get(q, "sort_key"), keyName, partitionKey))))
  }

  method NormalizeDynamo(u: URL, keyName: string, partitionKey: string, collection: string) returns (r: Result<string>)
    modifies u
    ensures r == Written(Dynamo(old(u.Value()), keyName, partitionKey, collection))
    ensures u.Value() == match Dynamo(old(u.Value()), keyName, partitionKey, collection)
                         case Ok(w) => w
                         case Err(_) => old(u.Value())
  {
    ghost var v := u.Value();
    if u.host == "" && collection == "" {
      return Err(CollectionRequired);
    }
    u.scheme := "dynamodb";
    if collection != "" {
      u.host := collection;
    }
    var query: Values := map[];
    var pk := Get(u.Query(), "partition_key");
    var sk := Get(u.Query(), "sort_key");
    var key := keyName;
    if pk != "" && sk != "" {
      if key != "" {
        sk := key;
      }
      if partitionKey != "" {
        pk := partitionKey;
      }
      query := query["partition_key" := pk];
      query := query["sort_key" := sk];
    } else if pk != "" && sk == "" {
      if key != "" {
        pk := key;
      }
      query := query["partition_key" := pk];
    } else {
      if key == "" {
        key := "_id";
      }
      if partitionKey != "" {
        query := query["partition_key" := partitionKey];
        query := query["sort_key" := key];
      } else {
        query := query["partition_key" := key];
      }
    }
    assert query == DynamoKeys(Get(ParseQuery(v.rawQuery), "partition_key"), Get(ParseQuery(v.rawQuery), "sort_key"),
                               keyName, partitionKey);
    u.rawQuery := Encode(query);
    r := Ok(u.String());
  }

  /** The DynamoDB rewriter fails exactly when neither host nor option names a
      table; otherwise the scheme is `dynamodb` and the option wins over the host. */
  lemma DynamoTable(v: Url, keyName: string, partitionKey: string, collection: string)
    ensures Dynamo(v, keyName, partitionKey, collection).Err? <==> v.host == "" && collection == ""
    ensures Dynamo(v, keyName, partitionKey, collection).Ok? ==>
              var w := Dynamo(v, keyName, partitionKey, collection).value;
              w.scheme == "dynamodb" && w.host != "" && w.host == (if collection != "" then collection else v.host)
  {
  }

  /** There is always a non-empty partition key, and at most a sort key besides. */
  lemma DynamoKeysShape(pk: string, sk: string, keyName: string, partitionKey: string)
    ensures var q := DynamoKeys(pk, sk, keyName, partitionKey);
      && "partition_key" in q && q["partition_key"] != ""
      && q.Keys <= {"partition_key", "sort_key"}
      && ("sort_key" in q ==> q["sort_key"] != "")
  {
  }

  /** The three-way rule: both source keys kept unless overridden; a lone
      partition key replaced by the key name; otherwise (a lone sort key is
      dropped) the partition key option with the key name as sort key, or the
      key name alone. */
  lemma DynamoKeysRule(pk: string, sk: string, keyName: string, partitionKey: string)
    ensures var q := DynamoKeys(pk, sk, keyName, partitionKey);
      var key := if keyName != "" then keyName else "_id";
      && (pk != "" && sk != "" ==>
            q == map["partition_key" := (if partitionKey != "" then partitionKey else pk),
                     "sort_key" := (if keyName != "" then keyName else sk)])
      && (pk != "" && sk == "" ==> q == map["partition_key" := (if keyName != "" then keyName else pk)])
      && (pk == "" && partitionKey != "" ==> q == map["partition_key" := partitionKey, "sort_key" := key])
      && (pk == "" && partitionKey == "" ==> q == map["partition_key" := key])
      && ("sort_key" in q <==> (pk != "" && sk != "") || (pk == "" && partitionKey != ""))
  {
  }

  /** Applying the rule to its own output changes nothing. */
  lemma DynamoKeysIdempotent(pk: string, sk: string, keyName: string, partitionKey: string)
    ensures var q := DynamoKeys(pk, sk, keyName, partitionKey);
      DynamoKeys(Get(q, "partition_key"), Get(q, "sort_key"), keyName, partitionKey) == q
  {
  }


  /** Normalising a DynamoDB URL a second time changes nothing. */
  lemma DynamoIdempotent(v: Url, keyName: string, partitionKey: string, collection: string)
    requires Dynamo(v, keyName, partitionKey, collection).Ok?
    ensures var w := Dynamo(v, keyName, partitionKey, collection).value;
      Dynamo(w, keyName, partitionKey, collection) == Ok(w)
  {
    var w := Dynamo(v, keyName, partitionKey, collection).value;
    var q := ParseQuery(v.rawQuery);
    var keys := DynamoKeys(Get(q, "partition_key"), Get(q, "sort_key"), keyName, partitionKey);
    ParseEncode(keys);
    DynamoKeysIdempotent(Get(q, "partition_key"), Get(q, "sort_key"), keyName, partitionKey);
    assert ParseQuery(w.rawQuery) == keys;
  }

  // ----------------------------------------------------------------- MongoDB

  /** normalizeMongo after its re-parse: the URL it ends with. */
  function Mongo(v: Url, keyName: string, collection: string): Result<Url>
  {
    if v.host == "" then Err(NoMongoHost)
    else if v.path == "/" && collection == "" then Err(CollectionRequired)
    else
      Ok(v.(path := if v.path == "" then collection else v.path,
            rawQuery := IdQuery(keyName, v.rawQuery)))
  }

  /** The single `id_field` parameter the MongoDB rewriter writes. */
  function IdQuery(keyName: string, rawQuery: string): string
  {
    Encode(map["id_field" := KeyField(keyName, Get(ParseQuery(rawQuery), "id_field"))])
  }

  method NormalizeMongo(u: URL, keyName: string, collection: string) returns (r: Result<string>)
    requires WellFormed(u.Value())
    ensures r == Written(Mongo(u.Value(), keyName, collection))
  {
    ghost var v := u.Value();
    if u.host == "" {
      return Err(NoMongoHost);
    }
    if u.path == "/" && collection == "" {
      return Err(CollectionRequired);
    }
    var w := Reparse(u);
    ghost var m := Mongo(v, keyName, collection).value;
    if w.path == "" {
      w.path := collection;
    }
    w.rawQuery := IdField(w, keyName);
    assert w.Value() == m;
    r := Ok(w.String());
  }

  /** The `id_field` query normalizeMongo builds from the URL's own. */
  method IdField(w: URL, keyName: string) returns (raw: string)
    ensures raw == IdQuery(keyName, w.rawQuery)
  {
    var query: Values := map[];
    var existing := Get(w.Query(), "id_field");
    if existing == "" && keyName == "" {
      query := query["id_field" := "_id"];
    } else if keyName != "" {
      query := query["id_field" := keyName];
    } else {
      query := query["id_field" := existing];
    }
    raw := Encode(query);
  }

  /** MongoDB needs a host (the database), and a collection unless the source
      has a path other than `/`; an existing path wins over the option. */
  lemma MongoRule(v: Url, keyName: string, collection: string)
    ensures Mongo(v, keyName, collection).Err? <==> v.host == "" || (v.path == "/" && collection == "")
    ensures v.host == "" ==> Mongo(v, keyName, collection) == Err(NoMongoHost)
    ensures Mongo(v, keyName, collection).Ok? ==>
              var w := Mongo(v, keyName, collection).value;
              && w.host == v.host && w.scheme == v.scheme
              && w.path == (if v.path == "" then collection else v.path)
  {
  }

  /** The query is `id_field` alone: every other source parameter is dropped. */
  lemma MongoParameters(v: Url, keyName: string, collection: string)
    requires Mongo(v, keyName, collection).Ok?
    ensures ParseQuery(Mongo(v, keyName, collection).value.rawQuery)
            == map["id_field" := KeyField(keyName, Get(ParseQuery(v.rawQuery), "id_field"))]
  {
    var existing := Get(ParseQuery(v.rawQuery), "id_field");
    var m := map["id_field" := KeyField(keyName, existing)];
    assert Mongo(v, keyName, collection).value.rawQuery == Encode(m);
    ParseEncode(m);
  }

  /** Normalising a MongoDB URL a second time changes nothing. */
  lemma MongoIdempotent(v: Url, keyName: string, collection: string)
    requires Mongo(v, keyName, collection).Ok?
    ensures var w := Mongo(v, keyName, collection).value;
      Mongo(w, keyName, collection) == Ok(w)
  {
    var w := Mongo(v, keyName, collection).value;
    MongoParameters(v, keyName, collection);
    KeyFieldRule(keyName, Get(ParseQuery(v.rawQuery), "id_field"));
  }

  /** A source path of `/` with a collection option keeps the `/`: the option
      fills in only an empty path. */
  lemma MongoSlashPath(v: Url, keyName: string, collection: string)
    requires v.host != "" && v.path == "/" && collection != ""
    ensures Mongo(v, keyName, collection).Ok? && Mongo(v, keyName, collection).value.path == "/"
  {
  }

  // -------------------------------------------------------------- dispatcher

  /** NormalizeDocStoreURL: parse, then the rewriter of the scheme. */
  function NormalizeDocStoreURL(srcUrl: string, opts: seq<Option>): Result<string>
  {
    var o := if |opts| > 0 then opts[0] else NoOption;
    var v :- Parse(srcUrl);
    if v.scheme == "mem" then Written(Memstore(v, o.keyName, o.collection, o.fileName, o.revisionField))
    else if v.scheme == "firestore" then NormalizeFirestore(v, o.keyName, o.collection)
    else if v.scheme == "dynamodb" then Written(Dynamo(v, o.keyName, o.partitionKey, o.collection))
    else if v.scheme == "mongo" then Written(Mongo(v, o.keyName, o.collection))
    else Err("Unknown scheme of docstore: '" + v.scheme + "'")
  }

  predicate DocStoreScheme(s: string) {
    s == "mem" || s == "firestore" || s == "dynamodb" || s == "mongo"
  }

  /** Only the four store schemes are handled; any other parsed scheme is an
      error that names it, and a parse error is passed on. */
  lemma DocStoreSchemes(srcUrl: string, opts: seq<Option>)
    ensures Parse(srcUrl).Err? ==> NormalizeDocStoreURL(srcUrl, opts) == Err(Parse(srcUrl).error)
    ensures Parse(srcUrl).Ok? && !DocStoreScheme(Parse(srcUrl).value.scheme) ==>
              NormalizeDocStoreURL(srcUrl, opts) == Err("Unknown scheme of docstore: '" + Parse(srcUrl).value.scheme + "'")
    ensures NormalizeDocStoreURL(srcUrl, opts).Ok? ==> Parse(srcUrl).Ok? && DocStoreScheme(Parse(srcUrl).value.scheme)
  {
  }

  /** url.Parse refuses a source with a control byte before any store is chosen. */
  lemma DocStoreControl(srcUrl: string, opts: seq<Option>)
    requires !NoControl(srcUrl)
    ensures NormalizeDocStoreURL(srcUrl, opts) == Err(ControlError)
  {
  }

  /** NormalizeDocStoreURL as it runs: url.Parse, then the rewriter of the
      scheme on the parsed url.URL. */
  method NormalizeDocStore(srcUrl: string, opts: seq<Option>) returns (r: Result<string>)
    ensures r == NormalizeDocStoreURL(srcUrl, opts)
  {
    var o := NoOption;
    if |opts| > 0 {
      o := opts[0];
    }
    var parsed := ParseURL(srcUrl);
    if parsed.Err? {
      return Err(parsed.error);
    }
    var u := parsed.value;
    ParseWellFormed(srcUrl);
    if u.scheme == "mem" {
      r := NormalizeMemstore(u, o.keyName, o.collection, o.fileName, o.revisionField);
    } else if u.scheme == "firestore" {
      if o.collection == "" {
        r := NormalizeFirestoreWithInner(u, o.keyName);
      } else {
        r := NormalizeFirestoreWithOuter(u, o.keyName, o.collection);
      }
    } else if u.scheme == "dynamodb" {
      r := NormalizeDynamo(u, o.keyName, o.partitionKey, o.collection);
    } else if u.scheme == "mongo" {
      r := NormalizeMongo(u, o.keyName, o.collection);
    } else {
      r := Err("Unknown scheme of docstore: '" + u.scheme + "'");
    }
  }

  // ------------------------------------------------- normalising twice, on strings

  /** Normalising the string a memstore source normalises to gives that string
      again, with the same options. */
  lemma MemstoreStringIdempotent(src: string, o: Option)
    requires Parse(src).Ok? && Parse(src).value.scheme == "mem"
    requires Parse(src).value.opaqueData == "" && !Parse(src).value.omitHost
    requires NormalizeDocStoreURL(src, [o]).Ok?
    requires CleanHost(o.collection) && '?' !in o.keyName && NoControl(o.keyName)
    ensures var out := NormalizeDocStoreURL(src, [o]).value;
      NormalizeDocStoreURL(out, [o]) == Ok(out)
  {
    var v := Parse(src).value;
    ParseWellFormed(src);
    var w := Memstore(v, o.keyName, o.collection, o.fileName, o.revisionField).value;
    assert NormalizeDocStoreURL(src, [o]) == Ok(Render(w));
    MemstoreShaped(v, o.keyName, o.collection, o.fileName, o.revisionField);
    RenderParse(w);
    MemstoreReread(v, o.keyName, o.collection, o.fileName, o.revisionField);
  }

  /** What the memstore rewriter leaves is written so that url.Parse reads it
      back, when the option's collection is a host spelt as URL.String spells
      it and the key name, which becomes the path, holds no `?` and no control
      byte. */
  lemma MemstoreShaped(v: Url, keyName: string, collection: string, filename: string, revision: string)
    requires WellFormed(v) && v.scheme != "" && v.opaqueData == "" && !v.omitHost
    requires Memstore(v, keyName, collection, filename, revision).Ok?
    requires CleanHost(collection) && '?' !in keyName && NoControl(keyName)
    ensures var w := Memstore(v, keyName, collection, filename, revision).value;
      Shaped(w) && (w.rawPath == "" || w.rawPath[0] == '/')
  {
    var w := Memstore(v, keyName, collection, filename, revision).value;
    ParsedPathRooted(v);
    MemstoreCollection(v, keyName, collection, filename, revision);
    if keyName != "" {
      EscapeNoQuery(keyName);
      EscapeNoControl(keyName);
    } else if v.path == "" {
      EscapedPathEmpty(v);
      IdPath();
    }
    assert '?' !in EscapedPath(w) && NoControl(EscapedPath(w));
    EncodeNoControl(MemstoreQuery(ParseQuery(v.rawQuery), filename, revision));
    ShapedAuthority(w);
  }

  lemma IdPath()
    ensures Escape("_id") == "_id" && '?' !in "_id" && NoControl("_id")
  {
    assert NoEscape("_id");
    EscapePlain("_id");
  }

  /** The memstore rewriter, given back what url.Parse reads from its result,
      leaves a URL that URL.String writes as it wrote the first. */
  lemma MemstoreReread(v: Url, keyName: string, collection: string, filename: string, revision: string)
    requires Memstore(v, keyName, collection, filename, revision).Ok?
    requires var w := Memstore(v, keyName, collection, filename, revision).value;
      w.rawPath == "" || w.rawPath[0] == '/'
    ensures var w := Memstore(v, keyName, collection, filename, revision).value;
      && Memstore(Reparsed(w), keyName, collection, filename, revision).Ok?
      && Render(Memstore(Reparsed(w), keyName, collection, filename, revision).value) == Render(w)
  {
    var w := Memstore(v, keyName, collection, filename, revision).value;
    var x := Reparsed(w);
    MemstoreCollection(v, keyName, collection, filename, revision);
    MemstorePath(v, keyName, collection, filename, revision);
    ReparsedPath(w);
    MemstoreParameters(v, keyName, collection, filename, revision);
    MemstoreQueryTwice(ParseQuery(v.rawQuery), filename, revision);
    var y := Memstore(x, keyName, collection, filename, revision).value;
    assert y.rawQuery == w.rawQuery;
    if keyName == "" {
      assert y == x;
      RenderReparsed(w);
    } else {
      assert y == w.(rawPath := RawPathHint(WrittenPath(w)));
      RawPathReread(w);
    }
  }

  /** Normalising the string a DynamoDB source normalises to gives that string
      again, with the same options. */
  lemma DynamoStringIdempotent(src: string, o: Option)
    requires Parse(src).Ok? && Parse(src).value.scheme == "dynamodb"
    requires Parse(src).value.opaqueData == "" && !Parse(src).value.omitHost
    requires NormalizeDocStoreURL(src, [o]).Ok?
    requires CleanHost(o.collection)
    ensures var out := NormalizeDocStoreURL(src, [o]).value;
      NormalizeDocStoreURL(out, [o]) == Ok(out)
  {
    var v := Parse(src).value;
    ParseWellFormed(src);
    var w := Dynamo(v, o.keyName, o.partitionKey, o.collection).value;
    assert NormalizeDocStoreURL(src, [o]) == Ok(Render(w));
    DynamoWellFormed(v, o.keyName, o.partitionKey, o.collection);
    RenderParseWellFormed(w);
    DynamoIdempotent(v, o.keyName, o.partitionKey, o.collection);
  }

  /** The DynamoDB rewriter keeps a parsed URL well formed when the option's
      collection is a host spelt as URL.String spells it. */
  lemma DynamoWellFormed(v: Url, keyName: string, partitionKey: string, collection: string)
    requires WellFormed(v) && v.scheme == "dynamodb" && v.opaqueData == "" && !v.omitHost
    requires Dynamo(v, keyName, partitionKey, collection).Ok? && CleanHost(collection)
    ensures WellFormed(Dynamo(v, keyName, partitionKey, collection).value)
  {
    var w := Dynamo(v, keyName, partitionKey, collection).value;
    var q := ParseQuery(v.rawQuery);
    ParsedPathRooted(v);
    DynamoTable(v, keyName, partitionKey, collection);
    assert EscapedPath(w) == EscapedPath(v);
    EncodeNoControl(DynamoKeys(Get(q, "partition_key"), Get(q, "sort_key"), keyName, partitionKey));
    ShapedAuthority(w);
  }

  /** Normalising the string a MongoDB source normalises to gives that string
      again, with the same options. */
  lemma MongoStringIdempotent(src: string, o: Option)
    requires Parse(src).Ok? && Parse(src).value.scheme == "mongo"
    requires NormalizeDocStoreURL(src, [o]).Ok?
    requires '?' !in o.collection && NoControl(o.collection)
    ensures var out := NormalizeDocStoreURL(src, [o]).value;
      NormalizeDocStoreURL(out, [o]) == Ok(out)
  {
    var v := Parse(src).value;
    ParseWellFormed(src);
    var w := Mongo(v, o.keyName, o.collection).value;
    assert NormalizeDocStoreURL(src, [o]) == Ok(Render(w));
    MongoShaped(v, o.keyName, o.collection);
    RenderParse(w);
    MongoReread(v, o.keyName, o.collection);
    RenderReparsed(w);
  }

  /** What the MongoDB rewriter leaves is written so that url.Parse reads it
      back, when the option's collection holds no `?` and no control byte. */
  lemma MongoShaped(v: Url, keyName: string, collection: string)
    requires WellFormed(v) && v.scheme != "" && Mongo(v, keyName, collection).Ok? && '?' !in collection
    requires NoControl(collection)
    ensures var w := Mongo(v, keyName, collection).value;
      Shaped(w) && (w.rawPath == "" || w.rawPath[0] == '/')
  {
    var w := Mongo(v, keyName, collection).value;
    MongoRule(v, keyName, collection);
    MongoPath(v, keyName, collection);
    EncodeNoControl(map["id_field" := KeyField(keyName, Get(ParseQuery(v.rawQuery), "id_field"))]);
    ShapedAuthority(w);
  }

  /** The path the MongoDB rewriter leaves holds no `?` and no control byte. */
  lemma MongoPath(v: Url, keyName: string, collection: string)
    requires WellFormed(v) && v.scheme != "" && Mongo(v, keyName, collection).Ok? && '?' !in collection
    requires NoControl(collection)
    ensures var w := Mongo(v, keyName, collection).value;
      '?' !in EscapedPath(w) && NoControl(EscapedPath(w)) && (w.rawPath == "" || w.rawPath[0] == '/')
  {
    var w := Mongo(v, keyName, collection).value;
    ParsedPathRooted(v);
    if v.path == "" {
      EscapedPathEmpty(v);
      EscapeNoQuery(collection);
      EscapeNoControl(collection);
    }
  }


  /** The MongoDB rewriter accepts what url.Parse reads back from its result
      and changes nothing in it. */
  lemma MongoReread(v: Url, keyName: string, collection: string)
    requires WellFormed(v) && v.scheme != "" && Mongo(v, keyName, collection).Ok? && '?' !in collection
    requires NoControl(collection)
    ensures var w := Mongo(v, keyName, collection).value;
      Mongo(Reparsed(w), keyName, collection) == Ok(Reparsed(w))
  {
    var w := Mongo(v, keyName, collection).value;
    var x := Reparsed(w);
    MongoRule(v, keyName, collection);
    MongoShaped(v, keyName, collection);
    MongoParameters(v, keyName, collection);
    KeyFieldRule(keyName, Get(ParseQuery(v.rawQuery), "id_field"));
    ReparsedPath(w);
    if collection == "" {
      assert WrittenPath(w) == EscapedPath(w);
      EscapedPathDecodes(w);
      assert x.path == w.path;
    }
  }

  /** `firestore://projects/prj/databases/db/documents/docs` and a query: the
      string both Firestore rewriters end with. */
  function FirestoreLocator(project: string, db: string, docs: string, rawQuery: string): string
  {
    "firestore://projects/" + project + "/databases/" + db + "/documents/" + docs + QueryPart(rawQuery)
  }

  /** Segments that a locator carries through url.Parse and URL.String as they
      are in this model: plain, free of `?`, and free of escapes except for a
      `(default)` database. */
  predicate LocatorSegments(project: string, db: string, docs: string)
  {
    && Plain(project) && Plain(db) && Plain(docs)
    && '?' !in project && '?' !in db && '?' !in docs
    && NoEscape(project) && NoEscape(docs) && (NoEscape(db) || db == DefaultDatabase)
  }

  /** The database the inner form reads from three or five folded segments. */
  function InnerDatabase(segs: seq<string>): string
    requires |segs| >= 3
  {
    if |segs| == 3 then segs[1] else segs[2]
  }

  /** The database the collection-option form reads from one to four folded
      segments. */
  function OuterDatabase(segs: seq<string>): string
    requires |segs| >= 1
  {
    if |segs| == 1 then DefaultDatabase else if |segs| == 2 then segs[1] else segs[2]
  }

  /** Normalising, without a collection option, the string a Firestore source
      normalises to gives that string again. The source is any URL whose
      folded path has three or five plain segments (the project, the
      database, the collection last), remembered as written without `%` or
      not at all, and whose key holds no `(`; the result is the locator of
      those three with the `name_field` query. */
  lemma FirestoreInnerStringIdempotent(src: string, o: Option, segs: seq<string>)
    requires Parse(src).Ok? && Parse(src).value.scheme == "firestore" && Parse(src).value.host != ""
    requires Parse(src).value.opaqueData == "" && !Parse(src).value.omitHost
    requires o.collection == ""
    requires Split(FoldProject(Parse(src).value).path, '/') == [""] + segs && (|segs| == 3 || |segs| == 5)
    requires forall i :: 0 <= i < |segs| ==> Plain(segs[i])
    requires LocatorSegments(segs[0], InnerDatabase(segs), segs[|segs| - 1])
    requires '%' !in Parse(src).value.rawPath
    requires '(' !in KeyField(o.keyName, Get(ParseQuery(Parse(src).value.rawQuery), "name_field"))
    ensures var out := FirestoreLocator(segs[0], InnerDatabase(segs), segs[|segs| - 1],
                                        NameQuery(o.keyName, Parse(src).value.rawQuery));
      NormalizeDocStoreURL(src, [o]) == Ok(out) && NormalizeDocStoreURL(out, [o]) == Ok(out)
  {
    var v := Parse(src).value;
    FoldedNoControl(src, segs);
    FirestoreDispatch(src, o);
    FoldedInner(v, o.keyName, segs);
    NameSettled(o, v.rawQuery);
    LocatorOutNoControl(src, segs[0], InnerDatabase(segs), segs[|segs| - 1], o.keyName);
    NameSettled(o, v.rawQuery);
    LocatorNormal(segs[0], InnerDatabase(segs), segs[|segs| - 1], NameQuery(o.keyName, v.rawQuery), o);
  }

  /** With a collection option, a Firestore source whose folded path has one to
      four plain segments normalises to the locator of its project, its
      database (`(default)` when it names none) and the option's collection.
      Normalising that string again gives it back once the option's
      collection is dropped; with the same collection option it is refused,
      as it already has five segments. */
  lemma FirestoreOuterString(src: string, o: Option, segs: seq<string>)
    requires Parse(src).Ok? && Parse(src).value.scheme == "firestore" && Parse(src).value.host != ""
    requires Parse(src).value.opaqueData == "" && !Parse(src).value.omitHost
    requires o.collection != "" && NoControl(o.collection)
    requires Split(FoldProject(Parse(src).value).path, '/') == [""] + segs && 1 <= |segs| <= 4
    requires forall i :: 0 <= i < |segs| ==> Plain(segs[i])
    requires LocatorSegments(segs[0], OuterDatabase(segs), o.collection)
    requires '%' !in Parse(src).value.rawPath
    requires '(' !in KeyField(o.keyName, Get(ParseQuery(Parse(src).value.rawQuery), "name_field"))
    ensures var out := FirestoreLocator(segs[0], OuterDatabase(segs), o.collection,
                                        NameQuery(o.keyName, Parse(src).value.rawQuery));
      && NormalizeDocStoreURL(src, [o]) == Ok(out)
      && NormalizeDocStoreURL(out, [o.(collection := "")]) == Ok(out)
      && NormalizeDocStoreURL(out, [o]) == Err(OuterShapes + out + "'")
  {
    var v := Parse(src).value;
    FoldedNoControl(src, segs);
    FirestoreDispatch(src, o);
    FoldedOuter(v, o.keyName, o.collection, segs);
    var q := NameQuery(o.keyName, v.rawQuery);
    NameSettled(o, v.rawQuery);
    OuterDatabaseNoControl(segs);
    LocatorOutNoControl(src, segs[0], OuterDatabase(segs), o.collection, o.keyName);
    NameSettled(o, v.rawQuery);
    LocatorNormal(segs[0], OuterDatabase(segs), o.collection, q, o.(collection := ""));
    LocatorNormal(segs[0], OuterDatabase(segs), o.collection, q, o);
  }

  /** The inner form on a URL whose folded path has three or five segments
      writes the locator of the project, the database and the last segment. */
  lemma FoldedInner(v: Url, keyName: string, segs: seq<string>)
    requires v.scheme == "firestore" && v.opaqueData == "" && v.host != "" && !v.omitHost
    requires Split(FoldProject(v).path, '/') == [""] + segs && (|segs| == 3 || |segs| == 5)
    requires forall i :: 0 <= i < |segs| ==> Plain(segs[i])
    requires LocatorSegments(segs[0], InnerDatabase(segs), segs[|segs| - 1])
    requires '%' !in v.rawPath && '(' !in KeyField(keyName, Get(ParseQuery(v.rawQuery), "name_field"))
    ensures NormalizeFirestore(v, keyName, "")
            == Ok(FirestoreLocator(segs[0], InnerDatabase(segs), segs[|segs| - 1], NameQuery(keyName, v.rawQuery)))
  {
    var db, docs := InnerDatabase(segs), segs[|segs| - 1];
    FirestoreFold(v, keyName, "");
    FirestoreInnerSegments(FoldProject(v), keyName, segs);
    var w := FirestoreInner(v, keyName).value;
    assert w.path == "/" + Join([segs[0], "databases", db, "documents", docs], '/');
    NameQueryWritten(keyName, v.rawQuery);
    LocatorWritten(w, segs[0], db, docs);
  }

  /** The collection-option form on a URL whose folded path has one to four
      segments writes the locator of the project, the database and the
      collection. */
  lemma FoldedOuter(v: Url, keyName: string, collection: string, segs: seq<string>)
    requires v.scheme == "firestore" && v.opaqueData == "" && v.host != "" && !v.omitHost && collection != ""
    requires Split(FoldProject(v).path, '/') == [""] + segs && 1 <= |segs| <= 4
    requires forall i :: 0 <= i < |segs| ==> Plain(segs[i])
    requires LocatorSegments(segs[0], OuterDatabase(segs), collection)
    requires '%' !in v.rawPath && '(' !in KeyField(keyName, Get(ParseQuery(v.rawQuery), "name_field"))
    ensures NormalizeFirestore(v, keyName, collection)
            == Ok(FirestoreLocator(segs[0], OuterDatabase(segs), collection, NameQuery(keyName, v.rawQuery)))
  {
    var db := OuterDatabase(segs);
    FirestoreFold(v, keyName, collection);
    FirestoreOuterSegments(FoldProject(v), keyName, collection, segs);
    var w := FirestoreOuter(v, keyName, collection).value;
    assert w.path == "/" + Join([segs[0], "databases", db, "documents", collection], '/');
    NameQueryWritten(keyName, v.rawQuery);
    LocatorWritten(w, segs[0], db, collection);
  }

  /** A Firestore locator normalised without a collection option comes back
      with the `name_field` query alone; with a collection option it is
      refused, naming the locator, since it already has five segments. One
      with a control byte is refused by url.Parse. */
  lemma LocatorNormal(project: string, db: string, docs: string, q: string, o: Option)
    requires LocatorSegments(project, db, docs)
    requires '(' !in KeyField(o.keyName, Get(ParseQuery(q), "name_field"))
    ensures !NoControl(FirestoreLocator(project, db, docs, q)) ==>
              NormalizeDocStoreURL(FirestoreLocator(project, db, docs, q), [o]) == Err(ControlError)
    ensures NoControl(FirestoreLocator(project, db, docs, q)) && o.collection == "" ==>
              NormalizeDocStoreURL(FirestoreLocator(project, db, docs, q), [o])
              == Ok(FirestoreLocator(project, db, docs, NameQuery(o.keyName, q)))
    ensures NoControl(FirestoreLocator(project, db, docs, q)) && o.collection != "" ==>
              NormalizeDocStoreURL(FirestoreLocator(project, db, docs, q), [o])
              == Err(OuterShapes + FirestoreLocator(project, db, docs, q) + "'")
  {
    var src := FirestoreLocator(project, db, docs, q);
    LocatorParse(project, db, docs, q);
    if !NoControl(src) {
      return;
    }
    LocatorPath(project, db, docs);
    FirestoreDispatch(src, o);
    LocatorFirestore(Parse(src).value, project, db, docs, o.keyName, o.collection);
  }

  /** NormalizeDocStoreURL of a `firestore` URL is normalizeFirestore of what
      url.Parse reads. */
  lemma FirestoreDispatch(src: string, o: Option)
    requires Parse(src).Ok? && Parse(src).value.scheme == "firestore"
    ensures NormalizeDocStoreURL(src, [o]) == NormalizeFirestore(Parse(src).value, o.keyName, o.collection)
  {
  }

  /** normalizeFirestore of a URL on a documents path of locator segments. */
  lemma LocatorFirestore(v: Url, project: string, db: string, docs: string, keyName: string, collection: string)
    requires LocatorSegments(project, db, docs)
    requires v.scheme == "firestore" && v.opaqueData == "" && v.host == "projects" && !v.omitHost
    requires v.path == "/" + Join([project, "databases", db, "documents", docs], '/')
    requires '%' !in v.rawPath && (db == DefaultDatabase ==> v.rawPath == v.path)
    requires '(' !in KeyField(keyName, Get(ParseQuery(v.rawQuery), "name_field"))
    ensures collection == "" ==>
              NormalizeFirestore(v, keyName, collection) == Ok(FirestoreLocator(project, db, docs, NameQuery(keyName, v.rawQuery)))
    ensures collection != "" ==>
              NormalizeFirestore(v, keyName, collection) == Err(OuterShapes + FirestoreLocator(project, db, docs, v.rawQuery) + "'")
  {
    DocumentsSplit(project, db, docs);
    if collection == "" {
      LocatorInner(v, project, db, docs, keyName);
    } else {
      LocatorOuter(v, project, db, docs, keyName, collection);
    }
  }

  lemma LocatorInner(v: Url, project: string, db: string, docs: string, keyName: string)
    requires LocatorSegments(project, db, docs)
    requires v.scheme == "firestore" && v.opaqueData == "" && v.host == "projects" && !v.omitHost
    requires v.path == "/" + Join([project, "databases", db, "documents", docs], '/') && '%' !in v.rawPath
    requires Split(v.path, '/') == [""] + [project, "databases", db, "documents", docs]
    requires forall i :: 0 <= i < 5 ==> Plain([project, "databases", db, "documents", docs][i])
    requires '(' !in KeyField(keyName, Get(ParseQuery(v.rawQuery), "name_field"))
    ensures RestoreDefault(FirestoreInner(v, keyName)) == Ok(FirestoreLocator(project, db, docs, NameQuery(keyName, v.rawQuery)))
  {
    var out := [project, "databases", db, "documents", docs];
    FirestoreInnerSegments(v, keyName, out);
    assert [out[0], "databases", out[2], "documents", out[4]] == out;
    var w := FirestoreInner(v, keyName).value;
    assert w == v.(rawQuery := NameQuery(keyName, v.rawQuery));
    NameQueryWritten(keyName, v.rawQuery);
    LocatorWritten(w, project, db, docs);
  }

  lemma LocatorOuter(v: Url, project: string, db: string, docs: string, keyName: string, collection: string)
    requires LocatorSegments(project, db, docs)
    requires v.scheme == "firestore" && v.opaqueData == "" && v.host == "projects" && !v.omitHost
    requires v.path == "/" + Join([project, "databases", db, "documents", docs], '/')
    requires '%' !in v.rawPath && (db == DefaultDatabase ==> v.rawPath == v.path)
    requires Split(v.path, '/') == [""] + [project, "databases", db, "documents", docs]
    ensures FirestoreOuter(v, keyName, collection) == Err(OuterShapes + FirestoreLocator(project, db, docs, v.rawQuery) + "'")
  {
    assert FoldProject(v) == v && |Split(v.path, '/')| == 6;
    LocatorRender(v, project, db, docs);
  }

  /** url.Parse of a Firestore locator: host `projects`, the documents path,
      remembered as written only for a `(default)` database; or the error for
      a control byte. */
  lemma LocatorParse(project: string, db: string, docs: string, q: string)
    requires LocatorSegments(project, db, docs)
    ensures !NoControl(FirestoreLocator(project, db, docs, q)) ==>
      Parse(FirestoreLocator(project, db, docs, q)) == Err(ControlError)
    ensures NoControl(FirestoreLocator(project, db, docs, q)) ==>
      var p := "/" + Join([project, "databases", db, "documents", docs], '/');
      Parse(FirestoreLocator(project, db, docs, q))
      == Ok(Url("firestore", "", "projects", p, if db == DefaultDatabase then p else "", false, q))
  {
    if !NoControl(FirestoreLocator(project, db, docs, q)) {
      return;
    }
    LocatorNoControl(project, db, docs, q);
    var p := "/" + Join([project, "databases", db, "documents", docs], '/');
    LocatorPath(project, db, docs);
    FirestoreValid();
    ProjectsVerbatim();
    ParseAuthorityString("firestore", "projects", p, q);
    LocatorSpelling(project, db, docs, QueryPart(q));
  }

  lemma OuterDatabaseNoControl(segs: seq<string>)
    requires 1 <= |segs| && forall i :: 0 <= i < |segs| ==> NoControl(segs[i])
    ensures NoControl(segs[0]) && NoControl(OuterDatabase(segs))
  {
    assert NoControl(DefaultDatabase);
  }

  /** The segments of a parsed source's folded path hold no control byte:
      url.Parse has refused any. */
  lemma FoldedNoControl(src: string, segs: seq<string>)
    requires Parse(src).Ok? && Split(FoldProject(Parse(src).value).path, '/') == [""] + segs
    ensures forall i :: 0 <= i < |segs| ==> NoControl(segs[i])
  {
    var v := Parse(src).value;
    ParseWellFormed(src);
    FoldedPathNoControl(v);
    TailNoControl(FoldProject(v).path, segs);
  }

  lemma TailNoControl(p: string, segs: seq<string>)
    requires NoControl(p) && Split(p, '/') == [""] + segs
    ensures forall i :: 0 <= i < |segs| ==> NoControl(segs[i])
  {
    SplitNoControl(p, '/');
    forall i | 0 <= i < |segs|
      ensures NoControl(segs[i])
    {
      assert segs[i] == Split(p, '/')[i + 1];
    }
  }

  lemma FoldedPathNoControl(v: Url)
    requires CleanHost(v.host) && NoControl(EscapedPath(v))
    ensures NoControl(FoldProject(v).path)
  {
    PathNoControl(v);
    if v.host != "projects" {
      CleanHostChars(v.host);
      assert forall i :: 0 <= i < |[v.host, v.path]| ==> NoControl([v.host, v.path][i]);
      RootedJoinNoControl([v.host, v.path]);
    }
  }

  /** The locator a Firestore rewriter writes for a parsed source holds no
      control byte when its segments hold none: the query is escaped. */
  lemma LocatorOutNoControl(src: string, project: string, db: string, docs: string, keyName: string)
    requires Parse(src).Ok? && NoControl(project) && NoControl(db) && NoControl(docs)
    ensures NoControl(FirestoreLocator(project, db, docs, NameQuery(keyName, Parse(src).value.rawQuery)))
  {
    var rq := Parse(src).value.rawQuery;
    EncodeNoControl(map["name_field" := KeyField(keyName, Get(ParseQuery(rq), "name_field"))]);
    LocatorNoControl(project, db, docs, NameQuery(keyName, rq));
  }

  /** A Firestore locator holds no control byte exactly when its segments and
      its query hold none, and the documents path then holds none either. */
  lemma LocatorNoControl(project: string, db: string, docs: string, q: string)
    ensures NoControl(FirestoreLocator(project, db, docs, q))
            <==> NoControl(project) && NoControl(db) && NoControl(docs) && NoControl(q)
    ensures NoControl(FirestoreLocator(project, db, docs, q))
            ==> NoControl("/" + Join([project, "databases", db, "documents", docs], '/'))
  {
    var a, b, c := "firestore://projects/", "/databases/", "/documents/";
    assert NoControl(a) && NoControl(b) && NoControl(c) && NoControl("?");
    NoControlAppend(a, project);
    NoControlAppend(a + project, b);
    NoControlAppend(a + project + b, db);
    NoControlAppend(a + project + b + db, c);
    NoControlAppend(a + project + b + db + c, docs);
    NoControlAppend(a + project + b + db + c + docs, QueryPart(q));
    NoControlAppend("?", q);
    DocumentsWords(project, db, docs);
    NoControlAppend("/", project);
    NoControlAppend("/" + project, b);
    NoControlAppend("/" + project + b, db);
    NoControlAppend("/" + project + b + db, c);
    NoControlAppend("/" + project + b + db + c, docs);
  }

  /** What escaping and decoding do to a documents path of locator segments. */
  lemma LocatorPath(project: string, db: string, docs: string)
    requires LocatorSegments(project, db, docs)
    ensures var p := "/" + Join([project, "databases", db, "documents", docs], '/');
      && p != "" && p[0] == '/' && '?' !in p && '%' !in p && Unescape(p) == p
      && (NoEscape(db) ==> Escape(p) == p)
      && (db == DefaultDatabase ==>
            Escape(p) == ("/" + project + "/databases/") + EscapedDefault + ("/documents/" + docs))
      && RawPathHint(p) == (if db == DefaultDatabase then p else "")
  {
    var front, back := "/" + project + "/databases/", "/documents/" + docs;
    DocumentsPieces(project, db, docs);
    var p := front + db + back;
    assert p[0] == front[0];
    if db == DefaultDatabase {
      assert '%' !in DefaultDatabase && '?' !in DefaultDatabase;
      EscapeDefaultPath(front, back);
      UnescapeNoPercent(p);
      assert |Escape(p)| != |p|;
    } else {
      UnescapePlain(p);
      EscapePlain(p);
    }
  }

  /** URL.String of a URL on a documents path of locator segments, remembered
      without `%` or not at all: the path is written as it is or, for a
      `(default)` database, with that database escaped. */
  lemma LocatorRender(w: Url, project: string, db: string, docs: string)
    requires LocatorSegments(project, db, docs)
    requires w.scheme == "firestore" && w.opaqueData == "" && w.host == "projects" && !w.omitHost
    requires w.path == "/" + Join([project, "databases", db, "documents", docs], '/')
    requires '%' !in w.rawPath
    ensures Render(w) == "firestore" + "://" + "projects" + EscapedPath(w) + QueryPart(w.rawQuery)
    ensures EscapedPath(w) == w.path || EscapedPath(w) == Escape(w.path)
    ensures (NoEscape(db) || w.rawPath == w.path) ==> EscapedPath(w) == w.path
    ensures EscapedPath(w) == w.path ==> Render(w) == FirestoreLocator(project, db, docs, w.rawQuery)
  {
    LocatorPath(project, db, docs);
    UnescapeNoPercent(w.rawPath);
    EscapeRooted(w.path);
    ProjectsWritten();
    RenderAuthorityString(w);
    LocatorSpelling(project, db, docs, QueryPart(w.rawQuery));
  }

  /** URL.String and the restored `(default)` of such a URL give the locator:
      the query holds no escaped `(` that strings.Replace could take for the
      escaped database. */
  lemma LocatorWritten(w: Url, project: string, db: string, docs: string)
    requires LocatorSegments(project, db, docs)
    requires w.scheme == "firestore" && w.opaqueData == "" && w.host == "projects" && !w.omitHost
    requires w.path == "/" + Join([project, "databases", db, "documents", docs], '/')
    requires '%' !in w.rawPath && NoOpenEscape(w.rawQuery)
    ensures RestoreDefault(Ok(w)) == Ok(FirestoreLocator(project, db, docs, w.rawQuery))
  {
    LocatorRender(w, project, db, docs);
    LocatorPath(project, db, docs);
    var front, back := "/" + project + "/databases/", "/documents/" + docs;
    if EscapedPath(w) != w.path {
      DocumentsPieces(project, db, docs);
      FirestoreLiterals();
      RestoreAfter("firestore", "projects", front, back, QueryPart(w.rawQuery));
      LocatorSpelling(project, db, docs, QueryPart(w.rawQuery));
    } else {
      LocatorNoDefault(w.path, w.rawQuery);
      ReplaceFirstNone(Render(w), EscapedDefault, DefaultDatabase);
    }
  }

  /** A locator whose path holds no `%` and whose query holds no `%28` holds
      no escaped `(default)`. */
  lemma LocatorNoDefault(p: string, q: string)
    requires '%' !in p && NoOpenEscape(q)
    ensures forall i: nat :: !OccursAt("firestore" + "://" + "projects" + p + QueryPart(q), EscapedDefault, i)
  {
    FirestoreLiterals();
    var head := "firestore" + "://" + "projects" + p;
    assert '%' !in "://" && '%' !in "?" && '%' !in head;
    if q == "" {
      assert NoOpenEscape(head) by {
        assert forall i :: 0 <= i < |head| ==> head[i] != '%';
      }
      assert head + QueryPart(q) == head;
      DefaultAbsent(head);
    } else {
      PrefixOpenFree(head + "?", q);
      assert head + QueryPart(q) == head + "?" + q;
      DefaultAbsent(head + "?" + q);
    }
  }

  /** Text without `%28` does not hold the escaped `(default)`. */
  lemma DefaultAbsent(s: string)
    requires NoOpenEscape(s)
    ensures forall i: nat :: !OccursAt(s, EscapedDefault, i)
  {
    forall i: nat | OccursAt(s, EscapedDefault, i)
      ensures false
    {
      var opens := OpensAt(s, i);
    }
  }

  lemma LocatorSpelling(project: string, db: string, docs: string, qp: string)
    ensures "firestore" + "://" + "projects" + ("/" + Join([project, "databases", db, "documents", docs], '/')) + qp
            == "firestore://projects/" + project + "/databases/" + db + "/documents/" + docs + qp
  {
    DocumentsWords(project, db, docs);
    assert "firestore" + "://" + "projects" + "/" == "firestore://projects/";
  }

  lemma DocumentsWords(project: string, db: string, docs: string)
    ensures "/" + Join([project, "databases", db, "documents", docs], '/')
            == "/" + project + "/databases/" + db + "/documents/" + docs
  {
    JoinFive(project, "databases", db, "documents", docs, '/');
    assert "/" + "databases" + "/" == "/databases/";
    assert "/" + "documents" + "/" == "/documents/";
  }

  lemma FirestoreValid()
    ensures ValidScheme("firestore")
  {
    assert IsLetter('f');
  }

  /** The `name_field` query is the escaped key alone, and holds no `%28`
      when the key holds no `(`. */
  lemma NameQueryWritten(keyName: string, rawQuery: string)
    ensures var key := KeyField(keyName, Get(ParseQuery(rawQuery), "name_field"));
      && NameQuery(keyName, rawQuery) == "name_field=" + QueryEscape(key)
      && ('(' !in key ==> NoOpenEscape(NameQuery(keyName, rawQuery)))
  {
    var key := KeyField(keyName, Get(ParseQuery(rawQuery), "name_field"));
    EncodeOne("name_field", key);
    NameFieldVerbatim();
    NameFieldSpelling(QueryEscape(key));
    if '(' !in key {
      EscapeOpenFree(key);
      PrefixOpenFree("name_field=", QueryEscape(key));
    }
  }

  lemma NameFieldSpelling(e: string)
    ensures "name_field" + "=" + e == "name_field=" + e
    ensures '%' !in "name_field="
  {
    assert forall i :: 0 <= i < |"name_field="| ==> "name_field="[i] != '%';
  }

  lemma NameFieldVerbatim()
    ensures QueryEscape("name_field") == "name_field"
  {
    var k := "name_field";
    assert forall i :: 0 <= i < |k| ==> 'a' <= k[i] <= 'z' || k[i] == '_';
    NameVerbatim(k);
  }

  /** Re-reading a written `name_field` query finds the same key. */
  lemma NameSettled(o: Option, rawQuery: string)
    ensures var q := NameQuery(o.keyName, rawQuery);
      && KeyField(o.keyName, Get(ParseQuery(q), "name_field")) == KeyField(o.keyName, Get(ParseQuery(rawQuery), "name_field"))
      && NameQuery(o.keyName, q) == q
  {
    NameQueryRule(o.keyName, rawQuery);
    KeyFieldRule(o.keyName, Get(ParseQuery(rawQuery), "name_field"));
  }

}
