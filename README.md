# gocloudurls in Dafny

A model of the core of gocloudurls, a small Go library that normalises locator URLs for Go
Cloud Development Kit drivers, together with proofs about that model. It covers:

- **Document stores** (`NormalizeDocStoreURL` in docstore.go). These are memstore,
  Firestore, DynamoDB and MongoDB. The collection, key name, partition key and file options
  are folded into the single URL that the store's driver opens.
- **Publish/subscribe** (`NormalizePubSubURL` in pubsub.go). AWS SNS ARNs, `awssns:///`
  locators, SQS endpoints and `gcppubsub://` shorthands are turned into their full form,
  with a `region` taken from the ARN or the host when one is missing.
- **Blobs** (`normalizeBlobURL` in blob.go). A bare `mem` becomes `mem:`. Any other bare
  name becomes a `file://` locator. An S3 bucket without a region gets the region of the
  first `AWS_REGION=` entry of the environment list.
- **DynamoDB table schemas** (dynamohelper.go). A struct type and a DynamoDB locator give
  the table's partition and sort key fields, with their attribute types. The
  `aws dynamodb create-table` argument list is built from them.

The project is split into modules along the structure of the program:

| file | module | what it holds |
|---|---|---|
| results.dfy | `Results` | the `Result` and `Option` types (Go's `(value, error)` pairs and nil pointers) |
| strings.dfy | `Strings` | `strings.HasPrefix`, `Cut`, `Split`, `Join`, `Replace(…, 1)`, and byte-wise ordering |
| paths.dfy | `Paths` | `path.Join` of a rooted list, with `path.Clean`'s dropping of empty and `.` segments and popping on `..` |
| hosts.dfy | `Hosts` | the host rules of url.Parse and URL.String: the port check, percent-decoding with its `invalid URL escape` errors, and the escaping URL.String applies to a host |
| query.dfy | `Query` | `url.Values`, `url.QueryEscape` and `url.QueryUnescape`, `URL.Query` (which decodes), `Values.Get` and `Values.Encode` (which sorts by key and escapes) |
| urls.dfy | `Urls` | a `Url` record of the `url.URL` fields the library touches (`url.Parse`, `URL.String`, `URL.EscapedPath`), and a `URL` class for the object the rewriters change in place |
| docstore.dfy | `DocStore` | the four document-store rewriters and the dispatcher |
| pubsub.dfy | `PubSub` | the AWS and GCP publish/subscribe rewriters and the dispatcher |
| blob.dfy | `Blob` | the blob normaliser |
| dynamohelper.dfy | `DynamoHelper` | type detection, the schema record and its create-table command |

Each Go function that changes a `*url.URL` or a struct field by field is modelled twice:

- As a **method** on the `URL` or `DynamoDBSchema` class. It assigns the fields in the
  same order as the Go code, and its loops carry invariants.
- As a **function** on values, which says what the result is.

Each method's `ensures` ties it to the function. The lemmas then prove the promised
properties about the function: error cases, which parameter wins, round trips and
idempotence.

Go's reflection (`reflect.Type`, struct tags) is replaced by explicit values:

- `GoType` is a kind and a type name, possibly under pointers.
- `StructField` is a name, an optional `docstore` tag and a type.
- `Entity` is the pointer handed to `NewDynamoDBSchema`.

Where the code and its own documentation disagree, the model follows the code:

- The usage examples at docstore.go:38-62 call `NormalizePubSubURL`, but they describe
  `NormalizeDocStoreURL`.
- `NormalizeBlobURL` (blob.go:17-19) ignores its `environ` argument and reads
  `os.Environ()`. The model is `normalizeBlobURL`, which takes the list as a parameter.
- The memstore test at docstore_test.go:153 calls `normalizeMemstore` with three arguments,
  but the code takes five. The model follows the code's five parameters.
- The GCP test "too long" at pubsub_test.go:97-100 has no source string. It therefore tests
  the empty string, which fails because it has no host (pubsub.go:69-70), not because its
  path is too long.

## Model

| member | source | states |
|---|---|---|
| DocStore.NormalizeDocStore | docstore.go:63-83 | running url.Parse and then the rewriter for the scheme on the parsed url.URL returns exactly `NormalizeDocStoreURL(srcUrl, opts)`; a missing option is the zero Option |
| DocStore.DocStoreSchemes | docstore.go:68-82 | a parse error is passed on; any scheme other than mem, firestore, dynamodb and mongo gives `Unknown scheme of docstore: '<scheme>'`; success implies a parsed URL with one of the four schemes |
| DocStore.DocStoreControl | docstore.go:68-71 | a source holding a control byte (below 0x20, or DEL) is refused by url.Parse with `net/url: invalid control character in URL`, whatever the options |
| DocStore.KeyFieldRule | docstore.go:143-149 | the key parameter is the key name when one is given, else the existing value, else `_id`; it is never empty, and recomputing it from itself changes nothing |
| DocStore.NormalizeMemstore | docstore.go:94-115 | the method returns the written memstore URL and leaves the url.URL in the rewritten state, or unchanged on the error |
| DocStore.MemstoreCollection | docstore.go:95-100 | memstore fails exactly when neither option nor host names a collection, with the `opt.Collection is required` message; otherwise the host is the option's collection if given, else the source host |
| DocStore.MemstorePath | docstore.go:101-105 | the path becomes the key name; without a key name an empty path becomes `_id` and any other path stays; scheme and opaque part are untouched |
| DocStore.MemstoreQueryRule | docstore.go:106-112 | the source parameters are kept, `filename` and `revision_field` are set exactly when given, and nothing else is added |
| DocStore.MemstoreParameters | docstore.go:106-113 | the query written back parses to exactly those parameters |
| DocStore.MemstoreQueryTwice | docstore.go:106-112 | setting the file and revision parameters twice is the same as once |
| DocStore.MemstoreIdempotent | docstore.go:94-115 | on the `Url` value: the memstore rewriter applied to its own result with the same options returns it unchanged, whatever the options |
| DocStore.MemstoreStringIdempotent | docstore.go:94-115 | on strings, through NormalizeDocStoreURL: a `mem://…` source that normalises gives a string that normalises to itself with the same options, when the collection option is a host that reads back as URL.String writes it and the key name holds no `?` and no control byte; the file and revision options may be anything |
| DocStore.MemstoreShaped | docstore.go:94-115 | the memstore result, for such options, is a URL whose written form url.Parse reads back field for field |
| DocStore.MemstoreReread | docstore.go:94-115 | the memstore rewriter, given what url.Parse reads from its written result, succeeds and writes the same string |
| DocStore.EscapeDefault | docstore.go:152 | URL.String writes `(default)` as `%28default%29`, the text the rewriter replaces |
| DocStore.RestoreDefaultPath | docstore.go:152 | for a host without `%` that URL.String writes as it is, and no RawPath hint, putting back the first `%28default%29` gives `scheme://host`, the path exactly as built, and the query |
| DocStore.FirestoreFold | docstore.go:127-132 | with no host both Firestore forms fail with the `doesn't have project information` message on the written URL; otherwise a host other than `projects` is folded into the path and both forms act as on the folded URL |
| DocStore.FoldProjectSegments | docstore.go:129-131 | folding puts the project host in front of the plain path segments under host `projects` |
| DocStore.DocumentsPathPlain | docstore.go:136-138 | the documents path of plain segments is `/<prj>/databases/<db>/documents/<docs>` |
| DocStore.DocumentsSplit | docstore.go:133 | strings.Split of such a path gives the empty piece before the root and the five segments |
| DocStore.FirestoreInnerSegments | docstore.go:133-141 | without a collection option a folded path of 3 or 5 segments is accepted and nothing else is; 3 segments give project, database and collection; of 5, the 1st, 3rd and 5th are used; the query is `name_field` alone |
| DocStore.FirestoreOuterSegments | docstore.go:163-175 | with a collection option 1 to 4 segments are accepted: 1 uses `(default)` as database, 2 use the second, 3 or 4 use the third; the collection is always the option; more segments are an error |
| DocStore.FirestoreDefaultDatabase | docstore.go:155-187 | `firestore://<project>` with a collection gives `firestore://projects/<project>/databases/(default)/documents/<collection>?name_field=<key>` with `(default)` unescaped and the key as QueryEscape writes it |
| DocStore.NameQueryRule | docstore.go:142-150 | the fresh query holds `name_field` alone, with the key rule's value, and rebuilding it from itself changes nothing |
| DocStore.NameField | docstore.go:142-150 | the method computes the same raw query as the function |
| DocStore.NormalizeFirestoreWithInner | docstore.go:125-153 | the re-parse and field updates return exactly the inner form's restored string |
| DocStore.NormalizeFirestoreWithOuter | docstore.go:155-187 | the re-parse and field updates return exactly the outer form's restored string |
| DocStore.FirestoreInnerIdempotent | docstore.go:125-153 | on the `Url` value: with host `projects` and a path of 3 or 5 plain segments the inner form succeeds, and accepts its own result unchanged |
| DocStore.FirestoreOuterSettled | docstore.go:155-187 | on the `Url` value: with 1 to 4 plain segments and a plain collection the outer form succeeds, and its result is accepted unchanged by the inner form |
| DocStore.DocumentsSettled | docstore.go:133-150 | a documents path of plain segments with a `name_field` query is a fixed point of the inner form |
| DocStore.FirestoreInnerStringIdempotent | docstore.go:117-153 | on strings, through NormalizeDocStoreURL: without a collection option, a source whose folded path has 3 or 5 plain segments gives `firestore://projects/<project>/databases/<db>/documents/<last>?name_field=<key escaped>`, and that string normalises to itself with the same options; the segments hold no `?`, `%`, `(` or `)` unless the database is `(default)`, and the key holds no `(` |
| DocStore.FirestoreOuterString | docstore.go:117-187 | on strings: with a collection option, 1 to 4 such segments give the locator with the option as its collection; that string normalises to itself without the option, and with the same option it is refused with the `Firestroe URL should be …` message naming it, since it now has five segments; the collection option holds no control byte and the key no `(` |
| DocStore.FoldedNoControl | docstore.go:126-133 | the segments of a parsed source's folded path hold no control byte, since url.Parse refused any |
| DocStore.FoldedInner | docstore.go:125-153 | the inner form on a URL whose folded path has 3 or 5 segments writes the locator of the first segment, the database and the last segment, with the `name_field` query |
| DocStore.FoldedOuter | docstore.go:155-187 | the outer form on a URL whose folded path has 1 to 4 segments writes the locator of the first segment, the database the segment count picks and the option's collection |
| DocStore.LocatorNormal | docstore.go:117-187 | a locator `firestore://projects/<p>/databases/<d>/documents/<c>?<q>` holding a control byte is refused with url.Parse's control-character error; any other normalises without a collection option to itself with `name_field` as its only parameter, and with a collection option is refused with the outer form's message naming it as it is |
| DocStore.LocatorFirestore | docstore.go:117-187 | the same two outcomes for the parsed locator, on the `Url` value |
| DocStore.LocatorParse | docstore.go:68 | url.Parse refuses a locator holding a control byte; of any other it gives host `projects`, the documents path and the query, and keeps the path as written (RawPath) only for the `(default)` database |
| DocStore.LocatorPath | docstore.go:126 | the documents path of locator segments needs no decoding; it is written as it is unless its database is `(default)`, whose escaped form is `%28default%29`, and its RawPath hint is exactly that case |
| DocStore.LocatorRender | docstore.go:152 | URL.String writes a `projects` URL on such a path as `firestore://projects`, the escaped path and the query; the path is written as it is when the database needs no escaping or RawPath holds it, and then the text is the locator |
| DocStore.LocatorWritten | docstore.go:152 | URL.String followed by putting back the first `%28default%29` gives the locator text, whichever spelling of the path was written, when the query holds no `%28` |
| DocStore.LocatorNoDefault | docstore.go:152 | a locator whose path holds no `%` and whose query holds no `%28` has no `%28default%29` for strings.Replace to find |
| DocStore.NameQueryWritten | docstore.go:142-150 | the `name_field` query is `name_field=` and the key rule's value as QueryEscape writes it; it holds no `%28` when that value holds no `(` |
| DocStore.NameSettled | docstore.go:142-150 | re-reading a written `name_field` query finds the same key, and rebuilding the query from it changes nothing |
| DocStore.NormalizeDynamo | docstore.go:189-227 | the method returns the written DynamoDB URL and leaves the url.URL rewritten, or unchanged on the error |
| DocStore.DynamoTable | docstore.go:190-196 | DynamoDB fails exactly when neither host nor option names a table; otherwise the scheme is `dynamodb` and the option wins over the host |
| DocStore.DynamoKeysRule | docstore.go:198-224 | cases on the source keys `pk`, `sk` and the options: `pk` and `sk` both set → `partition_key` = the partition key option or `pk`, `sort_key` = the key name or `sk`; `pk` alone → `partition_key` = the key name or `pk`, no sort key; no `pk`, a partition key option → `partition_key` = that option, `sort_key` = the key name or `_id`; no `pk`, no option → `partition_key` = the key name or `_id`, no sort key; a sort key is set exactly in the first and third cases |
| DocStore.DynamoKeysShape | docstore.go:197-224 | there is always a non-empty partition key and at most a non-empty sort key besides |
| DocStore.DynamoKeysIdempotent | docstore.go:197-225 | applying the key rules to their own output changes nothing |
| DocStore.DynamoIdempotent | docstore.go:189-227 | on the `Url` value: the DynamoDB rewriter applied to its own result with the same options returns it unchanged, whatever the options |
| DocStore.DynamoStringIdempotent | docstore.go:189-227 | on strings, through NormalizeDocStoreURL: a `dynamodb://…` source that normalises gives a string that normalises to itself with the same options, when the collection option is a host that reads back as written; the key options may be anything |
| DocStore.DynamoWellFormed | docstore.go:189-227 | for such a collection option, and key options without a control byte, the DynamoDB rewriter keeps a parsed URL well formed |
| DocStore.NormalizeMongo | docstore.go:229-250 | the method, with its re-parse, returns exactly the written MongoDB URL |
| DocStore.MongoRule | docstore.go:230-239 | MongoDB fails exactly when there is no host, with the hostname message, or when the path is `/` and there is no collection; the host and scheme are kept and an empty path becomes the collection |
| DocStore.MongoParameters | docstore.go:240-248 | the query is `id_field` alone, by the key rule; every other source parameter is dropped |
| DocStore.MongoIdempotent | docstore.go:229-250 | on the `Url` value: the MongoDB rewriter applied to its own result with the same options returns it unchanged, whatever the options |
| DocStore.MongoStringIdempotent | docstore.go:229-250 | on strings, through NormalizeDocStoreURL: a `mongo:` source that normalises gives a string that normalises to itself with the same options, when the collection option holds no `?` and no control byte; the key name may be anything |
| DocStore.MongoShaped | docstore.go:229-250 | for such options the MongoDB result is a URL whose written form url.Parse reads back field for field |
| DocStore.MongoReread | docstore.go:229-250 | for such options the MongoDB rewriter accepts what url.Parse reads from its written result and changes nothing in it |
| DocStore.IdField | docstore.go:240-248 | the method builds the `id_field` query of the key rule from the url.URL's own query, as the function states it |
| DocStore.MongoSlashPath | docstore.go:233-239 | a path `/` with a collection option keeps `/`: the option fills only an empty path |
| PubSub.NormalizePubSub | pubsub.go:11-18 | the dispatcher method returns exactly `NormalizePubSubURL(srcUrl)` |
| PubSub.PubSubRoutes | pubsub.go:11-25 | a `gcppubsub://` source is not an AWS one; a source that is neither is returned as is; an `awssqs://` source that does not wrap `https://` is returned as is |
| PubSub.PubSubControl | pubsub.go:11-84 | an `awssns:///`, SQS or `gcppubsub://` source holding a control byte is refused with url.Parse's control-character error |
| PubSub.NormalizeAWSPubSub | pubsub.go:27-60 | the method returns exactly the AWS rewriter's result |
| PubSub.AWSBranches | pubsub.go:27-58 | the ARN, `awssns:///` and SQS prefixes exclude each other, so each branch is taken exactly for its own prefix |
| PubSub.SqsHttpsIsSqs | pubsub.go:22 | an `awssqs://https://` source is an `awssqs://` one |
| PubSub.SnsOnly | pubsub.go:28-31 | an `awssns:///` locator is neither an ARN nor an SQS source |
| PubSub.ArnLocator | pubsub.go:28-30 | a bare ARN becomes `awssns:///<arn>?region=<4th : field>`, the field appended as it is, not escaped; without a control byte, and with a field QueryEscape leaves as it is, that locator's query reads back as that region and the locator is settled; with a control byte, the ARN branch (which never parses) still rewrites it, and normalising the locator again is url.Parse's control-character error |
| PubSub.SnsParse | pubsub.go:32 | url.Parse refuses an `awssns:///` locator holding a control byte; every other parses, with no host and the text before `?` as its path |
| PubSub.SnsRender | pubsub.go:42 | URL.String writes such a URL back as the prefix, the path and the query |
| PubSub.SnsRegion | pubsub.go:31-42 | an `awssns:///` locator parses exactly when it holds no control byte, and is otherwise the control-character error; with a region it is returned exactly as it came; without one its query is replaced by `region` set to its 5th `:` field |
| PubSub.SnsSettled | pubsub.go:31-42 | an `awssns:///` locator with a region is a fixed point, unless its topic or query holds a control byte, which is url.Parse's error |
| PubSub.SnsIdempotent | pubsub.go:31-42 | on `awssns:///` locators the rewriter is idempotent, whatever the copied region |
| PubSub.SqsOnly | pubsub.go:43 | an `awssqs://` locator is neither an SNS locator nor an ARN nor a bare endpoint |
| PubSub.EndpointOnly | pubsub.go:43 | a bare `https://sqs.` endpoint is neither an SNS locator nor an ARN nor an `awssqs://https://` one |
| PubSub.SqsStrip | pubsub.go:44-46 | a leading `awssqs://` before an SQS endpoint changes neither whether the panic-free precondition holds nor the result |
| PubSub.SqsEndpointWrapped | pubsub.go:44-46 | the same, stated from the bare endpoint |
| PubSub.EndpointParse | pubsub.go:47 | `https://sqs.<host><path>?<query>`, for a host read and written as it is spelt, is an SQS source; it parses to that host, path and query when neither path nor query holds a control byte, and is url.Parse's control-character error otherwise |
| PubSub.HostLabels | pubsub.go:52-54 | a host `sqs.<rest>` has at least two `.` labels, so the region index exists |
| PubSub.EndpointRoute | pubsub.go:47-57 | a bare endpoint becomes `awssqs://` plus its URL, with `region` set to the second host label when it had none |
| PubSub.SqsEndpointRegion | pubsub.go:47-57 | for a host read and written as it is spelt, an endpoint with a region gets only the `awssqs://` prefix; without one its query is replaced by `region=<second host label>`; a control byte in the path or query is url.Parse's error |
| PubSub.EndpointRender | pubsub.go:57 | URL.String writes the endpoint back as it was spelt when its host needs no escaping |
| PubSub.SqsSettled | pubsub.go:43-57 | an SQS locator whose endpoint carries a region is a fixed point |
| PubSub.SqsIdempotent | pubsub.go:43-57 | on SQS sources the rewriter is idempotent, whatever the copied region |
| PubSub.NormalizeGCPPubSub | pubsub.go:62-84 | the method returns exactly the GCP rewriter's result |
| PubSub.GcpParse | pubsub.go:63 | what url.Parse reads from `gcppubsub://<host><path>?<query>`: the host decoded, the path decoded with its RawPath hint, and the query; a control byte in the path or the query is the control-character error |
| PubSub.GcpNoTopic | pubsub.go:69-78 | for any host url.Parse accepts, without a `/` after the project there is no topic: the `should have project and topic names` error, or url.Parse's control-character error when the query holds a control byte |
| PubSub.GcpFull | pubsub.go:71-74 | a full form with four path pieces is returned as it is |
| PubSub.GcpAsIs | pubsub.go:71-74 | `gcppubsub://projects/<project>/topics/<topic>` is returned as it is, unless project, topic or query holds a control byte, which is url.Parse's error |
| PubSub.EmptyTopicOutput | pubsub.go:71-73 | `gcppubsub://projects/<project>/topics` has three pieces and is the no-topic error, or url.Parse's control-character error when the project holds a control byte |
| PubSub.GcpPath | pubsub.go:79 | the shorthand's new path is `/<project>/topics/<topic>` and splits into four pieces |
| PubSub.GcpRewriteParses | pubsub.go:79-81 | the rewritten URL parses back with host `projects` and the new path |
| PubSub.GcpEscapedPath | pubsub.go:81 | the old RawPath hint is not reused, so the new path is written escaped |
| PubSub.GcpRender | pubsub.go:81 | URL.String of a `gcppubsub` URL with a host is the prefix, the host as URL.String escapes it, the escaped path and the query |
| PubSub.GcpShorthand | pubsub.go:75-83 | for a project read and written as it is spelt, `gcppubsub://<project>/<topic>` becomes `gcppubsub://projects/<project>/topics/<topic>`, keeping the query, and that result is settled; a control byte in the topic or query is url.Parse's error |
| PubSub.GcpEmptyTopic | pubsub.go:75-83 | for such a project, `gcppubsub://<project>/` is rewritten to `…/topics`, which fails when normalised again |
| PubSub.GcpSettled | pubsub.go:62-84 | the GCP rewriter is idempotent when the shorthand's project and topic are plain path segments |
| Blob.NormalizeBlob | blob.go:21-54 | url.Parse, the field updates on the url.URL and the environment loop return exactly `BlobURL(srcUrl, environ)` |
| Blob.BlobControl | blob.go:22-25 | a source holding a control byte is refused with url.Parse's control-character error, whatever the environment |
| Blob.RewriteCases | blob.go:26-52 | cases: no scheme and path `mem` → scheme `mem`, empty path; no scheme, any other path → scheme `file`, that path as host, empty path; a scheme other than `s3`, or `s3` with a `region` → unchanged; `s3` without a region, an environment region → the query becomes `region=<it>`; `s3` without either → the `doesn't have region query` error on the written URL |
| Blob.FillRegion | blob.go:38-47 | the loop finds a region exactly when some entry starts with `AWS_REGION=`, and then replaces the whole query by `region=<value>`; otherwise the url.URL is unchanged |
| Blob.EnvRegionFirst | blob.go:39-47 | there is no region exactly when no entry has the prefix; otherwise it is the rest of the first entry that has it |
| Blob.BlobMem | blob.go:28-30 | `mem`, `mem://` and `mem:` all give `mem:` |
| Blob.BlobFile | blob.go:31-35 | any other bare name `p` (no `:`, `/` or `?`) gives `file://` and `p` written as URL.String escapes a host, or url.Parse's control-character error when `p` holds a control byte; when that host reads back as `p`, the result is returned unchanged |
| Blob.BlobRootedPath | blob.go:21-35 | a rooted bare path `/name` gives `file://%2Fname`, and normalising that again fails with url.Parse's `invalid URL escape "%2F"` error, so the normaliser is not idempotent there |
| Blob.BlobBucket | blob.go:36-53 | `scheme://bucket?query` is kept for every scheme but S3, and for S3 when the query has a region, with the bucket as url.Parse decodes it and URL.String writes it back; a control byte in the query is url.Parse's error |
| Blob.BlobS3Env | blob.go:37-47 | an S3 bucket without a region gives `s3://<bucket as written back>?region=<value as QueryEscape writes it>`; the other parameters are dropped; a control byte in the query is url.Parse's error |
| Blob.BlobS3NoEnv | blob.go:48-50 | with no region and no `AWS_REGION=` entry the result is the error naming the written URL, or url.Parse's control-character error when the query holds a control byte |
| Blob.BlobIdempotent | blob.go:21-54 | normalising a blob result again gives the same result, whatever the environment region, when a scheme-less name other than `mem` is a host that reads back as written |
| Blob.SchemelessSettled | blob.go:26-35 | on the `Url` value: a scheme-less source is rewritten, and what url.Parse reads from the written result is rewritten to itself and written the same |
| DynamoHelper.DetectDynamoType | dynamohelper.go:142-155 | type detection never returns an error |
| DynamoHelper.DetectPointer | dynamohelper.go:143-145 | one pointer level is looked through |
| DynamoHelper.DetectPointerPointer | dynamohelper.go:143-154 | a pointer to a pointer is `-`, because the kind after one step is `Ptr` |
| DynamoHelper.DetectByName | dynamohelper.go:146-150 | `time.Time` is `S` and `[]uint8` is `B`, whatever the kind |
| DynamoHelper.DetectByKind | dynamohelper.go:151-172 | any other type goes by kind, in both directions: `S` exactly for strings, `BOOL` exactly for booleans, `N` exactly for the twelve integer and float kinds, `-` exactly for the rest |
| DynamoHelper.DetectExamples | dynamohelper_test.go:49-83 | time.Time, a pointer to it, int, string and []byte give S, S, N, S and B |
| DynamoHelper.FieldNameRule | dynamohelper.go:111-118 | a tag starting with `-` hides the field; any other tag names it by its text before the first `,`; an untagged field goes by its Go name |
| DynamoHelper.FillKeyFields | dynamohelper.go:108-138 | the loop over the fields leaves the collection and sets the key fields to those of the field-by-field rule |
| DynamoHelper.KeyFieldsReference | dynamohelper.go:108-138 | the loop's result is the last field named like the partition key, and the last field named like the sort key unless both keys are equal |
| DynamoHelper.LastNamedRule | dynamohelper.go:119-137 | no key field exactly when no field goes by the name; otherwise a field goes by it, no later one does, and its detected type is used |
| DynamoHelper.EmptyNameSortKey | dynamohelper.go:111-137 | a tag that is empty or starts with `,` names the field `""`, so with no sort key parameter it becomes the sort key field |
| DynamoHelper.DynamoDBSchema.constructor | dynamohelper.go:104-106 | a new schema has the collection and no key fields |
| DynamoHelper.NewDynamoDBSchema | dynamohelper.go:84-140 | the method succeeds exactly when `SchemaOf` does, and then returns a fresh schema holding its value, or else its error |
| DynamoHelper.SchemaErrors | dynamohelper.go:85-100 | a non-struct entity gives the `should be struct` error with its type; normalisation errors are passed on; a normalised locator with another scheme gives the `only support dynamodb` error |
| DynamoHelper.SchemaOfDynamo | dynamohelper.go:90-138 | for a `dynamodb:` locator the schema exists exactly when there is a host (the table), with the key fields of the normalised `partition_key` and `sort_key` |
| DynamoHelper.SchemaOfPartitionKey | dynamohelper.go:84-140 | `dynamodb://<table>?partition_key=<key>` gives the table as url.Parse decodes it, the last field named as the key decodes by QueryUnescape (`_id` when that is empty or the escape is malformed, since the pair is then dropped), and as sort key the last field named `""`; a key holding a control byte is url.Parse's error |
| DynamoHelper.PartitionQuery | dynamohelper.go:101 | `partition_key=<key>` reads as `partition_key` set to the decoded key, or as no parameter when the key's escape is malformed |
| DynamoHelper.SchemaOfPlusKey | dynamohelper.go:101-118 | `dynamodb://tasks?partition_key=a+b` picks the field named `a b`: the `+` is read as a space |
| DynamoHelper.ExampleSchema | dynamohelper_test.go:16-27 | the test struct with `dynamodb://tasks?partition_key=name` gives table `tasks`, partition key `name` of type `S` and no sort key |
| DynamoHelper.DynamoDBSchema.CreateTableCommand | dynamohelper.go:38-75 | the method returns exactly the create-table argument list of the schema and the first option |
| DynamoHelper.CapacitiesRule | dynamohelper.go:39-48 | only the first option counts; each zero capacity becomes 5 and any other value, negative ones too, is kept |
| DynamoHelper.TableCommandShape | dynamohelper.go:49-74 | the argument list has 11 elements without a sort key and 13 with one, the fixed prefix, attribute definitions, HASH and RANGE key schemas in place, and the throughput last |
| DynamoHelper.Digits | dynamohelper.go:73 | `%d` of a natural number is a non-empty string of digits |
| DynamoHelper.DigitsRoundTrip | dynamohelper.go:73 | the digits read back as the number |
| DynamoHelper.DecimalRoundTrip | dynamohelper.go:73 | `%d` of any int reads back as it, and holds no `,` |
| DynamoHelper.ThroughputRoundTrip | dynamohelper.go:71-73 | the `ReadCapacityUnits=…,WriteCapacityUnits=…` argument reads back as the capacities it was written from |
| DynamoHelper.ExampleCommand | dynamohelper_test.go:28-33 | the test schema's command is the eleven expected strings with 5 and 5 capacities |
| Urls.ParseURL | docstore.go:68-71 | the parse method succeeds exactly when `Parse` does, and then allocates a url.URL holding its value |
| Urls.ParseWellFormed | docstore.go:68 | whatever url.Parse returns is well formed |
| Urls.ParsedQueryNoControl | docstore.go:68 | the query url.Parse returns holds no control byte |
| Urls.PathNoControl | docstore.go:68 | a path whose escaped form holds no control byte holds none |
| Urls.UnescapeNoControl | docstore.go:68 | decoding a path makes no control byte |
| Urls.EscapeNoControl | docstore.go:114 | escaping a path writes no control byte where there was none |
| Urls.RenderParseWellFormed | docstore.go:126 | a well-formed URL survives URL.String and url.Parse unchanged, so the ignored re-parse error never happens |
| Urls.Reparse | docstore.go:126 | re-parsing a well-formed url.URL gives a fresh copy with the same fields |
| Urls.UnescapeEscape | docstore.go:152 | decoding the escaped path gives the path back |
| Urls.ParseHierBadHost | docstore.go:68 | url.Parse of `scheme://<authority><path>` fails with the host's own error when the authority is not a valid host |
| Urls.RawPathReread | docstore.go:126 | re-deriving the RawPath hint from the written path changes neither the escaped path nor the written URL |
| Hosts.HostCanonical | docstore.go:126 | whatever host url.Parse returns, URL.String writes so that url.Parse reads the same host back |
| Hosts.UnescapeEscapeHost | docstore.go:126 | decoding what URL.String writes for a decoded host gives that host back |
| Hosts.PortKept | docstore.go:126 | the port check passes again on what URL.String writes for a parsed host |
| Hosts.BracketKept | docstore.go:126 | decoding and re-escaping keep a leading `[` of an IP literal and never make one |
| Hosts.HostEmpty | docstore.go:68 | only the empty host is written as nothing, and only an empty authority reads as an empty host |
| Hosts.DecodableSeparators | docstore.go:68 | text that decodes as a host holds neither `/` nor `?`, nor a control byte |
| Hosts.UnreservedHost | blob.go:33 | a name of letters, digits and `-._~` is read and written as it is spelt |
| Hosts.SlashEscaped | blob.go:53 | URL.String writes a `/` in a host as `%2F` |
| Hosts.LowEscapeRefused | blob.go:22 | url.Parse refuses a host that starts with an escape of an ASCII byte other than `%`, with the `invalid URL escape` error |
| Hosts.VerbatimHostChars | pubsub.go:63 | a host read and written as it is spelt holds neither `/` nor `?`, nor a control byte, and reads back as written |
| Hosts.ParseHostNoControl | docstore.go:68 | a host url.Parse accepts, and its decoded form, hold no control byte |
| Hosts.QuotePlain | blob.go:22 | the quoting of url.Parse's error messages leaves text without `"` or `\` as it is |
| Hosts.BackslashRefused | docstore.go:68 | a `\` in a host is refused, and the message quotes it with a second backslash, as `"\\"` |
| Query.QueryUnescapeEscape | docstore.go:106-113 | QueryUnescape decodes what QueryEscape writes back to the text it was given |
| Query.QueryEscapePlain | docstore.go:113 | text of letters, digits and `-._~` is written by QueryEscape as it is |
| Query.EscapedQueryChars | docstore.go:113 | QueryEscape writes only letters, digits, `-._~`, `+` and `%` (and characters beyond a byte) |
| Query.QueryDecodesHex | docstore.go:106 | URL.Query reads `x=%41` as `x` set to `A` |
| Query.QueryDecodesPlus | dynamohelper.go:101 | URL.Query reads `partition_key=a+b` as `partition_key` set to `a b` |
| Query.QueryDropsMalformed | blob.go:37 | URL.Query drops the pair `region=%zz`, whose escape is malformed, so no `region` is found |
| Query.ParseEncode | docstore.go:106-113 | encoding any parameters and parsing them again gives them back |
| Query.SortedKeysSpec | docstore.go:113 | Encode's key order is strictly increasing and holds every key once |
| Query.EncodeTwo | docstore.go:207-225 | two parameters are written in key order, so `partition_key` comes before `sort_key` |
| Query.RegionQueryRule | pubsub.go:38-40 | the region query is `region=` and the value as QueryEscape writes it, and reads back as the only parameter, whatever the value |
| Query.SingleParameter | pubsub.go:38-40 | one parameter whose name QueryEscape leaves alone is written as `name=<escaped value>` and reads back as itself |
| Query.RegionQueryNoControl | pubsub.go:38-40 | the region query holds no control byte, whatever the value |
| Query.EncodeNoControl | docstore.go:113 | the query Values.Encode writes holds no control byte, whatever the parameters |
| Query.EscapeOpenFree | docstore.go:150-152 | QueryEscape writes `%28` only for a `(`, so a value without `(` is written without it |
| Strings.FindFirst | docstore.go:152 | the position found is an occurrence of the pattern and no earlier position is one, or it is the length when there is none |
| Strings.ReplaceFirstSpec | docstore.go:152 | strings.Replace with count 1 replaces the pattern's characters at that leftmost occurrence, and leaves a string without one unchanged |
| Strings.ReplaceFirstAbsent | docstore.go:152 | a string without the pattern's first character is left unchanged |
| Strings.ReplaceFirstNone | docstore.go:152 | a string in which the pattern occurs nowhere is left unchanged |
| Strings.SplitFirstCut | dynamohelper.go:115 | the first piece of strings.Split is the text before the first separator |
| Strings.SplitJoin | docstore.go:133-138 | splitting pieces joined by a separator they do not contain gives them back |
| Paths.RootedJoinPlain | docstore.go:130 | path.Join of plain segments only puts `/` in between |
| Paths.SplitRootedJoin | docstore.go:133 | strings.Split of a joined path gives the empty piece before the root, then the cleaned segments |
| Paths.RootedJoinIdempotent | docstore.go:130 | joining the result of path.Join again changes nothing |
| Paths.RootedJoinNoControl | docstore.go:130 | path.Join writes no control byte when none of its parts holds one |

## Left out

- I/O: `NormalizeBlobURL`'s call to `os.Environ()` (blob.go:17-19) is left out. The model
  is `normalizeBlobURL`, with the environment list as a parameter.
- `MustNormalizeDocStoreURL` (docstore.go:85-92) is left out: it only turns the error into a
  panic.
- Percent-encoding is only partly modelled:
  - A path is escaped and decoded only for `%`, `(` and `)`. Go's URL.EscapedPath escapes
    every byte except letters, digits, `-._~` and `$&+,/:;=@`. The model writes all the
    others as they are: `?`, `!`, `'`, `*`, `"`, `#`, `<`, `>`, `[`, `]`, `\`, `^`, `` ` ``,
    `{`, `|`, `}`, a space, control bytes and every byte beyond ASCII. A memstore key name
    `a#b`, for example, becomes the path `a#b` in the model, which Go writes as `a%23b`. The
    lemmas that write a path back therefore require it to hold no `?`, and no control byte
    where the path comes from an option. Other escapes in a path stay as text, and url.Parse's
    error on a malformed one there is not modelled.
  - Hosts are decoded and escaped as net/url does, with its `invalid URL escape` errors and
    port check. IPv6 zones (`%25` after `[`) and the validity of an IP literal are not
    modelled.
  - The query is decoded and escaped as net/url does: URL.Query decodes each key and value
    with url.QueryUnescape (`%XX` and `+` for a space) and drops a pair whose escape is
    malformed, and Values.Encode writes them with url.QueryEscape. The error url.ParseQuery
    reports for such a pair is discarded by URL.Query in Go as in the model.
- Control bytes: url.Parse's refusal of a byte below 0x20 or DEL anywhere in its input, with
  `net/url: invalid control character in URL`, is modelled, and comes before every other
  check. Go escapes such a byte when URL.String writes it into a path or a host; the model
  writes it there as it is (Values.Encode escapes it in the model as in Go). Where a lemma
  writes an option into a path or host and parses the result again, it therefore requires
  that option to hold no control byte. A value that came out of url.Parse needs no such
  hypothesis, since it holds none.
- Bytes and characters: a Dafny `char` of the model stands for one byte of a Go string.
  Characters of value 256 or more have no Go counterpart; EscapeHostChar writes them
  unchanged, while every byte from 0x80 to 0xFF is escaped as `%XX`, as Go escapes it.
- Multi-valued query parameters are not modelled. `url.Values` is a map keeping the first
  value for each key.
- Userinfo (`user@`), fragments (`#…`) and `ForceQuery` of `url.URL` are not modelled.
  url.Parse would split them off and URL.String would write them back: Go turns
  `mem://coll#f` into `mem://coll/_id#f`, and keeps the bare `?` of `gs://b?`. In the model a
  `#` or `@` in the authority is refused as an invalid host character, elsewhere it stays
  part of the path or query text, and a bare trailing `?` is dropped. A port stays part of
  the host text.
- `path.Join` is modelled for the rooted joins the library makes.
- Reflection is replaced by explicit `GoType`, `StructField` and `Entity` values:
  - Only pointer entities are modelled: calling `Elem` on a non-pointer value panics in Go
    (dynamohelper.go:85).
  - `Type().String()` of a non-struct is given as the entity's type string.
  - A named `[]byte` type has kind `Slice`, so the model maps it to `-`, like Go.
- The unsupported-type error branches (dynamohelper.go:120-123, 129-132) are not modelled.
  `DetectDynamoType` never fails, so Go never reaches them.
- DynamoHelper.DynamoDBSchema.CreateTableCommand: requires a partition key field. Go would
  dereference a nil one and panic (dynamohelper.go:59).
- PubSub.NormalizeAWSPubSub: requires `AWSIndexable`, that the `:` and `.` fields it indexes
  exist. Without them pubsub.go:30, 39 and 54 panic.
- PubSub.NormalizePubSub: requires `AWSIndexable` for the same reason.
- DynamoHelper.CapacitiesRule: capacities are unbounded integers; Go's `int` width is not
  modelled.
- PubSub.GcpSettled: idempotence is stated only for plain project and topic segments.
  `GcpEmptyTopic` shows that `gcppubsub://<project>/` is rewritten once and then rejected.
- DynamoHelper.SchemaOfPartitionKey: a locator with only a partition key leaves the sort key
  name `""`. A field whose tag is empty or starts with `,`, and which is not the partition
  key, then becomes the sort key field. `EmptyNameSortKey` states this as it is written.
  The lemma is stated for a key without `&` or `;`, so that the query is that one pair.
- PubSub.ArnLocator: the ARN branch appends the region field unescaped (pubsub.go:30); the
  locator is shown settled only for a field that QueryEscape leaves as it is.
- Blob.BlobIdempotent: requires that a scheme-less name other than `mem` is a host that
  reads back as URL.String writes it. A rooted name such as `/tmp` becomes `file://%2Ftmp`,
  which url.Parse then refuses; `BlobRootedPath` states that case.
- DocStore.MemstoreStringIdempotent: stated for sources with an authority (`mem://…`), a
  collection option that reads back as written, and a key name without `?` or a control
  byte, since the key name becomes the path. An opaque `mem:x` source is not covered.
- DocStore.MemstoreShaped: requires such a collection option and key name, for the same
  reason.
- DocStore.DynamoStringIdempotent: stated for sources with an authority and a collection
  option that reads back as written.
- DocStore.DynamoWellFormed: requires such a collection option.
- DocStore.MongoStringIdempotent: stated for a collection option without `?` or a control
  byte, since it becomes the path.
- DocStore.MongoShaped: requires such a collection option.
- DocStore.MongoReread: requires the same.
- DocStore.FirestoreInnerStringIdempotent: stated for segments without `?`, `%`, `(` and `)`
  (the database may be `(default)`), a source RawPath without `%` and a key without `(`.
  strings.Replace (docstore.go:152) works on the whole written URL, and Values.Encode writes
  a `(` as `%28`; a key holding `(default)` could thus have its escaped form replaced when
  the path does not hold it. That case is not stated.
- DocStore.FirestoreOuterString: stated under the same conditions, and for a collection
  option without a control byte. Its result is settled only without the collection option;
  with the same option Go refuses it.
- DocStore.MemstoreIdempotent: speaks of the `Url` value; `MemstoreStringIdempotent` states
  it on strings.
- DocStore.DynamoIdempotent: speaks of the `Url` value; `DynamoStringIdempotent` states it on
  strings.
- DocStore.MongoIdempotent: speaks of the `Url` value; `MongoStringIdempotent` states it on
  strings.
- DocStore.FirestoreInnerIdempotent: speaks of the `Url` value;
  `FirestoreInnerStringIdempotent` states it on strings.
- DocStore.FirestoreOuterSettled: speaks of the `Url` value; `FirestoreOuterString` states it
  on strings.
- PubSub.EndpointParse: requires a host that url.Parse reads as it is spelt and URL.String
  writes back as it is.
- PubSub.SqsEndpointRegion: requires such a host, for the same reason.
- PubSub.GcpShorthand: requires such a project host, for the same reason.
- PubSub.GcpEmptyTopic: requires such a project host, for the same reason.
- Error wrapping: Go's url.Parse returns a `*url.Error`, which prints as
  `parse "<source>": <message>`. The model's url.Parse returns the message alone, and the
  normalisers pass it on as Go passes on the error. So where Go's blob normaliser returns
  `parse "file://%2Fname": invalid URL escape "%2F"` (the second step of `BlobRootedPath`),
  the model's result is `invalid URL escape "%2F"`. The same holds for
  the control-character, `invalid character … in host name`, port and `missing protocol
  scheme` errors. The literal messages of the library itself are exact.
- Hosts.Quote: strconv.Quote is modelled by putting a backslash before `"` and `\`. Its
  `\x..` escape for a byte that is not part of valid UTF-8 is not modelled, so an
  `invalid URL escape` message quoting a byte beyond ASCII differs from Go's. Control
  bytes never reach a quoted message, since url.Parse refuses them first.
- Concurrency is not modelled.
