// The DynamoDB schema helper: NewDynamoDBSchema reads the table name and
// the key parameter names from a normalised `dynamodb://` locator and picks
// the partition-key and sort-key fields of the entity's struct;
// CreateTableCommand writes the `aws dynamodb create-table` argument list for
// that schema; detectDynamoType gives a field's DynamoDB attribute type.
//
// Go's reflection is replaced by values: a struct is the list of its fields
// (Go name, `docstore` tag if present, type), and a type is its reflect kind
// and its reflect String, or a pointer to another type.
module DynamoHelper {
  import opened Results
  import opened Strings
  import opened Query
  import opened Urls
  import opened Hosts
  import DocStore

  // ------------------------------------------------------------------ types

  /** reflect.Kind; reflect.Ptr is the Pointer constructor of GoType. */
  datatype Kind =
    | Invalid | Bool | Int | Int8 | Int16 | Int32 | Int64
    | Uint | Uint8 | Uint16 | Uint32 | Uint64 | Uintptr
    | Float32 | Float64 | Complex64 | Complex128
    | Array | Chan | Func | Interface | Map | Slice | String | Struct | UnsafePointer

  /** A reflect.Type: a pointer to another type, or a type of some other kind
      with the name reflect's String gives it (`time.Time`, `[]uint8`, `int`). */
  datatype GoType = Pointer(elem: GoType) | Named(kind: Kind, str: string)

  /** reflect.Type.String. */
  function TypeString(t: GoType): string {
    match t
    case Pointer(e) => "*" + TypeString(e)
    case Named(_, s) => s
  }

  /** typeMap: the DynamoDB attribute type of each kind it lists. */
  const TypeMap: map<Kind, string> := map[
    String := "S", Bool := "BOOL",
    Int := "N", Int8 := "N", Int16 := "N", Int32 := "N", Int64 := "N",
    Uint := "N", Uint8 := "N", Uint16 := "N", Uint32 := "N", Uint64 := "N",
    Float32 := "N", Float64 := "N"]

  /** The kinds typeMap sends to `N`. */
  predicate Numeric(k: Kind) {
    k in {Int, Int8, Int16, Int32, Int64, Uint, Uint8, Uint16, Uint32, Uint64, Float32, Float64}
  }

  /** detectDynamoType: drop one pointer level, then `time.Time` and
      `[]uint8` by name, then the kind through typeMap, and `-` for any
      other kind. It has an error result but never uses it. */
  function DetectDynamoType(t: GoType): (r: Result<string>)
    ensures r.Ok?
  {
    var b := if t.Pointer? then t.elem else t;
    if TypeString(b) == "time.Time" then Ok("S")
    else if TypeString(b) == "[]uint8" then Ok("B")
    else if b.Named? && b.kind in TypeMap then Ok(TypeMap[b.kind])
    else Ok("-")
  }

  // ----------------------------------------------------------------- schema

  /** Field: a key attribute's name and DynamoDB type. */
  datatype Field = Field(name: string, typ: string)

  /** SchemaOption: the provisioned read and write capacity. */
  datatype SchemaOption = SchemaOption(readCapacityUnits: int, writeCapacityUnits: int)

  /** A struct field as reflection shows it: its Go name, the value of its
      `docstore` tag when it has one, and its type. */
  datatype StructField = StructField(name: string, tag: Option<string>, typ: GoType)

  /** What NewDynamoDBSchema is given as the collection entity: a pointer to
      a struct with these fields, or a pointer to a value of another kind,
      with the String of the pointer's type. */
  datatype Entity = StructPointer(fields: seq<StructField>) | OtherPointer(typeString: string)

  /** DynamoDBSchema as a value. */
  datatype Schema = Schema(collection: string, partitionKeyField: Option<Field>, sortKeyField: Option<Field>)

  /** DynamoDBSchema, whose key fields NewDynamoDBSchema assigns as it walks
      the struct's fields. */
  class DynamoDBSchema {
    var collection: string
    var partitionKeyField: Option<Field>
    var sortKeyField: Option<Field>

    constructor (collection: string)
      ensures Value() == Schema(collection, None, None)
    {
      this.collection := collection;
      partitionKeyField := None;
      sortKeyField := None;
    }

    function Value(): Schema
      reads this
    {
      Schema(collection, partitionKeyField, sortKeyField)
    }

    /** CreateTableCommand. A schema without a partition key field would
        make the source dereference nil. */
    method CreateTableCommand(opt: seq<SchemaOption>) returns (result: seq<string>)
      requires partitionKeyField.Some?
      ensures result == TableCommand(Value(), opt)
    {
      var o := SchemaOption(0, 0);
      if |opt| > 0 {
        o := opt[0];
      }
      if o.readCapacityUnits == 0 {
        o := o.(readCapacityUnits := 5);
      }
      if o.writeCapacityUnits == 0 {
        o := o.(writeCapacityUnits := 5);
      }
      var pk := partitionKeyField.value;
      result := ["aws", "dynamodb", "create-table", "--table-name", collection];
      if sortKeyField.Some? {
        var sk := sortKeyField.value;
        result := result + ["--attribute-definitions", AttributeDefinition(pk), AttributeDefinition(sk),
                            "--key-schema", KeySchema(pk, "HASH"), KeySchema(sk, "RANGE")];
      } else {
        result := result + ["--attribute-definitions", AttributeDefinition(pk),
                            "--key-schema", KeySchema(pk, "HASH")];
      }
      result := result + ["--provisioned-throughput", Throughput(o)];
      assert o == Capacities(opt);
    }
  }

  // ----------------------------------------------------- the create-table list

  /** The capacities CreateTableCommand uses: the first option if any, with
      each zero replaced by 5. */
  function Capacities(opt: seq<SchemaOption>): SchemaOption {
    var o := if |opt| > 0 then opt[0] else SchemaOption(0, 0);
    SchemaOption(if o.readCapacityUnits == 0 then 5 else o.readCapacityUnits,
                 if o.writeCapacityUnits == 0 then 5 else o.writeCapacityUnits)
  }

  function AttributeDefinition(f: Field): string {
    "AttributeName=" + f.name + ",AttributeType=" + f.typ
  }

  function KeySchema(f: Field, keyType: string): string {
    "AttributeName=" + f.name + ",KeyType=" + keyType
  }

  const ReadPrefix := "ReadCapacityUnits="
  const WritePrefix := "WriteCapacityUnits="

  function Throughput(o: SchemaOption): string {
    ReadPrefix + Decimal(o.readCapacityUnits) + "," + WritePrefix + Decimal(o.writeCapacityUnits)
  }

  /** The argument list CreateTableCommand returns for a schema. */
  function TableCommand(s: Schema, opt: seq<SchemaOption>): seq<string>
    requires s.partitionKeyField.Some?
  {
    var pk := s.partitionKeyField.value;
    var keys := match s.sortKeyField
      case Some(sk) =>
        ["--attribute-definitions", AttributeDefinition(pk), AttributeDefinition(sk),
         "--key-schema", KeySchema(pk, "HASH"), KeySchema(sk, "RANGE")]
      case None =>
        ["--attribute-definitions", AttributeDefinition(pk), "--key-schema", KeySchema(pk, "HASH")];
    ["aws", "dynamodb", "create-table", "--table-name", s.collection]
    + keys + ["--provisioned-throughput", Throughput(Capacities(opt))]
  }

  // ------------------------------------------------------------- decimals

  /** The digit character of 0..9. */
  function DigitChar(d: nat): char
    requires d < 10
  {
    "0123456789"[d]
  }

  /** The value of a digit character, and 0 for anything else. */
  function DigitValue(c: char): nat {
    if '0' <= c <= '9' then c as int - '0' as int else 0
  }

  /** fmt's `%d` of a natural number. */
  function Digits(n: nat): (s: string)
    ensures |s| >= 1 && forall i :: 0 <= i < |s| ==> '0' <= s[i] <= '9'
  {
    if n < 10 then [DigitChar(n)] else Digits(n / 10) + [DigitChar(n % 10)]
  }

  /** fmt's `%d` of an int: a `-` in front of a negative number. */
  function Decimal(n: int): string {
    if n < 0 then "-" + Digits(-n) else Digits(n)
  }

  /** The number a string of digits writes. */
  function ParseDigits(s: string): nat {
    if |s| == 0 then 0 else ParseDigits(s[..|s| - 1]) * 10 + DigitValue(s[|s| - 1])
  }

  /** The number a `%d` string writes. */
  function ParseDecimal(s: string): int {
    if |s| > 0 && s[0] == '-' then -(ParseDigits(s[1..]) as int) else ParseDigits(s)
  }

  /** The `ReadCapacityUnits=r,WriteCapacityUnits=w` argument read back. */
  function ParseThroughput(s: string): Option<SchemaOption> {
    if !HasPrefix(s, ReadPrefix) then None
    else
      var (r, w, found) := Cut(s[|ReadPrefix|..], ',');
      if !found || !HasPrefix(w, WritePrefix) then None
      else Some(SchemaOption(ParseDecimal(r), ParseDecimal(w[|WritePrefix|..])))
  }

  // --------------------------------------------------------- key fields

  /** The name a struct field goes by: none for a tag starting with `-`,
      the text before the first `,` of a tag, or else the Go field name. */
  function FieldName(f: StructField): Option<string> {
    match f.tag
    case Some(tag) => if HasPrefix(tag, "-") then None else Some(Split(tag, ',')[0])
    case None => Some(f.name)
  }

  /** One turn of NewDynamoDBSchema's loop over the fields: a field named
      like the partition key becomes the partition key field, else one named
      like the sort key becomes the sort key field. */
  function Step(keys: (Option<Field>, Option<Field>), f: StructField, partitionKey: string, sortKey: string)
    : (Option<Field>, Option<Field>)
  {
    match FieldName(f)
    case None => keys
    case Some(n) =>
      if partitionKey == n then (Some(Field(n, DetectDynamoType(f.typ).value)), keys.1)
      else if sortKey == n then (keys.0, Some(Field(n, DetectDynamoType(f.typ).value)))
      else keys
  }

  /** The key fields after the loop has seen `fields`. */
  function KeyFields(fields: seq<StructField>, partitionKey: string, sortKey: string): (Option<Field>, Option<Field>)
  {
    if |fields| == 0 then (None, None)
    else Step(KeyFields(fields[..|fields| - 1], partitionKey, sortKey), fields[|fields| - 1], partitionKey, sortKey)
  }

  /** The reference: the last field that goes by `name`, typed. */
  function LastNamed(fields: seq<StructField>, name: string): Option<Field>
  {
    if |fields| == 0 then None
    else if FieldName(fields[|fields| - 1]) == Some(name) then
      Some(Field(name, DetectDynamoType(fields[|fields| - 1].typ).value))
    else LastNamed(fields[..|fields| - 1], name)
  }

  const NotStruct := "collectionEntity should be struct interface or its pointer but: "
  const OnlyDynamo := "Now NewDynamoDBSchema only support dynamodb: scheme, but "

  /** NewDynamoDBSchema: the schema it returns. */
  function SchemaOf(entity: Entity, urlString: string): Result<Schema>
  {
    match entity
    case OtherPointer(ts) => Err(NotStruct + ts)
    case StructPointer(fields) =>
      var sanitized :- DocStore.NormalizeDocStoreURL(urlString, []);
      SchemaOfNormalized(fields, sanitized)
  }

  /** The part of NewDynamoDBSchema after the locator is normalised. */
  function SchemaOfNormalized(fields: seq<StructField>, sanitized: string): Result<Schema>
  {
    var u :- Parse(sanitized);
    if u.scheme != "dynamodb" then Err(OnlyDynamo + u.scheme)
    else
      var q := ParseQuery(u.rawQuery);
      var keys := KeyFields(fields, Get(q, "partition_key"), Get(q, "sort_key"));
      Ok(Schema(u.host, keys.0, keys.1))
  }

  method NewDynamoDBSchema(entity: Entity, urlString: string) returns (r: Result<DynamoDBSchema>)
    ensures r.Ok? <==> SchemaOf(entity, urlString).Ok?
    ensures r.Ok? ==> fresh(r.value) && r.value.Value() == SchemaOf(entity, urlString).value
    ensures r.Err? ==> r.error == SchemaOf(entity, urlString).error
  {
    if entity.OtherPointer? {
      return Err(NotStruct + entity.typeString);
    }
    var fields := entity.fields;
    var sanitizedUrl := DocStore.NormalizeDocStore(urlString, []);
    if sanitizedUrl.Err? {
      return Err(sanitizedUrl.error);
    }
    var parsed := ParseURL(sanitizedUrl.value);
    if parsed.Err? {
      return Err(parsed.error);
    }
    var u := parsed.value;
    if u.scheme != "dynamodb" {
      return Err(OnlyDynamo + u.scheme);
    }
    var partitionKey := Get(u.Query(), "partition_key");
    var sortKey := Get(u.Query(), "sort_key");
    var result := new DynamoDBSchema(u.host);
    FillKeyFields(result, fields, partitionKey, sortKey);
    return Ok(result);
  }

  /** NewDynamoDBSchema's loop over the struct's fields. */
  method FillKeyFields(result: DynamoDBSchema, fields: seq<StructField>, partitionKey: string, sortKey: string)
    requires result.partitionKeyField.None? && result.sortKeyField.None?
    modifies result
    ensures result.Value() == Schema(old(result.collection), KeyFields(fields, partitionKey, sortKey).0,
                                     KeyFields(fields, partitionKey, sortKey).1)
  {
    for i := 0 to |fields|
      invariant result.Value() == Schema(old(result.collection), KeyFields(fields[..i], partitionKey, sortKey).0,
                                         KeyFields(fields[..i], partitionKey, sortKey).1)
    {
      assert fields[..i + 1][..i] == fields[..i];
      var f := fields[i];
      var fieldName: string;
      if f.tag.Some? {
        if HasPrefix(f.tag.value, "-") {
          continue;
        }
        fieldName := Split(f.tag.value, ',')[0];
      } else {
        fieldName := f.name;
      }
      if partitionKey == fieldName {
        var t := DetectDynamoType(f.typ);
        result.partitionKeyField := Some(Field(fieldName, t.value));
      } else if sortKey == fieldName {
        var t := DetectDynamoType(f.typ);
        result.sortKeyField := Some(Field(fieldName, t.value));
      }
    }
    assert fields[..|fields|] == fields;
  }

  // ------------------------------------------------------- detectDynamoType

  /** One pointer level is looked through. */
  lemma DetectPointer(t: GoType)
    requires !t.Pointer?
    ensures DetectDynamoType(Pointer(t)) == DetectDynamoType(t)
  {
  }

  /** A pointer to a pointer has the kind reflect.Ptr after one level is
      dropped, which typeMap does not list. */
  lemma DetectPointerPointer(t: GoType)
    ensures DetectDynamoType(Pointer(Pointer(t))) == Ok("-")
  {
    var s := TypeString(Pointer(t));
    assert s[0] == '*';
    assert s != "time.Time" && s != "[]uint8";
  }

  /** `time.Time` and `[]uint8` go by their names, whatever their kind. */
  lemma DetectByName(k: Kind)
    ensures DetectDynamoType(Named(k, "time.Time")) == Ok("S")
    ensures DetectDynamoType(Named(k, "[]uint8")) == Ok("B")
  {
  }

  /** Every other type goes by its kind: strings are `S`, booleans `BOOL`,
      integers and floats `N`, and any other kind `-`. */
  lemma DetectByKind(k: Kind, name: string)
    requires name != "time.Time" && name != "[]uint8"
    ensures var r := DetectDynamoType(Named(k, name)).value;
      && (r == "S" <==> k == String)
      && (r == "BOOL" <==> k == Bool)
      && (r == "N" <==> Numeric(k))
      && (r == "-" <==> k != String && k != Bool && !Numeric(k))
  {
    if k in TypeMap {
      assert k == String || k == Bool || Numeric(k);
    }
  }

  /** The types of the detectDynamoType tests: time.Time, a pointer to it,
      int, string and []byte. */
  lemma DetectExamples()
    ensures DetectDynamoType(Named(Struct, "time.Time")) == Ok("S")
    ensures DetectDynamoType(Pointer(Named(Struct, "time.Time"))) == Ok("S")
    ensures DetectDynamoType(Named(Int, "int")) == Ok("N")
    ensures DetectDynamoType(Named(String, "string")) == Ok("S")
    ensures DetectDynamoType(Named(Slice, "[]uint8")) == Ok("B")
  {
    DetectByName(Struct);
    DetectByName(Slice);
    DetectByKind(Int, "int");
    DetectByKind(String, "string");
  }

  // ------------------------------------------------------------ key fields

  /** A tag starting with `-` hides the field; any other tag names it by its
      text before the first `,`; an untagged field goes by its Go name. */
  lemma FieldNameRule(f: StructField)
    ensures FieldName(f).None? <==> f.tag.Some? && HasPrefix(f.tag.value, "-")
    ensures f.tag.Some? && !HasPrefix(f.tag.value, "-") ==>
              FieldName(f) == Some(Cut(f.tag.value, ',').0) && ',' !in FieldName(f).value
    ensures f.tag.None? ==> FieldName(f) == Some(f.name)
  {
    if f.tag.Some? {
      SplitFirstCut(f.tag.value, ',');
    }
  }

  /** The loop keeps, as the partition key field, the last field named like
      the partition key and, as the sort key field, the last field named like
      the sort key; a field named like the partition key is never the sort
      key field, so with equal key names there is no sort key field. */
  lemma {:induction false} KeyFieldsReference(fields: seq<StructField>, partitionKey: string, sortKey: string)
    ensures KeyFields(fields, partitionKey, sortKey)
            == (LastNamed(fields, partitionKey), if sortKey == partitionKey then None else LastNamed(fields, sortKey))
  {
    if |fields| > 0 {
      KeyFieldsReference(fields[..|fields| - 1], partitionKey, sortKey);
    }
  }

  /** LastNamed finds nothing exactly when no field goes by the name, and
      otherwise the typed last field that does. */
  lemma LastNamedRule(fields: seq<StructField>, name: string)
    ensures LastNamed(fields, name).None? <==> forall i :: 0 <= i < |fields| ==> FieldName(fields[i]) != Some(name)
    ensures LastNamed(fields, name).Some? ==>
              exists i :: 0 <= i < |fields| && FieldName(fields[i]) == Some(name)
                && LastNamed(fields, name) == Some(Field(name, DetectDynamoType(fields[i].typ).value))
                && forall j :: i < j < |fields| ==> FieldName(fields[j]) != Some(name)
  {
    var i := LastNamedIndex(fields, name);
    if i < |fields| {
      assert FieldName(fields[i]) == Some(name);
    }
  }

  /** The index of the last field that goes by `name`, or |fields|. */
  lemma {:induction false} LastNamedIndex(fields: seq<StructField>, name: string) returns (i: nat)
    ensures i <= |fields|
    ensures i == |fields| ==> LastNamed(fields, name).None? && forall j :: 0 <= j < |fields| ==> FieldName(fields[j]) != Some(name)
    ensures i < |fields| ==> FieldName(fields[i]) == Some(name)
    ensures i < |fields| ==> LastNamed(fields, name) == Some(Field(name, DetectDynamoType(fields[i].typ).value))
    ensures i < |fields| ==> forall j :: i < j < |fields| ==> FieldName(fields[j]) != Some(name)
  {
    if |fields| == 0 {
      return 0;
    }
    var n := |fields| - 1;
    if FieldName(fields[n]) == Some(name) {
      return n;
    }
    var front := fields[..n];
    var k := LastNamedIndex(front, name);
    assert forall j :: 0 <= j < n ==> fields[j] == front[j];
    i := if k == n then |fields| else k;
  }

  /** A field whose tag is empty before its first `,` (`docstore:""` or
      `docstore:",omitempty"`) goes by the empty name, which is also what
      the sort key reads as when the locator has none: such a field becomes
      the sort key field. */
  lemma EmptyNameSortKey(name: string, options: string, t: GoType, partitionKey: string)
    requires partitionKey != "" && !HasPrefix(options, "-")
    ensures var f := StructField(name, Some(options), t);
      (options == "" || options[0] == ',') ==>
        KeyFields([f], partitionKey, "") == (None, Some(Field("", DetectDynamoType(t).value)))
  {
    var f := StructField(name, Some(options), t);
    FieldNameRule(f);
    if options != "" && options[0] == ',' {
      CutUnique(options, ',', "", options[1..]);
    }
    assert [f][..0] == [];
  }

  // ----------------------------------------------------------------- schema

  /** The entity must be a struct, the normalised locator must be a
      `dynamodb:` one, and errors on the way are passed on. */
  lemma SchemaErrors(entity: Entity, urlString: string)
    ensures entity.OtherPointer? ==> SchemaOf(entity, urlString) == Err(NotStruct + entity.typeString)
    ensures entity.StructPointer? && DocStore.NormalizeDocStoreURL(urlString, []).Err? ==>
              SchemaOf(entity, urlString) == Err(DocStore.NormalizeDocStoreURL(urlString, []).error)
    ensures entity.StructPointer? && DocStore.NormalizeDocStoreURL(urlString, []).Ok? ==>
              var sanitized := DocStore.NormalizeDocStoreURL(urlString, []).value;
              Parse(sanitized).Ok? && Parse(sanitized).value.scheme != "dynamodb" ==>
                SchemaOf(entity, urlString) == Err(OnlyDynamo + Parse(sanitized).value.scheme)
  {
  }

  /** For a `dynamodb:` locator with a table name the schema's collection is
      the table, and its key fields are those named by the key parameters
      normalizeDynamo writes: the partition key (`_id` when the locator has
      none) and the sort key, which reads as empty when the locator has
      none. */
  lemma SchemaOfDynamo(fields: seq<StructField>, urlString: string)
    requires Parse(urlString).Ok? && Parse(urlString).value.scheme == "dynamodb"
    ensures var v := Parse(urlString).value;
      SchemaOf(StructPointer(fields), urlString).Ok? <==> v.host != ""
    ensures var v := Parse(urlString).value;
      var q := ParseQuery(v.rawQuery);
      var keys := DocStore.DynamoKeys(Get(q, "partition_key"), Get(q, "sort_key"), "", "");
      var pk, sk := Get(keys, "partition_key"), Get(keys, "sort_key");
      v.host != "" ==>
        SchemaOf(StructPointer(fields), urlString)
        == Ok(Schema(v.host, LastNamed(fields, pk), if sk == pk then None else LastNamed(fields, sk)))
  {
    var v := Parse(urlString).value;
    var q := ParseQuery(v.rawQuery);
    var keys := DocStore.DynamoKeys(Get(q, "partition_key"), Get(q, "sort_key"), "", "");
    assert DocStore.NormalizeDocStoreURL(urlString, []) == DocStore.Written(DocStore.Dynamo(v, "", "", ""));
    DocStore.DynamoTable(v, "", "", "");
    if v.host != "" {
      var w := DocStore.Dynamo(v, "", "", "").value;
      ParseWellFormed(urlString);
      assert w == v.(rawQuery := Encode(keys));
      EncodeNoControl(keys);
      assert WellFormed(w);
      RenderParseWellFormed(w);
      ParseEncode(keys);
      KeyFieldsReference(fields, Get(keys, "partition_key"), Get(keys, "sort_key"));
      assert SchemaOfNormalized(fields, Render(w))
             == Ok(Schema(w.host, KeyFields(fields, Get(keys, "partition_key"), Get(keys, "sort_key")).0,
                          KeyFields(fields, Get(keys, "partition_key"), Get(keys, "sort_key")).1));
    }
  }

  // ------------------------------------------------------ create-table list

  /** The capacities: the first option only, each zero replaced by 5 and
      every other value, negative ones too, kept. */
  lemma CapacitiesRule(opt: seq<SchemaOption>)
    ensures var o := if |opt| > 0 then opt[0] else SchemaOption(0, 0);
      var c := Capacities(opt);
      && c.readCapacityUnits != 0 && c.writeCapacityUnits != 0
      && (o.readCapacityUnits != 0 ==> c.readCapacityUnits == o.readCapacityUnits)
      && (o.readCapacityUnits == 0 ==> c.readCapacityUnits == 5)
      && (o.writeCapacityUnits != 0 ==> c.writeCapacityUnits == o.writeCapacityUnits)
      && (o.writeCapacityUnits == 0 ==> c.writeCapacityUnits == 5)
    ensures |opt| > 0 ==> Capacities(opt) == Capacities(opt[..1])
  {
  }

  /** The command starts with `aws dynamodb create-table --table-name` and
      the collection and ends with the throughput; in between are one
      attribute definition and a HASH key (11 arguments in all) or, with a
      sort key, two definitions and HASH and RANGE keys (13). */
  lemma TableCommandShape(s: Schema, opt: seq<SchemaOption>)
    requires s.partitionKeyField.Some?
    ensures var cmd := TableCommand(s, opt);
      var pk := s.partitionKeyField.value;
      && |cmd| == (if s.sortKeyField.Some? then 13 else 11)
      && cmd[..5] == ["aws", "dynamodb", "create-table", "--table-name", s.collection]
      && cmd[|cmd| - 2..] == ["--provisioned-throughput", Throughput(Capacities(opt))]
      && cmd[5] == "--attribute-definitions" && cmd[6] == AttributeDefinition(pk)
      && (s.sortKeyField.None? ==> cmd[7..9] == ["--key-schema", KeySchema(pk, "HASH")])
      && (s.sortKeyField.Some? ==>
            var sk := s.sortKeyField.value;
            cmd[7..11] == [AttributeDefinition(sk), "--key-schema", KeySchema(pk, "HASH"), KeySchema(sk, "RANGE")])
  {
  }

  /** `%d` written and read back. */
  lemma {:induction false} DigitsRoundTrip(n: nat)
    ensures ParseDigits(Digits(n)) == n
  {
    if n >= 10 {
      DigitsRoundTrip(n / 10);
      var s := Digits(n);
      assert s[..|s| - 1] == Digits(n / 10);
      assert DigitValue(s[|s| - 1]) == n % 10;
    } else {
      assert DigitValue(Digits(n)[0]) == n;
      assert Digits(n)[..0] == [];
    }
  }

  lemma DecimalRoundTrip(n: int)
    ensures ParseDecimal(Decimal(n)) == n
    ensures ',' !in Decimal(n)
  {
    if n < 0 {
      var m: nat := -n;
      assert Decimal(n) == "-" + Digits(m);
      NegativeRoundTrip(m);
    } else {
      assert Decimal(n) == Digits(n);
      NaturalRoundTrip(n);
    }
  }

  lemma NaturalRoundTrip(m: nat)
    ensures ParseDecimal(Digits(m)) == m
    ensures ',' !in Digits(m)
  {
    var d := Digits(m);
    DigitsRoundTrip(m);
    assert d[0] != '-';
  }

  lemma NegativeRoundTrip(m: nat)
    requires m > 0
    ensures ParseDecimal("-" + Digits(m)) == -(m as int)
    ensures ',' !in "-" + Digits(m)
  {
    var d := Digits(m);
    var s := "-" + d;
    DigitsRoundTrip(m);
    assert s[0] == '-' && s[1..] == d;
  }

  /** The throughput argument reads back as the capacities it was written
      from. */
  lemma ThroughputRoundTrip(o: SchemaOption)
    ensures ParseThroughput(Throughput(o)) == Some(o)
  {
    var r, w := Decimal(o.readCapacityUnits), Decimal(o.writeCapacityUnits);
    DecimalRoundTrip(o.readCapacityUnits);
    DecimalRoundTrip(o.writeCapacityUnits);
    var tail := WritePrefix + w;
    var rest := r + "," + tail;
    ThroughputSpelling(ReadPrefix, r, ",", WritePrefix, w);
    assert Throughput(o) == ReadPrefix + rest;
    PrefixOf(ReadPrefix, rest);
    assert rest == r + [','] + tail;
    CutUnique(rest, ',', r, tail);
    PrefixOf(WritePrefix, w);
  }

  lemma ThroughputSpelling(a: string, r: string, c: string, b: string, w: string)
    ensures a + r + c + b + w == a + (r + c + (b + w))
  {
  }

  lemma PrefixOf(a: string, b: string)
    ensures HasPrefix(a + b, a) && (a + b)[|a|..] == b
  {
    assert (a + b)[..|a|] == a;
  }

  /** The field name url.Query reads from the raw `partition_key` value:
      the value decoded, or "" when its escape is malformed and the pair is
      dropped. */
  function DecodedKey(key: string): string {
    match QueryUnescape(key)
    case Some(name) => name
    case None => ""
  }

  /** The locator `dynamodb://table?partition_key=key`: the schema names the
      table, takes as partition key field the last field named as the
      decoded key (`_id` when that is empty or the escape is malformed) and,
      as there is no `sort_key`, the last field with an empty name as sort
      key field. A key with a control byte is refused by url.Parse. */
  lemma SchemaOfPartitionKey(fields: seq<StructField>, table: string, key: string)
    requires table != "" && ParseHost(table).Ok?
    requires '&' !in key && ';' !in key
    ensures NoControl(key) ==>
      var pk := if DecodedKey(key) == "" then "_id" else DecodedKey(key);
      SchemaOf(StructPointer(fields), "dynamodb://" + table + "?partition_key=" + key)
        == Ok(Schema(ParseHost(table).value, LastNamed(fields, pk), LastNamed(fields, "")))
    ensures !NoControl(key) ==>
      SchemaOf(StructPointer(fields), "dynamodb://" + table + "?partition_key=" + key) == Err(ControlError)
  {
    var src := "dynamodb://" + table + "?partition_key=" + key;
    if !NoControl(key) {
      ControlInside("dynamodb://" + table + "?partition_key=", key, "");
      assert src + "" == src;
      SchemaErrors(StructPointer(fields), src);
      return;
    }
    NoControlAppend("partition_key=", key);
    DynamoLocator(table, "partition_key=" + key);
    LocatorSpelling(table, key);
    SchemaOfDynamo(fields, src);
    var q := PartitionQuery(key);
    DistinctKeys();
    assert Get(q, "partition_key") == DecodedKey(key);
    assert Get(q, "sort_key") == "";
  }

  /** What url.Query reads from `partition_key=key`. */
  lemma PartitionQuery(key: string) returns (q: Values)
    requires '&' !in key && ';' !in key
    ensures q == ParseQuery("partition_key=" + key)
    ensures QueryUnescape(key).Some? ==> q == map["partition_key" := DecodedKey(key)]
    ensures QueryUnescape(key).None? ==> q == map[]
  {
    PartitionKeyPlain();
    PartitionSpelling(key);
    q := ParseQuery("partition_key=" + key);
    if QueryUnescape(key).Some? {
      OnePair("partition_key", key, "partition_key", DecodedKey(key));
    } else {
      OneMalformed("partition_key", key);
    }
  }

  /** `+` in the raw key stands for a space: `partition_key=a+b` picks the
      field named `a b`. */
  lemma SchemaOfPlusKey(fields: seq<StructField>)
    ensures SchemaOf(StructPointer(fields), "dynamodb://tasks?partition_key=a+b")
            == Ok(Schema("tasks", LastNamed(fields, "a b"), LastNamed(fields, "")))
  {
    PlusKey();
    TasksHost();
    SchemaOfPartitionKey(fields, "tasks", "a+b");
    PlusLocator();
  }

  lemma PlusKey()
    ensures NoControl("a+b") && '&' !in "a+b" && ';' !in "a+b" && DecodedKey("a+b") == "a b"
  {
    PlusSpace();
    var k := "a+b";
    assert forall i :: 0 <= i < |k| ==> !IsControl(k[i]);
  }

  lemma PlusLocator()
    ensures "dynamodb://" + "tasks" + "?partition_key=" + "a+b" == "dynamodb://tasks?partition_key=a+b"
  {
  }

  lemma PartitionSpelling(key: string)
    ensures "partition_key" + "=" + key == "partition_key=" + key
  {
    assert "partition_key" + "=" == "partition_key=";
  }

  lemma DistinctKeys()
    ensures "sort_key" != "partition_key"
  {
    assert |"sort_key"| != |"partition_key"|;
  }

  /** url.Parse of `dynamodb://table?query`. */
  lemma DynamoLocator(table: string, query: string)
    requires table != "" && ParseHost(table).Ok? && NoControl(query)
    ensures Parse("dynamodb" + "://" + table + "" + QueryPart(query))
            == Ok(Url("dynamodb", "", ParseHost(table).value, Unescape(""), RawPathHint(""), false, query))
    ensures ParseHost(table).value != ""
  {
    HostEmpty(table, "");
    DynamoValid();
    ParseAuthorityString("dynamodb", table, "", query);
  }

  lemma DynamoValid()
    ensures ValidScheme("dynamodb")
  {
    assert IsLetter('d');
  }

  lemma LocatorSpelling(table: string, key: string)
    ensures "dynamodb" + "://" + table + "" + QueryPart("partition_key=" + key)
            == "dynamodb://" + table + "?partition_key=" + key
  {
    var rq := "partition_key=" + key;
    assert QueryPart(rq) == "?" + rq;
    Regroup("dynamodb", "://", table, "?", "partition_key=", key);
    LocatorWords();
  }

  lemma Regroup(a: string, b: string, t: string, c: string, d: string, k: string)
    ensures a + b + t + "" + (c + (d + k)) == (a + b) + t + (c + d) + k
  {
  }

  lemma LocatorWords()
    ensures "dynamodb" + "://" == "dynamodb://" && "?" + "partition_key=" == "?partition_key="
  {
  }

  // ------------------------------------------------------------- example

  /** The struct of the repository's own schema example: `Name` tagged
      `name`, an untagged `Age`, and `Hash` tagged `-`. */
  const ExampleStruct: seq<StructField> := [
    StructField("Name", Some("name"), Named(String, "string")),
    StructField("Age", None, Named(Int, "int")),
    StructField("Hash", Some("-"), Named(String, "string"))
  ]

  /** The example's table `tasks` keyed by `name` has a string partition key
      and no sort key. */
  lemma ExampleSchema()
    ensures SchemaOf(StructPointer(ExampleStruct), "dynamodb://tasks?partition_key=name")
            == Ok(Schema("tasks", Some(Field("name", "S")), None))
  {
    ExampleLocator();
    ExampleArguments();
    PlainUnescape("name");
    TasksHost();
    SchemaOfPartitionKey(ExampleStruct, "tasks", "name");
    ExampleNames();
  }

  lemma TasksHost()
    ensures ParseHost("tasks") == Ok("tasks")
  {
    TasksVerbatim();
  }

  lemma TasksVerbatim()
    ensures VerbatimHost("tasks")
  {
    assert forall i :: 0 <= i < |"tasks"| ==> 'a' <= "tasks"[i] <= 'z';
    LowerHost("tasks");
  }

  lemma ExampleLocator()
    ensures "dynamodb://" + "tasks" + "?partition_key=" + "name" == "dynamodb://tasks?partition_key=name"
  {
  }

  lemma ExampleArguments()
    ensures "tasks" != "" && '/' !in "tasks" && '?' !in "tasks"
    ensures "name" != "" && '&' !in "name" && ';' !in "name" && '%' !in "name" && '+' !in "name"
  {
  }

  lemma ExampleNames()
    ensures LastNamed(ExampleStruct, "name") == Some(Field("name", "S"))
    ensures LastNamed(ExampleStruct, "") == None
  {
    var one, two := ExampleStruct[..1], ExampleStruct[..2];
    assert two[..1] == one && one[..0] == [];
    ExampleFieldNames();
    assert DetectDynamoType(Named(String, "string")) == Ok("S");
    assert LastNamed(one, "name") == Some(Field("name", "S"));
    assert LastNamed(one, "") == None;
  }

  lemma ExampleFieldNames()
    ensures FieldName(ExampleStruct[0]) == Some("name")
    ensures FieldName(ExampleStruct[1]) == Some("Age")
    ensures FieldName(ExampleStruct[2]) == None
  {
    SplitNone("name", ',');
    assert HasPrefix("-", "-");
  }

  /** The example's create-table command with the default capacities. */
  lemma ExampleCommand()
    ensures TableCommand(Schema("tasks", Some(Field("name", "S")), None), [])
            == ["aws", "dynamodb", "create-table", "--table-name", "tasks",
                "--attribute-definitions", "AttributeName=name,AttributeType=S",
                "--key-schema", "AttributeName=name,KeyType=HASH",
                "--provisioned-throughput", "ReadCapacityUnits=5,WriteCapacityUnits=5"]
  {
    ExampleThroughput();
    ExampleKeyWords();
  }

  lemma ExampleKeyWords()
    ensures AttributeDefinition(Field("name", "S")) == "AttributeName=name,AttributeType=S"
    ensures KeySchema(Field("name", "S"), "HASH") == "AttributeName=name,KeyType=HASH"
  {
  }

  lemma ExampleThroughput()
    ensures Throughput(Capacities([])) == "ReadCapacityUnits=5,WriteCapacityUnits=5"
  {
    assert Capacities([]) == SchemaOption(5, 5);
    assert Decimal(5) == "5";
    ExampleThroughputWords();
  }

  lemma ExampleThroughputWords()
    ensures "ReadCapacityUnits=" + "5" + "," + "WriteCapacityUnits=" + "5"
            == "ReadCapacityUnits=5,WriteCapacityUnits=5"
  {
  }
}
