/** The library code the crate calls but does not contain. serde_json's text
    form and apache_avro's schema parser, container writer and container reader
    are parameters (`Libs`); what the model relies on about them is stated by the
    predicates at the end, which lemmas take as `requires` at the points they use.
    apache_avro's `Record` builder is small and is modelled directly. */
module Libraries {
  import opened Errors
  import opened Values

  datatype Libs = Libs(
    /** `serde_json::Value`'s `to_string`: the JSON text of a value. */
    jsonText: Json -> string,
    /** `serde_json::from_str` into a `serde_json::Value`; `None` when the text is not JSON. */
    parseJson: string -> Option<Json>,
    /** `serde_json::to_string(&Schema)`: the canonical JSON text of an Avro schema. */
    schemaText: Schema -> string,
    /** `apache_avro::Schema::parse`. */
    parseSchema: Json -> Result<Schema>,
    /** Whether `Writer::append` accepts a value, i.e. it validates against the schema. */
    accepts: (Schema, Value) -> bool,
    /** `Writer::into_inner` after the accepted values were appended: the object container bytes. */
    writeContainer: (Schema, seq<Value>) -> Result<bytes>,
    /** `Reader::new` over the bytes, then every item its iterator yields. */
    readContainer: bytes -> Result<seq<Result<Value>>>
  )

  /** `serde_json::from_str::<Option<serde_json::Value>>`: JSON `null` reads as `None`;
      the outer `None` is a parse error. */
  function ParseOptionalJson(libs: Libs, text: string): (r: Option<Option<Json>>)
    ensures r.None? <==> libs.parseJson(text).None?
    ensures r == Some(None) <==> libs.parseJson(text) == Some(JNull)
    ensures r.Some? && r.value.Some? ==> libs.parseJson(text) == Some(r.value.value) && r.value.value != JNull
  {
    match libs.parseJson(text)
    case None => None
    case Some(j) => if j == JNull then Some(None) else Some(Some(j))
  }

  /** `Record::new`: for a record schema, one (name, `Null`) pair per declared field,
      in declared order; `None` for every other schema. */
  function NewRecord(schema: Schema): (r: Option<seq<(string, Value)>>)
    ensures r.Some? <==> schema.SRecord?
    ensures r.Some? ==> |r.value| == |schema.fields|
    ensures r.Some? ==> forall i :: 0 <= i < |r.value| ==> r.value[i] == (schema.fields[i].name, Null)
  {
    if schema.SRecord? then Some(Nulls(FieldNames(schema.fields))) else None
  }

  /** One (name, `Null`) pair per name. */
  function Nulls(names: seq<string>): (r: seq<(string, Value)>)
    ensures |r| == |names|
    ensures forall i :: 0 <= i < |names| ==> r[i] == (names[i], Null)
  {
    if names == [] then [] else [(names[0], Null)] + Nulls(names[1..])
  }

  /** `Record::put`: the value of the field named `key` becomes `v`; a name the
      schema does not declare is ignored. */
  function Put(fields: seq<(string, Value)>, key: string, v: Value): (r: seq<(string, Value)>)
    ensures |r| == |fields|
    ensures forall i :: 0 <= i < |fields| ==> r[i].0 == fields[i].0
    ensures forall i :: 0 <= i < |fields| ==> r[i].1 == if fields[i].0 == key then v else fields[i].1
  {
    if fields == [] then []
    else [if fields[0].0 == key then (key, v) else fields[0]] + Put(fields[1..], key, v)
  }

  /** Every value, read back without error. */
  function AllRead(vs: seq<Value>): (r: seq<Result<Value>>)
    ensures |r| == |vs|
    ensures forall i :: 0 <= i < |vs| ==> r[i] == Ok(vs[i])
  {
    if vs == [] then [] else [Ok(vs[0])] + AllRead(vs[1..])
  }

  /** serde_json reads back the text it writes for `j`. */
  predicate JsonRoundTrips(libs: Libs, j: Json)
  {
    libs.parseJson(libs.jsonText(j)) == Some(j)
  }

  /** serde_json reads the text it writes for `schema` as JSON that apache_avro
      parses back to `schema`. */
  predicate SchemaTextRoundTrips(libs: Libs, schema: Schema)
  {
    && libs.parseJson(libs.schemaText(schema)).Some?
    && libs.parseSchema(libs.parseJson(libs.schemaText(schema)).value) == Ok(schema)
  }

  /** The empty string is not a JSON document. */
  predicate EmptyIsNotJson(libs: Libs)
  {
    libs.parseJson("") == None
  }

  /** A container written from `vs` under `schema` reads back as exactly `vs`:
      the reader's side of the Avro object container format. */
  predicate ContainerRoundTrips(libs: Libs, schema: Schema, vs: seq<Value>)
  {
    libs.writeContainer(schema, vs).Ok? ==>
      libs.readContainer(libs.writeContainer(schema, vs).value) == Ok(AllRead(vs))
  }
}
