/** The data the crate passes around: bytes, JSON values (`serde_json::Value`),
    Avro values (`apache_avro::types::Value`) and Avro schemas
    (`apache_avro::Schema`), and the two aliases of src/schema.rs. */
module Values {
  import opened Errors

  type byte = x: int | 0 <= x < 256
  /** `Encoded` (src/schema.rs): an opaque byte buffer produced by a codec. */
  type bytes = seq<byte>

  type int32 = x: int | -0x8000_0000 <= x < 0x8000_0000
  type int64 = x: int | -0x8000_0000_0000_0000 <= x < 0x8000_0000_0000_0000

  /** A JSON document. Numbers are kept as integers; fractional numbers are
      not distinguished. An object is a map from member name to value. */
  datatype Json =
    | JNull
    | JBool(b: bool)
    | JNumber(n: int)
    | JString(s: string)
    | JArray(items: seq<Json>)
    | JObject(members: map<string, Json>)

  /** `serde_json::Value::get` with a string key: only objects have members. */
  function Get(j: Json, key: string): (r: Option<Json>)
    ensures r.Some? <==> j.JObject? && key in j.members
    ensures r.Some? ==> r.value == j.members[key]
  {
    match j
    case JObject(m) => if key in m then Some(m[key]) else None
    case _ => None
  }

  /** `serde_json::Value::as_str`: the text of a JSON string, nothing otherwise. */
  function AsStr(j: Json): (r: Option<string>)
    ensures r.Some? <==> j.JString?
    ensures r.Some? ==> r.value == j.s
  {
    if j.JString? then Some(j.s) else None
  }

  /** An Avro value. The payloads of `Float` and `Double` are opaque bit patterns;
      a `Record` is an ordered sequence of (field name, value) pairs. */
  datatype Value =
    | Null
    | Boolean(b: bool)
    | Int(i: int32)
    | Long(l: int64)
    | Float(fbits: bv32)
    | Double(dbits: bv64)
    | Bytes(data: bytes)
    | String(text: string)
    | Array(elements: seq<Value>)
    | Record(fields: seq<(string, Value)>)

  /** `Decoded` (src/schema.rs): one logical record, field name to value. */
  type Decoded = map<string, Value>

  /** The name of a named Avro type: its simple name and optional namespace. */
  datatype Name = Name(name: string, namespace: Option<string>)

  datatype Field = Field(name: string, schema: Schema)

  /** An Avro schema. The kinds the crate never inspects (enum, fixed, map,
      union and the logical types) are one opaque variant. */
  datatype Schema =
    | SNull
    | SBoolean
    | SInt
    | SLong
    | SFloat
    | SDouble
    | SBytes
    | SString
    | SArray(items: Schema)
    | SRecord(name: Name, fields: seq<Field>)
    | SOther(kind: string)

  /** The names of a record schema's fields, in declared order. */
  function FieldNames(fields: seq<Field>): (names: seq<string>)
    ensures |names| == |fields|
    ensures forall i :: 0 <= i < |fields| ==> names[i] == fields[i].name
  {
    if fields == [] then [] else [fields[0].name] + FieldNames(fields[1..])
  }

  /** No two fields of a record share a name (Avro requires this of a record schema). */
  predicate DistinctNames(names: seq<string>)
  {
    forall i, j :: 0 <= i < j < |names| ==> names[i] != names[j]
  }

  /** `str::to_lowercase` on ASCII letters; every other character is kept. */
  function Lower(s: string): (r: string)
    ensures |r| == |s|
    ensures forall i :: 0 <= i < |s| ==> r[i] == LowerChar(s[i])
  {
    if s == [] then [] else [LowerChar(s[0])] + Lower(s[1..])
  }

  function LowerChar(c: char): char
  {
    if 'A' <= c <= 'Z' then (c as int - 'A' as int + 'a' as int) as char else c
  }
}
