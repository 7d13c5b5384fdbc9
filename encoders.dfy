/** src/encoder.rs: the two encoders behind the `Encoder` trait, and the factory
    that picks one by name. */
module Encoders {
  import opened Errors
  import opened Values
  import opened Libraries
  import Schemas

  /** `Box<dyn Encoder>`: an Avro encoder bound to a schema, or the pass-through one. */
  datatype Encoder = AvroEncoder(schema: Schema) | PickleEncoder

  const UnknownEncoder: string := "Unknown encoder name: "
  const PickleTakesNoSchema: string := "assertion failed: schema.is_none()"

  /** `AvroEncoder::new`: only a JSON schema that parses to a record makes an encoder. */
  function NewAvroEncoder(libs: Libs, schema: Json): (r: Result<Encoder>)
    ensures r.Ok? <==> Schemas.JsonToAvroSchema(libs, schema).Ok?
    ensures r.Ok? ==> r.value.AvroEncoder? && r.value.schema.SRecord?
                      && libs.parseSchema(schema) == Ok(r.value.schema)
    ensures !r.Ok? ==> r.Panic?
  {
    var parsed := Schemas.JsonToAvroSchema(libs, schema);
    if parsed.Ok? then Ok(AvroEncoder(parsed.value)) else Panic(parsed.message)
  }

  /** The record `pack` builds from `datum`: one pair per declared field name, holding
      the datum's value for that name, or `Null` when the datum has none. */
  function Filled(names: seq<string>, datum: Decoded): (r: seq<(string, Value)>)
    ensures |r| == |names|
    ensures forall i :: 0 <= i < |names| ==>
      r[i] == (names[i], if names[i] in datum then datum[names[i]] else Null)
  {
    if names == [] then []
    else [(names[0], if names[0] in datum then datum[names[0]] else Null)] + Filled(names[1..], datum)
  }

  /** What `pack` returns. The Avro encoder writes a container holding the one
      record built from the datum if the writer accepts it, and no record if it
      does not (the result of `append` is discarded). The pass-through encoder
      returns no bytes. */
  function PackSpec(libs: Libs, encoder: Encoder, datum: Decoded): Result<bytes>
  {
    match encoder
    case PickleEncoder => Ok([])
    case AvroEncoder(schema) =>
      if !schema.SRecord? then Panic(UnwrapNone)
      else
        var record := Record(Filled(FieldNames(schema.fields), datum));
        libs.writeContainer(schema, if libs.accepts(schema, record) then [record] else [])
  }

  /** `Encoder::pack`. For Avro: a record from the schema, one `put` per entry of
      the datum in whatever order the map yields them, one `append`, then `into_inner`. */
  method Pack(libs: Libs, encoder: Encoder, datum: Decoded) returns (r: Result<bytes>)
    ensures r == PackSpec(libs, encoder, datum)
  {
    match encoder
    case PickleEncoder =>
      r := Ok([]);
    case AvroEncoder(schema) =>
      var created := NewRecord(schema);
      if created.None? {
        return Panic(UnwrapNone);
      }
      var fields := created.value;
      var names := FieldNames(schema.fields);
      FilledNothing(names);
      var pending := datum.Keys;
      while pending != {}
        invariant pending <= datum.Keys
        invariant fields == Filled(names, Without(datum, pending))
        decreases pending
      {
        var k :| k in pending;
        PutFilled(names, Without(datum, pending), k, datum[k]);
        assert Without(datum, pending)[k := datum[k]] == Without(datum, pending - {k});
        fields := Put(fields, k, datum[k]);
        pending := pending - {k};
      }
      assert Without(datum, {}) == datum;
      var record := Record(fields);
      var appended := if libs.accepts(schema, record) then [record] else [];
      r := libs.writeContainer(schema, appended);
  }

  /** The entries of `datum` whose key is not in `keys`. */
  function Without(datum: Decoded, keys: set<string>): (r: Decoded)
    ensures forall k :: k in r <==> k in datum && k !in keys
    ensures forall k :: k in r ==> r[k] == datum[k]
  {
    map k | k in datum && k !in keys :: datum[k]
  }

  /** A new record is the record filled from an empty datum. */
  lemma {:induction false} FilledNothing(names: seq<string>)
    ensures Nulls(names) == Filled(names, map[])
  {
    var l, r := Nulls(names), Filled(names, map[]);
    assert |l| == |r|;
    forall i | 0 <= i < |l| ensures l[i] == r[i] { }
  }

  /** One `put` adds one entry to the datum the record is filled from. */
  lemma {:induction false} PutFilled(names: seq<string>, datum: Decoded, k: string, v: Value)
    ensures Put(Filled(names, datum), k, v) == Filled(names, datum[k := v])
  {
    var l, r := Put(Filled(names, datum), k, v), Filled(names, datum[k := v]);
    assert |l| == |r|;
    forall i | 0 <= i < |l| ensures l[i] == r[i] { }
  }

  /** The pass-through encoder packs every datum to no bytes, without error. */
  lemma {:induction false} PicklePackIsEmpty(libs: Libs, datum: Decoded)
    ensures PackSpec(libs, PickleEncoder, datum) == Ok([])
  {
  }

  /** An Avro encoder on a record schema writes exactly one datum per call: the
      record of the schema's fields, with the datum's values where it has them
      and `Null` elsewhere (names the schema does not declare are dropped). */
  lemma {:induction false} AvroPackOneRecord(libs: Libs, schema: Schema, datum: Decoded)
    requires schema.SRecord?
    requires libs.accepts(schema, Record(Filled(FieldNames(schema.fields), datum)))
    ensures var record := Record(Filled(FieldNames(schema.fields), datum));
      && PackSpec(libs, AvroEncoder(schema), datum) == libs.writeContainer(schema, [record])
      && |record.fields| == |schema.fields|
      && forall i :: 0 <= i < |schema.fields| ==>
           record.fields[i].0 == schema.fields[i].name
           && (schema.fields[i].name in datum ==> record.fields[i].1 == datum[schema.fields[i].name])
           && (schema.fields[i].name !in datum ==> record.fields[i].1 == Null)
  {
  }

  /** A record the writer rejects is silently not written: `pack` still returns the
      container, with no record in it, unless `into_inner` fails. */
  lemma {:induction false} AvroPackRejected(libs: Libs, schema: Schema, datum: Decoded)
    requires schema.SRecord?
    requires !libs.accepts(schema, Record(Filled(FieldNames(schema.fields), datum)))
    ensures PackSpec(libs, AvroEncoder(schema), datum) == libs.writeContainer(schema, [])
  {
  }

  /** `create_encoder`: dispatch on the lower-cased name. Avro needs a schema
      (`schema.unwrap()`), pass-through must have none, any other name panics. */
  function CreateEncoder(libs: Libs, name: string, schema: Option<Json>): Result<Encoder>
  {
    var n := Lower(name);
    if n == "avro" then
      if schema.None? then Panic(UnwrapNone) else NewAvroEncoder(libs, schema.value)
    else if n == "pickle" then
      if schema.Some? then Panic(PickleTakesNoSchema) else Ok(PickleEncoder)
    else Panic(UnknownEncoder + name)
  }

  /** The factory succeeds exactly for "avro" (any case) with a schema that parses
      to a record, and "pickle" (any case) without a schema; every failure is a panic. */
  lemma {:induction false} CreateEncoderSucceeds(libs: Libs, name: string, schema: Option<Json>)
    ensures var r := CreateEncoder(libs, name, schema);
      && (r.Ok? <==>
            (Lower(name) == "avro" && schema.Some? && Schemas.JsonToAvroSchema(libs, schema.value).Ok?)
            || (Lower(name) == "pickle" && schema.None?))
      && (r.Ok? && r.value.AvroEncoder? ==> r.value.schema.SRecord? && Lower(name) == "avro")
      && (r.Ok? && r.value.PickleEncoder? ==> Lower(name) == "pickle")
      && (!r.Ok? ==> r.Panic?)
  {
  }

  /** The named failures: no schema for Avro, a schema for pass-through, an unknown name. */
  lemma {:induction false} CreateEncoderFailures(libs: Libs, name: string, schema: Option<Json>)
    ensures Lower(name) == "avro" && schema.None? ==> CreateEncoder(libs, name, schema) == Panic(UnwrapNone)
    ensures Lower(name) == "pickle" && schema.Some? ==> CreateEncoder(libs, name, schema) == Panic(PickleTakesNoSchema)
    ensures Lower(name) != "avro" && Lower(name) != "pickle" ==>
      CreateEncoder(libs, name, schema) == Panic(UnknownEncoder + name)
  {
  }

  /** Names that lower-case alike select the same encoder. */
  lemma {:induction false} CreateEncoderIgnoresCase(libs: Libs, a: string, b: string, schema: Option<Json>)
    requires Lower(a) == Lower(b)
    ensures CreateEncoder(libs, a, schema).Ok? ==> CreateEncoder(libs, b, schema) == CreateEncoder(libs, a, schema)
  {
  }

  /** "AVRO" and "avro" select the same codec. */
  lemma {:induction false} CreateEncoderUpperCase(libs: Libs, schema: Json)
    ensures CreateEncoder(libs, "AVRO", Some(schema)) == CreateEncoder(libs, "avro", Some(schema))
  {
    LowerIs("AVRO", "avro");
    LowerIs("avro", "avro");
  }

  /** An unknown name is refused with the name in the message. */
  lemma {:induction false} CreateEncoderUnknown(libs: Libs)
    ensures CreateEncoder(libs, "unknown", None) == Panic("Unknown encoder name: unknown")
  {
    LowerIs("unknown", "unknown");
  }

  /** "Pickle" without a schema is the pass-through encoder. */
  lemma {:induction false} CreateEncoderPickle(libs: Libs)
    ensures CreateEncoder(libs, "Pickle", None) == Ok(PickleEncoder)
  {
    LowerIs("Pickle", "pickle");
  }

  /** Lower-casing checked character by character. */
  lemma {:induction false} LowerIs(s: string, t: string)
    requires |s| == |t| && forall i :: 0 <= i < |s| ==> LowerChar(s[i]) == t[i]
    ensures Lower(s) == t
  {
  }
}
