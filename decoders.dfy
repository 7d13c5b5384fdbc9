/** src/decoder.rs: the two decoders behind the `Decoder` trait, and the factory
    that picks one by name.

    The file declares `create_decoder(name)` and an infallible
    `unpack(Vec<u8>) -> Vec<HashMap<..>>`, while every caller uses
    `create_decoder(name, schema)` and `unpack(&bytes) -> FcResult<..>`. The model
    keeps the bodies of the file and the signature of the callers: the schema
    argument is accepted and ignored (`CreateDecoderIgnoresSchema`), and `unpack`
    returns a `Result` that is never `Err` (`UnpackNeverErr`), because every
    failure inside the body is a panic. */
module Decoders {
  import opened Errors
  import opened Values
  import opened Libraries
  import Encoders

  /** `Box<dyn Decoder>`: neither decoder holds any state. */
  datatype Decoder = AvroDecoder | PickleDecoder

  const UnknownDecoder: string := "Unknown decoder name: "
  const UnknownValueType: string := "Unknown value type: "

  /** `create_decoder`: dispatch on the lower-cased name; any other name panics. */
  function CreateDecoder(name: string, schema: Option<Json>): Result<Decoder>
  {
    var n := Lower(name);
    if n == "avro" then Ok(AvroDecoder)
    else if n == "pickle" then Ok(PickleDecoder)
    else Panic(UnknownDecoder + name)
  }

  /** The factory succeeds exactly for "avro" and "pickle" in any case, and refuses
      every other name with a panic that names it. */
  lemma {:induction false} CreateDecoderSucceeds(name: string, schema: Option<Json>)
    ensures CreateDecoder(name, schema) == Ok(AvroDecoder) <==> Lower(name) == "avro"
    ensures CreateDecoder(name, schema) == Ok(PickleDecoder) <==> Lower(name) == "pickle"
    ensures Lower(name) != "avro" && Lower(name) != "pickle" <==>
      CreateDecoder(name, schema) == Panic(UnknownDecoder + name)
  {
  }

  /** The schema the callers pass has no effect on the decoder chosen. */
  lemma {:induction false} CreateDecoderIgnoresSchema(name: string, a: Option<Json>, b: Option<Json>)
    ensures CreateDecoder(name, a) == CreateDecoder(name, b)
  {
  }

  /** Names that lower-case alike select the same decoder. */
  lemma {:induction false} CreateDecoderIgnoresCase(a: string, b: string, schema: Option<Json>)
    requires Lower(a) == Lower(b)
    ensures CreateDecoder(a, schema).Ok? ==> CreateDecoder(b, schema) == CreateDecoder(a, schema)
  {
  }

  /** An unknown name is refused with the name in the message. */
  lemma {:induction false} CreateDecoderUnknown()
    ensures CreateDecoder("unknown", None) == Panic("Unknown decoder name: unknown")
  {
    Encoders.LowerIs("unknown", "unknown");
  }

  /** The map built from a record's (name, value) pairs by inserting them in order. */
  function PairsToMap(pairs: seq<(string, Value)>): Decoded
  {
    if pairs == [] then map[]
    else PairsToMap(pairs[..|pairs| - 1])[pairs[|pairs| - 1].0 := pairs[|pairs| - 1].1]
  }

  /** The map holds every name of the pairs, and nothing else. */
  lemma {:induction false} PairsToMapKeys(pairs: seq<(string, Value)>)
    ensures forall k :: k in PairsToMap(pairs) <==> exists i :: 0 <= i < |pairs| && pairs[i].0 == k
  {
    if pairs != [] {
      var front := pairs[..|pairs| - 1];
      PairsToMapKeys(front);
      assert forall i :: 0 <= i < |front| ==> front[i] == pairs[i];
    }
  }

  /** For each name, the map holds the value of the last pair carrying it: a later
      pair with the same name overrides an earlier one. */
  lemma {:induction false} PairsToMapLastWins(pairs: seq<(string, Value)>, i: int)
    requires 0 <= i < |pairs| && LastWith(pairs, i)
    ensures pairs[i].0 in PairsToMap(pairs) && PairsToMap(pairs)[pairs[i].0] == pairs[i].1
  {
    if i < |pairs| - 1 {
      var front := pairs[..|pairs| - 1];
      assert front[i] == pairs[i];
      assert LastWith(front, i) by {
        forall j | i < j < |front| ensures front[j].0 != front[i].0 {
          assert front[j] == pairs[j];
        }
      }
      PairsToMapLastWins(front, i);
    }
  }

  /** No pair after position `i` carries the name of pair `i`. */
  predicate LastWith(pairs: seq<(string, Value)>, i: int)
    requires 0 <= i < |pairs|
  {
    forall j :: i < j < |pairs| ==> pairs[j].0 != pairs[i].0
  }

  /** The outcome of the reader loop over the items of a container: one map per
      item, or the panic of the first item that is not a record. */
  function ItemsToMaps(items: seq<Result<Value>>): (r: Result<seq<Decoded>>)
    ensures !r.Err?
    ensures r.Ok? <==> forall i :: 0 <= i < |items| ==> items[i].Ok? && items[i].value.Record?
    ensures r.Ok? ==> |r.value| == |items|
    ensures r.Ok? ==> forall i :: 0 <= i < |items| ==> r.value[i] == PairsToMap(items[i].value.fields)
  {
    if items == [] then Ok([])
    else
      match items[0]
      case Ok(v) =>
        if v.Record? then Prefixed([PairsToMap(v.fields)], ItemsToMaps(items[1..]))
        else Panic(UnknownValueType)
      case Err(e) => Panic(e.detail)
      case Panic(message) => Panic(message)
  }

  /** What `unpack` does with a buffer. Avro: open a reader (`unwrap`), then the
      reader loop over its items. Pass-through: one empty map, whatever the bytes. */
  function UnpackSpec(libs: Libs, decoder: Decoder, data: bytes): Result<seq<Decoded>>
  {
    match decoder
    case PickleDecoder => Ok([map[]])
    case AvroDecoder =>
      match libs.readContainer(data)
      case Ok(items) => ItemsToMaps(items)
      case Err(_) => Panic(UnwrapErr)
      case Panic(message) => Panic(message)
  }

  /** `Decoder::unpack`. For Avro: one pass over the reader's items; each record's
      pairs are inserted one by one into a fresh map, which is pushed onto the result. */
  method Unpack(libs: Libs, decoder: Decoder, data: bytes) returns (r: Result<seq<Decoded>>)
    ensures r == UnpackSpec(libs, decoder, data)
  {
    if decoder.PickleDecoder? {
      var empty: Decoded := map[];
      return Ok([empty]);
    }
    var reader := libs.readContainer(data);
    if !reader.Ok? {
      return if reader.Err? then Panic(UnwrapErr) else Panic(reader.message);
    }
    var items := reader.value;
    var ret: seq<Decoded> := [];
    assert items[0..] == items;
    PrefixedNothing(ItemsToMaps(items));
    var i := 0;
    while i < |items|
      invariant 0 <= i <= |items|
      invariant ItemsToMaps(items) == Prefixed(ret, ItemsToMaps(items[i..]))
    {
      assert items[i..][0] == items[i] && items[i..][1..] == items[i + 1..];
      match items[i] {
        case Ok(v) =>
          if !v.Record? {
            return Panic(UnknownValueType);
          }
          var pairs := v.fields;
          var m: Decoded := map[];
          var j := 0;
          while j < |pairs|
            invariant 0 <= j <= |pairs|
            invariant m == PairsToMap(pairs[..j])
          {
            assert pairs[..j + 1][..j] == pairs[..j];
            m := m[pairs[j].0 := pairs[j].1];
            j := j + 1;
          }
          assert pairs[..|pairs|] == pairs;
          PrefixedTwice(ret, [m], ItemsToMaps(items[i + 1..]));
          ret := ret + [m];
        case Err(e) =>
          return Panic(e.detail);
        case Panic(message) =>
          return Panic(message);
      }
      i := i + 1;
    }
    assert items[i..] == [];
    assert ret + [] == ret;
    r := Ok(ret);
  }

  /** `unpack` reports every failure as a panic: the `Result` the callers see is
      never `Err`. */
  lemma {:induction false} UnpackNeverErr(libs: Libs, decoder: Decoder, data: bytes)
    ensures !UnpackSpec(libs, decoder, data).Err?
  {
  }

  /** The Avro decoder returns one map per item the reader yields, in reader order,
      exactly when every item is a record read without error. */
  lemma {:induction false} AvroUnpackOnePerRecord(libs: Libs, data: bytes, items: seq<Result<Value>>)
    requires libs.readContainer(data) == Ok(items)
    ensures var r := UnpackSpec(libs, AvroDecoder, data);
      && (r.Ok? <==> forall i :: 0 <= i < |items| ==> items[i].Ok? && items[i].value.Record?)
      && (r.Ok? ==> |r.value| == |items|
                    && forall i :: 0 <= i < |items| ==> r.value[i] == PairsToMap(items[i].value.fields))
  {
  }

  /** A value that is not a record, or a read error, anywhere among the items is a
      panic, not a skipped item. */
  lemma {:induction false} AvroUnpackRejects(libs: Libs, data: bytes, items: seq<Result<Value>>, i: int)
    requires libs.readContainer(data) == Ok(items)
    requires 0 <= i < |items| && !(items[i].Ok? && items[i].value.Record?)
    ensures UnpackSpec(libs, AvroDecoder, data).Panic?
  {
  }

  /** The pass-through decoder returns exactly one empty map for every buffer. */
  lemma {:induction false} PickleUnpackIsOneEmptyMap(libs: Libs, data: bytes)
    ensures UnpackSpec(libs, PickleDecoder, data) == Ok([map[]])
  {
  }

  /** Packing `datum` succeeds, and unpacking the bytes gives back exactly one
      map, equal to `datum`. */
  predicate RoundTrips(libs: Libs, encoder: Encoders.Encoder, decoder: Decoder, datum: Decoded)
  {
    && Encoders.PackSpec(libs, encoder, datum).Ok?
    && UnpackSpec(libs, decoder, Encoders.PackSpec(libs, encoder, datum).value) == Ok([datum])
  }

  /** The pass-through codecs round-trip exactly the empty datum. */
  lemma {:induction false} PickleRoundTrips(libs: Libs, datum: Decoded)
    ensures RoundTrips(libs, Encoders.PickleEncoder, PickleDecoder, datum) <==> datum == map[]
  {
  }

  /** The pass-through codecs round-trip every datum to one empty map. */
  lemma {:induction false} PicklePackUnpack(libs: Libs, datum: Decoded)
    ensures Encoders.PackSpec(libs, Encoders.PickleEncoder, datum).Ok?
    ensures UnpackSpec(libs, PickleDecoder, Encoders.PackSpec(libs, Encoders.PickleEncoder, datum).value)
            == Ok([map[]])
  {
  }

  /** Reading back the record the encoder builds gives, for each declared field
      name, the datum's value or `Null`, and no other name. */
  lemma {:induction false} FilledToMap(names: seq<string>, datum: Decoded)
    ensures PairsToMap(Encoders.Filled(names, datum))
            == map k | k in names :: if k in datum then datum[k] else Null
  {
    var pairs := Encoders.Filled(names, datum);
    var m := PairsToMap(pairs);
    var expected := map k | k in names :: if k in datum then datum[k] else Null;
    PairsToMapKeys(pairs);
    forall k | k in m ensures k in expected && m[k] == expected[k] {
      var i :| 0 <= i < |pairs| && pairs[i].0 == k;
      var last := LastIndex(pairs, i);
      PairsToMapLastWins(pairs, last);
      assert names[last] == k;
    }
    forall k | k in expected ensures k in m {
      var i :| 0 <= i < |names| && names[i] == k;
      assert pairs[i].0 == k;
    }
  }

  /** The last position at or after `i` whose pair carries the name of pair `i`. */
  lemma {:induction false} LastIndex(pairs: seq<(string, Value)>, i: int) returns (last: int)
    requires 0 <= i < |pairs|
    ensures i <= last < |pairs| && pairs[last].0 == pairs[i].0 && LastWith(pairs, last)
    decreases |pairs| - i
  {
    if LastWith(pairs, i) {
      last := i;
    } else {
      var j :| i < j < |pairs| && pairs[j].0 == pairs[i].0;
      last := LastIndex(pairs, j);
    }
  }

  /** Encoding a datum whose keys are exactly the record's field names with the
      Avro encoder, then decoding it with the Avro decoder, gives back exactly one
      map, equal to the datum — given that the writer accepts the record and that
      the reader reads back what the writer writes. */
  lemma {:induction false} AvroRoundTrip(libs: Libs, schema: Schema, datum: Decoded)
    requires schema.SRecord?
    requires datum.Keys == set i | 0 <= i < |schema.fields| :: schema.fields[i].name
    requires var record := Record(Encoders.Filled(FieldNames(schema.fields), datum));
      && libs.accepts(schema, record)
      && ContainerRoundTrips(libs, schema, [record])
    requires Encoders.PackSpec(libs, Encoders.AvroEncoder(schema), datum).Ok?
    ensures RoundTrips(libs, Encoders.AvroEncoder(schema), AvroDecoder, datum)
  {
    var names := FieldNames(schema.fields);
    var record := Record(Encoders.Filled(names, datum));
    FilledIsDatum(schema.fields, datum);
    DecodeOneRecord(libs, schema, record);
  }

  /** The record filled from a datum that has a value for every field name and no
      other key reads back as that datum. */
  lemma {:induction false} FilledIsDatum(fields: seq<Field>, datum: Decoded)
    requires datum.Keys == set i | 0 <= i < |fields| :: fields[i].name
    ensures PairsToMap(Encoders.Filled(FieldNames(fields), datum)) == datum
  {
    var names := FieldNames(fields);
    FilledToMap(names, datum);
    var expected := map k | k in names :: if k in datum then datum[k] else Null;
    forall k | k in datum ensures k in names {
      var i :| 0 <= i < |fields| && fields[i].name == k;
      assert names[i] == k;
    }
    forall k | k in names ensures k in datum {
      var i :| 0 <= i < |names| && names[i] == k;
      assert fields[i].name == k;
    }
    assert expected.Keys == datum.Keys;
    assert forall k :: k in expected ==> expected[k] == datum[k];
    assert expected == datum;
  }

  /** A container written from one record decodes to that record's map. */
  lemma {:induction false} DecodeOneRecord(libs: Libs, schema: Schema, record: Value)
    requires record.Record?
    requires ContainerRoundTrips(libs, schema, [record])
    requires libs.writeContainer(schema, [record]).Ok?
    ensures UnpackSpec(libs, AvroDecoder, libs.writeContainer(schema, [record]).value)
            == Ok([PairsToMap(record.fields)])
  {
    var items: seq<Result<Value>> := [Ok(record)];
    assert AllRead([record]) == items;
    assert ItemsToMaps(items).value == [PairsToMap(record.fields)];
  }

  /** A datum the writer rejects is packed to a container with no record in it,
      which decodes to no map at all. */
  lemma {:induction false} AvroRejectedUnpacksEmpty(libs: Libs, schema: Schema, datum: Decoded)
    requires schema.SRecord?
    requires !libs.accepts(schema, Record(Encoders.Filled(FieldNames(schema.fields), datum)))
    requires ContainerRoundTrips(libs, schema, [])
    requires Encoders.PackSpec(libs, Encoders.AvroEncoder(schema), datum).Ok?
    ensures UnpackSpec(libs, AvroDecoder, Encoders.PackSpec(libs, Encoders.AvroEncoder(schema), datum).value)
            == Ok([])
  {
    assert AllRead([]) == [];
  }
}
