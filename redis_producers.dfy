/** src/redis_producer.rs: a producer that encodes one datum with Avro, appends it
    to the stream named after the record schema, and then registers the schema
    with a `CachedSchemaRegistry` sharing the producer's server. */
module RedisProducers {
  import opened Errors
  import opened Values
  import opened Libraries
  import opened RedisStore
  import Encoders
  import opened SchemaRegistries

  const DataField: string := "data"

  /** `produce` on a server in state `db` with registry cache `schemas`: the new
      server state, the new cache, and the id of the appended entry. The steps, in
      order: open a connection; build the record (`Record::new(..).unwrap()`, so a
      schema that is not a record panics here, before the stream is chosen); encode,
      where an `into_inner` error is a panic; append under the record's name with
      the single field "data"; register the schema. */
  function ProduceSpec(libs: Libs, db: Db, schemas: map<string, Schema>, datum: Decoded, schema: Schema)
    : (res: (Db, map<string, Schema>, Result<StreamId>))
  {
    if !db.online then (db, schemas, Err(RedisError(ConnectionRefused)))
    else if !schema.SRecord? then (db, schemas, Panic(UnwrapNone))
    else
      var encoded := Encoders.PackSpec(libs, Encoders.AvroEncoder(schema), datum);
      if encoded.Err? then (db, schemas, Panic(encoded.error.detail))
      else if encoded.Panic? then (db, schemas, Panic(encoded.message))
      else
        var (db1, id) := db.XAdd(schema.name.name, None, map[DataField := encoded.value]);
        if !id.Ok? then (db, schemas, Err(id.error))
        else
          var (db2, schemas2, registered) := CachedSet(libs, db1, schemas, schema.name.name, schema);
          if !registered.Ok? then (db2, schemas2, Err(registered.error))
          else (db2, schemas2, Ok(id.value))
  }

  /** A successful `produce` appends exactly one entry, to the stream named by the
      record schema, with the returned id and the single field "data" holding the
      encoded datum; the older entries are kept (no MAXLEN), and the schema is
      cached afterwards. */
  lemma {:induction false} ProduceAppendsOne(libs: Libs, db: Db, schemas: map<string, Schema>, datum: Decoded, schema: Schema)
    ensures var (db', schemas', r) := ProduceSpec(libs, db, schemas, datum, schema);
      r.Ok? ==>
        && schema.SRecord?
        && var stream := schema.name.name;
           var encoded := Encoders.PackSpec(libs, Encoders.AvroEncoder(schema), datum);
           && encoded.Ok?
           && !db.IsHash(stream)
           && db'.IsStream(stream)
           && db'.keyspace[stream].stream.entries
              == db.StreamAt(stream).entries + [Entry(r.value, map[DataField := encoded.value])]
           && Less(db.LastId(stream), r.value)
           && stream in schemas'
  {
    var (db', schemas', r) := ProduceSpec(libs, db, schemas, datum, schema);
    if r.Ok? {
      var stream := schema.name.name;
      var encoded := Encoders.PackSpec(libs, Encoders.AvroEncoder(schema), datum);
      var (db1, id) := db.XAdd(stream, None, map[DataField := encoded.value]);
      assert db1.IsStream(stream);
      if stream in schemas {
        assert db' == db1;
      } else {
        assert RegistryKey(stream) != stream by {
          assert |RegistryKey(stream)| > |stream|;
        }
        assert db'.keyspace[stream] == db1.keyspace[stream];
      }
    }
  }

  /** The registry is updated only after a successful append: when the server is
      unreachable, the datum cannot be encoded, or the append fails, neither the
      server nor the cache changes. */
  lemma {:induction false} ProduceRegistersAfterAppend(libs: Libs, db: Db, schemas: map<string, Schema>, datum: Decoded, schema: Schema)
    ensures var (db', schemas', r) := ProduceSpec(libs, db, schemas, datum, schema);
      schemas' != schemas ==>
        && db.online && schema.SRecord?
        && Encoders.PackSpec(libs, Encoders.AvroEncoder(schema), datum).Ok?
        && db.XAdd(schema.name.name, None,
             map[DataField := Encoders.PackSpec(libs, Encoders.AvroEncoder(schema), datum).value]).1.Ok?
        && schemas' == schemas[schema.name.name := schema]
    ensures var (db', schemas', r) := ProduceSpec(libs, db, schemas, datum, schema);
      !db.online || !schema.SRecord? || !Encoders.PackSpec(libs, Encoders.AvroEncoder(schema), datum).Ok?
      ==> db' == db && schemas' == schemas
  {
  }

  /** Encoding failures are panics, never `Err`; a schema that is not a record
      panics before anything is written. */
  lemma {:induction false} ProduceEncodingPanics(libs: Libs, db: Db, schemas: map<string, Schema>, datum: Decoded, schema: Schema)
    requires db.online
    ensures !schema.SRecord? ==> ProduceSpec(libs, db, schemas, datum, schema) == (db, schemas, Panic(UnwrapNone))
    ensures schema.SRecord? && Encoders.PackSpec(libs, Encoders.AvroEncoder(schema), datum).Err? ==>
      ProduceSpec(libs, db, schemas, datum, schema).2.Panic?
  {
  }

  /** `RedisProducer` of src/redis_producer.rs: a server handle, and a schema
      registry on the same server. */
  class RedisProducer {
    const store: Store
    const registry: CachedSchemaRegistry

    constructor (store: Store)
      ensures this.store == store && registry.store == store && registry.schemas == map[]
      ensures fresh(registry)
    {
      this.store := store;
      registry := new CachedSchemaRegistry(store);
    }

    method Produce(libs: Libs, datum: Decoded, schema: Schema) returns (r: Result<StreamId>)
      requires registry.store == store && store.Valid()
      modifies store, registry
      ensures store.Valid()
      ensures (store.Snapshot(), registry.schemas, r)
              == ProduceSpec(libs, old(store.Snapshot()), old(registry.schemas), datum, schema)
    {
      var con := store.Snapshot().Connect();
      if !con.Ok? {
        return Err(con.error);
      }
      if !schema.SRecord? {
        return Panic(UnwrapNone);
      }
      var encoded := Encoders.Pack(libs, Encoders.AvroEncoder(schema), datum);
      if encoded.Err? {
        return Panic(encoded.error.detail);
      }
      if encoded.Panic? {
        return Panic(encoded.message);
      }
      // `schema` is a record here, so the `unreachable!()` arm is never taken
      var stream := schema.name.name;
      var id := store.XAdd(stream, None, map[DataField := encoded.value]);
      if !id.Ok? {
        return Err(id.error);
      }
      var registered := registry.Set(libs, stream, schema);
      if !registered.Ok? {
        return Err(registered.error);
      }
      r := Ok(id.value);
    }
  }
}
