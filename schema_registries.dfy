/** src/schema_registry.rs: `CachedSchemaRegistry`, a per-instance cache from
    stream name to Avro schema in front of a Redis hash per stream. A schema is
    written to the server only when this instance has not cached one for the
    stream, so within one instance the first writer wins. */
module SchemaRegistries {
  import opened Errors
  import opened Values
  import opened Libraries
  import opened RedisStore

  /** The hash that holds a stream's schema, and its one field. */
  function RegistryKey(stream: string): string { stream + ":schema" }
  const SchemaField: string := "schema"

  /** `get` on a server in state `db` with cache `schemas`: the new cache and the
      result; the server is only read. A cached stream is answered from the cache.
      Otherwise the stored text is read, parsed as JSON and as a schema (each step
      `unwrap`ped), and inserted; the insert's `unwrap` then fails, because the
      key was not in the map before. */
  function CachedGet(libs: Libs, db: Db, schemas: map<string, Schema>, stream: string)
    : (res: (map<string, Schema>, Result<Schema>))
  {
    if stream in schemas then (schemas, Ok(schemas[stream]))
    else if !db.online then (schemas, Err(RedisError(ConnectionRefused)))
    else
      var text := db.HGet(RegistryKey(stream), SchemaField);
      if !text.Ok? || text.value.None? then (schemas, Panic(UnwrapErr))
      else
        var json := libs.parseJson(text.value.value);
        if json.None? then (schemas, Panic(UnwrapErr))
        else
          var schema := libs.parseSchema(json.value);
          if !schema.Ok? then (schemas, Panic(UnwrapErr))
          else (schemas[stream := schema.value], Panic(UnwrapNone))
  }

  /** `set`: nothing to do for a cached stream; otherwise the schema's JSON text is
      written to the server, and only then cached. */
  function CachedSet(libs: Libs, db: Db, schemas: map<string, Schema>, stream: string, schema: Schema)
    : (res: (Db, map<string, Schema>, Result<()>))
  {
    if stream in schemas then (db, schemas, Ok(()))
    else if !db.online then (db, schemas, Err(RedisError(ConnectionRefused)))
    else
      var (db', written) := db.HSet(RegistryKey(stream), SchemaField, libs.schemaText(schema));
      if !written.Ok? then (db, schemas, written)
      else (db', schemas[stream := schema], Ok(()))
  }

  /** A cached stream is answered from the cache, without the server. */
  lemma {:induction false} CachedGetHit(libs: Libs, db: Db, schemas: map<string, Schema>, stream: string)
    requires stream in schemas
    ensures forall other: Db :: CachedGet(libs, other, schemas, stream) == (schemas, Ok(schemas[stream]))
  {
  }

  /** No cache miss succeeds: it is a connection error or a panic, and it caches at
      most the entry of `stream`. */
  lemma {:induction false} CachedGetMissFails(libs: Libs, db: Db, schemas: map<string, Schema>, stream: string)
    requires stream !in schemas
    ensures var (schemas', r) := CachedGet(libs, db, schemas, stream);
      && !r.Ok?
      && (r.Err? <==> !db.online)
      && (schemas' == schemas || schemas' == schemas[stream := schemas'[stream]])
  {
  }

  /** `set` on a cached stream is a success that writes nothing and caches nothing. */
  lemma {:induction false} CachedSetWhenCached(libs: Libs, db: Db, schemas: map<string, Schema>, stream: string, schema: Schema)
    requires stream in schemas
    ensures CachedSet(libs, db, schemas, stream, schema) == (db, schemas, Ok(()))
  {
  }

  /** `set` on an uncached stream succeeds exactly when the server is reachable and
      the key is not a stream; it then stores the schema's text in field "schema"
      of `stream:schema`, touches no other key, and caches the schema. */
  lemma {:induction false} CachedSetWhenUncached(libs: Libs, db: Db, schemas: map<string, Schema>, stream: string, schema: Schema)
    requires stream !in schemas
    ensures var (db', schemas', r) := CachedSet(libs, db, schemas, stream, schema);
      && (r.Ok? <==> db.online && !db.IsStream(RegistryKey(stream)))
      && (r.Ok? ==> && db'.IsHash(RegistryKey(stream))
                    && db'.keyspace[RegistryKey(stream)].hash[SchemaField] == libs.schemaText(schema)
                    && schemas' == schemas[stream := schema]
                    && db'.online == db.online && db'.clock == db.clock
                    && forall k :: k in db.keyspace && k != RegistryKey(stream) ==>
                         k in db'.keyspace && db'.keyspace[k] == db.keyspace[k])
  {
  }

  /** A failed `set` changes neither the cache nor the server. */
  lemma {:induction false} CachedSetFailureKeepsCache(libs: Libs, db: Db, schemas: map<string, Schema>, stream: string, schema: Schema)
    ensures var (db', schemas', r) := CachedSet(libs, db, schemas, stream, schema);
      !r.Ok? ==> r.Err? && db' == db && schemas' == schemas
  {
  }

  /** A series of `set` calls on one instance. */
  function SetAll(libs: Libs, db: Db, schemas: map<string, Schema>, calls: seq<(string, Schema)>)
    : (res: (Db, map<string, Schema>))
    decreases |calls|
  {
    if calls == [] then (db, schemas)
    else
      var (db', schemas', _) := CachedSet(libs, db, schemas, calls[0].0, calls[0].1);
      SetAll(libs, db', schemas', calls[1..])
  }

  /** Once a stream is cached, no series of `set` calls changes its entry. */
  lemma {:induction false} SetAllKeepsEntry(libs: Libs, db: Db, schemas: map<string, Schema>,
                                            calls: seq<(string, Schema)>, stream: string)
    requires stream in schemas
    ensures stream in SetAll(libs, db, schemas, calls).1
    ensures SetAll(libs, db, schemas, calls).1[stream] == schemas[stream]
    decreases |calls|
  {
    if calls != [] {
      var (db', schemas', _) := CachedSet(libs, db, schemas, calls[0].0, calls[0].1);
      SetAllKeepsEntry(libs, db', schemas', calls[1..], stream);
    }
  }

  /** First writer wins: after a successful `set(stream, x)` on an instance that had
      not cached `stream`, whatever `set` calls follow, `get(stream)` returns `x`. */
  lemma {:induction false} FirstWriterWins(libs: Libs, db: Db, schemas: map<string, Schema>, stream: string,
                                           x: Schema, later: seq<(string, Schema)>, readAt: Db)
    requires stream !in schemas
    requires CachedSet(libs, db, schemas, stream, x).2.Ok?
    ensures var (db1, schemas1, _) := CachedSet(libs, db, schemas, stream, x);
      var (_, schemas2) := SetAll(libs, db1, schemas1, later);
      CachedGet(libs, readAt, schemas2, stream).1 == Ok(x)
  {
    var (db1, schemas1, _) := CachedSet(libs, db, schemas, stream, x);
    SetAllKeepsEntry(libs, db1, schemas1, later, stream);
  }

  /** Only the local cache is consulted before writing: a fresh instance overwrites
      whatever schema the server already holds for the stream. */
  lemma {:induction false} FreshInstanceOverwrites(libs: Libs, db: Db, stream: string, schema: Schema)
    requires db.online && db.IsHash(RegistryKey(stream))
    ensures var (db', _, r) := CachedSet(libs, db, map[], stream, schema);
      && r.Ok?
      && db'.keyspace[RegistryKey(stream)].hash
         == db.keyspace[RegistryKey(stream)].hash[SchemaField := libs.schemaText(schema)]
  {
  }

  /** As written, a schema stored by one instance cannot be read by another: the
      reading instance has no cache entry, so its `get` reaches the failing
      `insert(..).unwrap()`. */
  lemma {:induction false} CachedGetAfterOtherSetPanics(libs: Libs, db: Db, writer: map<string, Schema>,
                                                        stream: string, schema: Schema)
    requires db.online && stream !in writer && !db.IsStream(RegistryKey(stream))
    requires SchemaTextRoundTrips(libs, schema)
    ensures var (db', _, written) := CachedSet(libs, db, writer, stream, schema);
      && written.Ok?
      && CachedGet(libs, db', map[], stream) == (map[stream := schema], Panic(UnwrapNone))
  {
    var (db', _, _) := CachedSet(libs, db, writer, stream, schema);
    assert db'.HGet(RegistryKey(stream), SchemaField) == Ok(Some(libs.schemaText(schema)));
  }

  /** `get` as evidently intended: the schema read from the server is cached and
      returned, without unwrapping what `insert` replaced. */
  function CachedGetIntended(libs: Libs, db: Db, schemas: map<string, Schema>, stream: string)
    : (res: (map<string, Schema>, Result<Schema>))
  {
    if stream in schemas then (schemas, Ok(schemas[stream]))
    else if !db.online then (schemas, Err(RedisError(ConnectionRefused)))
    else
      var text := db.HGet(RegistryKey(stream), SchemaField);
      if !text.Ok? || text.value.None? then (schemas, Panic(UnwrapErr))
      else
        var json := libs.parseJson(text.value.value);
        if json.None? then (schemas, Panic(UnwrapErr))
        else
          var schema := libs.parseSchema(json.value);
          if !schema.Ok? then (schemas, Panic(UnwrapErr))
          else (schemas[stream := schema.value], Ok(schema.value))
  }

  /** With the intended `get`, any instance reads back the schema another one
      stored, and caches it. */
  lemma {:induction false} CachedGetIntendedAfterOtherSet(libs: Libs, db: Db, writer: map<string, Schema>,
                                                          reader: map<string, Schema>, stream: string, schema: Schema)
    requires db.online && stream !in writer && stream !in reader && !db.IsStream(RegistryKey(stream))
    requires SchemaTextRoundTrips(libs, schema)
    ensures var (db', _, written) := CachedSet(libs, db, writer, stream, schema);
      && written.Ok?
      && CachedGetIntended(libs, db', reader, stream) == (reader[stream := schema], Ok(schema))
  {
    var (db', _, _) := CachedSet(libs, db, writer, stream, schema);
    assert db'.HGet(RegistryKey(stream), SchemaField) == Ok(Some(libs.schemaText(schema)));
  }

  /** The intended `get` agrees with the written one on every call the written
      one does not end in the `insert` panic. */
  lemma {:induction false} CachedGetIntendedAgrees(libs: Libs, db: Db, schemas: map<string, Schema>, stream: string)
    ensures CachedGet(libs, db, schemas, stream).1 != Panic(UnwrapNone) ==>
      CachedGetIntended(libs, db, schemas, stream) == CachedGet(libs, db, schemas, stream)
    ensures CachedGet(libs, db, schemas, stream).1 == Panic(UnwrapNone) ==>
      && CachedGetIntended(libs, db, schemas, stream).0 == CachedGet(libs, db, schemas, stream).0
      && CachedGetIntended(libs, db, schemas, stream).1.Ok?
  {
  }

  /** `CachedSchemaRegistry`: a handle on the server and the cache of this instance. */
  class CachedSchemaRegistry {
    const store: Store
    var schemas: map<string, Schema>

    constructor (store: Store)
      ensures this.store == store && schemas == map[]
    {
      this.store := store;
      schemas := map[];
    }

    method Get(libs: Libs, stream: string) returns (r: Result<Schema>)
      modifies this
      ensures (schemas, r) == CachedGet(libs, store.Snapshot(), old(schemas), stream)
    {
      if stream in schemas {
        return Ok(schemas[stream]);
      }
      var db := store.Snapshot();
      var con := db.Connect();
      if !con.Ok? {
        return Err(con.error);
      }
      var text := db.HGet(RegistryKey(stream), SchemaField);
      if !text.Ok? || text.value.None? {
        return Panic(UnwrapErr);
      }
      var json := libs.parseJson(text.value.value);
      if json.None? {
        return Panic(UnwrapErr);
      }
      var schema := libs.parseSchema(json.value);
      if !schema.Ok? {
        return Panic(UnwrapErr);
      }
      // `insert` returns the entry it replaced; the key is fresh here, so
      // there is none and its `unwrap` panics
      schemas := schemas[stream := schema.value];
      r := Panic(UnwrapNone);
    }

    method Set(libs: Libs, stream: string, schema: Schema) returns (r: Result<()>)
      requires store.Valid()
      modifies this, store
      ensures store.Valid()
      ensures (store.Snapshot(), schemas, r) == CachedSet(libs, old(store.Snapshot()), old(schemas), stream, schema)
    {
      if stream in schemas {
        return Ok(());
      }
      var con := store.Snapshot().Connect();
      if !con.Ok? {
        return Err(con.error);
      }
      var written := store.HSet(RegistryKey(stream), SchemaField, libs.schemaText(schema));
      if !written.Ok? {
        return written;
      }
      schemas := schemas[stream := schema];
      r := Ok(());
    }
  }
}
