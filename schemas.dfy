/** src/schema.rs: turning a JSON schema into an Avro record schema, the part of
    `load_schema` that follows parsing the file, and `SchemaRegistry`, which
    stores a stream's JSON schema in a Redis hash and caches it per instance. */
module Schemas {
  import opened Errors
  import opened Values
  import opened Libraries
  import opened RedisStore

  const ExpectedRecord: string := "Expected Schema::Record"
  const NeedsNamespace: string := "Schema must contain 'namespace'"
  const NeedsName: string := "Schema must contain 'name'"

  /** `json_to_avro_schema`: the parsed schema, unchanged, when it is a record;
      a panic for every other kind of schema and for a schema that does not parse. */
  function JsonToAvroSchema(libs: Libs, schema: Json): (r: Result<Schema>)
    ensures r.Ok? <==> libs.parseSchema(schema).Ok? && libs.parseSchema(schema).value.SRecord?
    ensures r.Ok? ==> r.value == libs.parseSchema(schema).value
    ensures !r.Ok? ==> r.Panic?
    ensures libs.parseSchema(schema).Ok? && !libs.parseSchema(schema).value.SRecord? ==> r == Panic(ExpectedRecord)
  {
    match libs.parseSchema(schema)
    case Ok(s) => if s.SRecord? then Ok(s) else Panic(ExpectedRecord)
    case _ => Panic(UnwrapErr)
  }

  /** The Redis stream a schema's records go to. */
  function StreamName(namespace: string, name: string): string
  {
    namespace + ":" + name
  }

  /** `load_schema` once the file has been read and parsed as `raw`: the schema
      (present only when it declares fields) and the stream name. */
  function LoadSchema(raw: Json): Result<(Option<Json>, string)>
  {
    var namespace := Get(raw, "namespace");
    if namespace.None? then Panic(NeedsNamespace)
    else
      var name := Get(raw, "name");
      if name.None? then Panic(NeedsName)
      else if AsStr(namespace.value).None? || AsStr(name.value).None? then Panic(UnwrapNone)
      else
        var stream := StreamName(AsStr(namespace.value).value, AsStr(name.value).value);
        var schema := if Get(raw, "fields").Some? then Some(raw) else None;
        Ok((schema, stream))
  }

  /** `load_schema` succeeds exactly for an object whose `namespace` and `name`
      are strings, and then names the stream `namespace:name`. */
  lemma {:induction false} LoadSchemaStream(raw: Json)
    ensures LoadSchema(raw).Ok? <==>
      raw.JObject? && "namespace" in raw.members && "name" in raw.members
      && raw.members["namespace"].JString? && raw.members["name"].JString?
    ensures LoadSchema(raw).Ok? ==>
      LoadSchema(raw).value.1 == raw.members["namespace"].s + ":" + raw.members["name"].s
  {
  }

  /** The schema is present, and is the whole JSON document, exactly when the
      document has a `fields` member; otherwise it is absent. */
  lemma {:induction false} LoadSchemaPresence(raw: Json)
    requires LoadSchema(raw).Ok?
    ensures LoadSchema(raw).value.0.Some? <==> "fields" in raw.members
    ensures LoadSchema(raw).value.0.Some? ==> LoadSchema(raw).value.0.value == raw
  {
  }

  /** A missing `namespace` or `name`, or one that is not a string, is a panic,
      and a missing `namespace` is reported before a missing `name`. */
  lemma {:induction false} LoadSchemaFailures(raw: Json)
    ensures Get(raw, "namespace").None? ==> LoadSchema(raw) == Panic(NeedsNamespace)
    ensures Get(raw, "namespace").Some? && Get(raw, "name").None? ==> LoadSchema(raw) == Panic(NeedsName)
    ensures Get(raw, "namespace").Some? && Get(raw, "name").Some?
      && (!Get(raw, "namespace").value.JString? || !Get(raw, "name").value.JString?)
      ==> LoadSchema(raw) == Panic(UnwrapNone)
  {
  }

  /** The two test schemas: one with fields, on stream "schema1:raw"; one without,
      on stream "schema2:raw". */
  lemma {:induction false} LoadSchemaExamples()
    ensures var schema1 := JObject(map["namespace" := JString("schema1"), "name" := JString("raw"),
                                        "type" := JString("record"), "fields" := JArray([])]);
      LoadSchema(schema1) == Ok((Some(schema1), "schema1:raw"))
    ensures var schema2 := JObject(map["namespace" := JString("schema2"), "name" := JString("raw"),
                                        "type" := JString("record")]);
      LoadSchema(schema2) == Ok((None, "schema2:raw"))
  {
    assert StreamName("schema1", "raw") == "schema1:raw";
    assert StreamName("schema2", "raw") == "schema2:raw";
  }

  /** The position of the first ':' in `s`, or `|s|` if there is none. */
  function FirstColon(s: string): (i: nat)
    ensures i <= |s|
  {
    if s == [] || s[0] == ':' then 0 else 1 + FirstColon(s[1..])
  }

  /** In `namespace:name` with a namespace free of ':', the first ':' is the separator. */
  lemma {:induction false} FirstColonOfStreamName(namespace: string, name: string)
    requires ':' !in namespace
    ensures FirstColon(StreamName(namespace, name)) == |namespace|
  {
    if namespace != [] {
      assert StreamName(namespace, name)[1..] == StreamName(namespace[1..], name);
      FirstColonOfStreamName(namespace[1..], name);
    }
  }

  /** When namespaces contain no ':', the stream name determines namespace and name. */
  lemma {:induction false} StreamNameInjective(ns1: string, n1: string, ns2: string, n2: string)
    requires ':' !in ns1 && ':' !in ns2
    requires StreamName(ns1, n1) == StreamName(ns2, n2)
    ensures ns1 == ns2 && n1 == n2
  {
    var s := StreamName(ns1, n1);
    FirstColonOfStreamName(ns1, n1);
    FirstColonOfStreamName(ns2, n2);
    assert ns1 == s[..|ns1|] == ns2;
    assert n1 == s[|ns1| + 1..] == n2;
  }

  /** The hash that holds a stream's schema, and the field for its one version. */
  function SchemaKey(stream: string): string { stream + ":_schema" }
  const VersionField: string := "0"

  /** What `set` stores: the schema's JSON text, or the empty string for no schema. */
  function StoredText(libs: Libs, schema: Option<Json>): string
  {
    match schema
    case Some(s) => libs.jsonText(s)
    case None => ""
  }

  /** `SchemaRegistry::set` on a server in state `db` with cache `schemas`:
      the new server state, the new cache, and the result. */
  function RegistrySet(libs: Libs, db: Db, schemas: map<string, Option<Json>>, stream: string, schema: Option<Json>)
    : (res: (Db, map<string, Option<Json>>, Result<()>))
  {
    if !db.online then (db, schemas, Err(RedisError(ConnectionRefused)))
    else
      var (db', written) := db.HSet(SchemaKey(stream), VersionField, StoredText(libs, schema));
      if !written.Ok? then (db, schemas, written)
      else (db', schemas[stream := schema], Ok(()))
  }

  /** `SchemaRegistry::get`: the new cache and the result; the server is only read. */
  function RegistryGet(libs: Libs, db: Db, schemas: map<string, Option<Json>>, stream: string)
    : (res: (map<string, Option<Json>>, Result<Json>))
  {
    if !db.online then (schemas, Err(RedisError(ConnectionRefused)))
    else
      var text := db.HGet(SchemaKey(stream), VersionField);
      if !text.Ok? || text.value.None? then (schemas, Panic(UnwrapErr))
      else
        var parsed := ParseOptionalJson(libs, text.value.value);
        if parsed.None? then (schemas, Panic(UnwrapErr))
        else
          var schemas' := schemas[stream := parsed.value];
          if stream !in schemas then (schemas', Panic(UnwrapNone))
          else if parsed.value.None? then (schemas', Panic(UnwrapNone))
          else (schemas', Ok(parsed.value.value))
  }

  /** `set` succeeds exactly when the server is reachable and the schema key is not
      a stream; it then stores the schema's text under field "0" and overwrites the
      cache entry whatever it held (last writer wins), and leaves every other key,
      every other field of the hash, reachability and the clock as they were. On
      failure nothing changes. */
  lemma {:induction false} RegistrySetEffect(libs: Libs, db: Db, schemas: map<string, Option<Json>>, stream: string, schema: Option<Json>)
    ensures var (db', schemas', r) := RegistrySet(libs, db, schemas, stream, schema);
      && (r.Ok? <==> db.online && !db.IsStream(SchemaKey(stream)))
      && (r.Ok? ==> db'.IsHash(SchemaKey(stream))
                    && db'.keyspace[SchemaKey(stream)].hash[VersionField] == StoredText(libs, schema)
                    && schemas' == schemas[stream := schema]
                    && db'.online == db.online && db'.clock == db.clock
                    && (forall k :: k != SchemaKey(stream) ==> (k in db'.keyspace <==> k in db.keyspace))
                    && (forall k :: k in db.keyspace && k != SchemaKey(stream) ==> db'.keyspace[k] == db.keyspace[k])
                    && (forall f :: db.IsHash(SchemaKey(stream)) && f in db.keyspace[SchemaKey(stream)].hash && f != VersionField ==>
                          f in db'.keyspace[SchemaKey(stream)].hash
                          && db'.keyspace[SchemaKey(stream)].hash[f] == db.keyspace[SchemaKey(stream)].hash[f]))
      && (!r.Ok? ==> r.Err? && db' == db && schemas' == schemas)
  {
  }

  /** `get` never succeeds for a stream this instance has not cached (its
      `insert(..).unwrap()` needs an old entry), and it only ever changes the
      entry of `stream`. */
  lemma {:induction false} RegistryGetNeedsCache(libs: Libs, db: Db, schemas: map<string, Option<Json>>, stream: string)
    ensures var (schemas', r) := RegistryGet(libs, db, schemas, stream);
      && (r.Ok? ==> stream in schemas)
      && (stream in schemas' ==> stream in schemas || !r.Ok?)
      && forall k :: k != stream ==> (k in schemas' <==> k in schemas) && (k in schemas ==> schemas'[k] == schemas[k])
  {
  }

  /** Set, then get on the same instance, gives back the schema that was set,
      provided its JSON text reads back as the same value and is not `null`. */
  lemma {:induction false} RegistrySetThenGet(libs: Libs, db: Db, schemas: map<string, Option<Json>>, stream: string, j: Json)
    requires db.online && !db.IsStream(SchemaKey(stream))
    requires JsonRoundTrips(libs, j) && j != JNull
    ensures var (db', schemas', _) := RegistrySet(libs, db, schemas, stream, Some(j));
      RegistryGet(libs, db', schemas', stream).1 == Ok(j)
  {
    var (db', schemas', _) := RegistrySet(libs, db, schemas, stream, Some(j));
    assert db'.HGet(SchemaKey(stream), VersionField) == Ok(Some(libs.jsonText(j)));
  }

  /** Setting no schema stores "", which is not JSON, so a later get panics. */
  lemma {:induction false} RegistrySetNoneThenGet(libs: Libs, db: Db, schemas: map<string, Option<Json>>, stream: string)
    requires db.online && !db.IsStream(SchemaKey(stream))
    requires EmptyIsNotJson(libs)
    ensures var (db', schemas', _) := RegistrySet(libs, db, schemas, stream, None);
      RegistryGet(libs, db', schemas', stream).1.Panic?
  {
    var (db', schemas', _) := RegistrySet(libs, db, schemas, stream, None);
    assert db'.HGet(SchemaKey(stream), VersionField) == Ok(Some(""));
  }

  /** Setting the JSON value `null` stores its text, which reads back as no schema,
      so a later get panics in `as_ref().unwrap()`. */
  lemma {:induction false} RegistrySetNullThenGet(libs: Libs, db: Db, schemas: map<string, Option<Json>>, stream: string)
    requires db.online && !db.IsStream(SchemaKey(stream))
    requires JsonRoundTrips(libs, JNull)
    ensures var (db', schemas', _) := RegistrySet(libs, db, schemas, stream, Some(JNull));
      RegistryGet(libs, db', schemas', stream) == (schemas[stream := None], Panic(UnwrapNone))
  {
    var (db', schemas', _) := RegistrySet(libs, db, schemas, stream, Some(JNull));
    assert db'.HGet(SchemaKey(stream), VersionField) == Ok(Some(libs.jsonText(JNull)));
    assert ParseOptionalJson(libs, libs.jsonText(JNull)) == Some(None);
    assert schemas'[stream := None] == schemas[stream := None];
  }

  /** Of two sets on the same stream, the second one's schema is what get returns. */
  lemma {:induction false} RegistryLastWriterWins(libs: Libs, db: Db, schemas: map<string, Option<Json>>, stream: string,
                                                   x: Option<Json>, y: Json)
    requires db.online && !db.IsStream(SchemaKey(stream))
    requires JsonRoundTrips(libs, y) && y != JNull
    ensures var (db1, schemas1, _) := RegistrySet(libs, db, schemas, stream, x);
      var (db2, schemas2, _) := RegistrySet(libs, db1, schemas1, stream, Some(y));
      RegistryGet(libs, db2, schemas2, stream).1 == Ok(y)
  {
    var (db1, schemas1, _) := RegistrySet(libs, db, schemas, stream, x);
    assert db1.online && !db1.IsStream(SchemaKey(stream));
    RegistrySetThenGet(libs, db1, schemas1, stream, y);
  }

  /** As written, only the instance that set a schema can get it: a fresh instance
      has no cache entry for the stream, and its `insert(..).unwrap()` panics. */
  lemma {:induction false} RegistryGetFreshPanics(libs: Libs, db: Db, writer: map<string, Option<Json>>,
                                                  stream: string, j: Json)
    requires db.online && !db.IsStream(SchemaKey(stream))
    requires JsonRoundTrips(libs, j) && j != JNull
    ensures var (db', _, written) := RegistrySet(libs, db, writer, stream, Some(j));
      && written.Ok?
      && RegistryGet(libs, db', map[], stream) == (map[stream := Some(j)], Panic(UnwrapNone))
  {
    var (db', _, _) := RegistrySet(libs, db, writer, stream, Some(j));
    assert db'.HGet(SchemaKey(stream), VersionField) == Ok(Some(libs.jsonText(j)));
  }

  /** `SchemaRegistry::get` as evidently intended: the schema read from the server
      is cached and returned, whether or not the stream was cached before. */
  function RegistryGetIntended(libs: Libs, db: Db, schemas: map<string, Option<Json>>, stream: string)
    : (res: (map<string, Option<Json>>, Result<Json>))
  {
    if !db.online then (schemas, Err(RedisError(ConnectionRefused)))
    else
      var text := db.HGet(SchemaKey(stream), VersionField);
      if !text.Ok? || text.value.None? then (schemas, Panic(UnwrapErr))
      else
        var parsed := ParseOptionalJson(libs, text.value.value);
        if parsed.None? then (schemas, Panic(UnwrapErr))
        else
          var schemas' := schemas[stream := parsed.value];
          if parsed.value.None? then (schemas', Panic(UnwrapNone))
          else (schemas', Ok(parsed.value.value))
  }

  /** With the intended `get`, any instance reads back the schema another one set. */
  lemma {:induction false} RegistryGetIntendedAfterOtherSet(libs: Libs, db: Db, writer: map<string, Option<Json>>,
                                                            reader: map<string, Option<Json>>, stream: string, j: Json)
    requires db.online && !db.IsStream(SchemaKey(stream))
    requires JsonRoundTrips(libs, j) && j != JNull
    ensures var (db', _, written) := RegistrySet(libs, db, writer, stream, Some(j));
      && written.Ok?
      && RegistryGetIntended(libs, db', reader, stream) == (reader[stream := Some(j)], Ok(j))
  {
    var (db', _, _) := RegistrySet(libs, db, writer, stream, Some(j));
    assert db'.HGet(SchemaKey(stream), VersionField) == Ok(Some(libs.jsonText(j)));
  }

  /** The intended `get` differs from the written one only where the written one
      panics in `insert(..).unwrap()` on a stream that was not cached: every error,
      every earlier panic and every success are the same, the cache is always the
      same, and where the written one panics there the intended one succeeds or
      meets the same panic in `as_ref().unwrap()` on a `null` schema. */
  lemma {:induction false} RegistryGetIntendedAgrees(libs: Libs, db: Db, schemas: map<string, Option<Json>>, stream: string)
    ensures stream in schemas ==> RegistryGetIntended(libs, db, schemas, stream) == RegistryGet(libs, db, schemas, stream)
    ensures RegistryGetIntended(libs, db, schemas, stream).0 == RegistryGet(libs, db, schemas, stream).0
    ensures RegistryGet(libs, db, schemas, stream).1.Ok? ==>
      RegistryGetIntended(libs, db, schemas, stream) == RegistryGet(libs, db, schemas, stream)
    ensures RegistryGet(libs, db, schemas, stream).1 != Panic(UnwrapNone) ==>
      RegistryGetIntended(libs, db, schemas, stream) == RegistryGet(libs, db, schemas, stream)
    ensures RegistryGet(libs, db, schemas, stream).1 == Panic(UnwrapNone) ==>
      var i := RegistryGetIntended(libs, db, schemas, stream).1;
      i.Ok? || i == Panic(UnwrapNone)
  {
  }

  /** `SchemaRegistry`: a Redis client and a cache from stream name to its optional schema. */
  class SchemaRegistry {
    const store: Store
    var schemas: map<string, Option<Json>>

    constructor (store: Store)
      ensures this.store == store && schemas == map[]
    {
      this.store := store;
      schemas := map[];
    }

    method Get(libs: Libs, stream: string) returns (r: Result<Json>)
      modifies this
      ensures (schemas, r) == RegistryGet(libs, store.Snapshot(), old(schemas), stream)
    {
      var db := store.Snapshot();
      var con := db.Connect();
      if !con.Ok? {
        return Err(con.error);
      }
      // "0" is the only version: schema evolution is not implemented
      var text := db.HGet(SchemaKey(stream), VersionField);
      if !text.Ok? || text.value.None? {
        return Panic(UnwrapErr);
      }
      var parsed := ParseOptionalJson(libs, text.value.value);
      if parsed.None? {
        return Panic(UnwrapErr);
      }
      var previous := if stream in schemas then Some(schemas[stream]) else None;
      schemas := schemas[stream := parsed.value];
      if previous.None? {
        return Panic(UnwrapNone);
      }
      if parsed.value.None? {
        return Panic(UnwrapNone);
      }
      r := Ok(parsed.value.value);
    }

    method Set(libs: Libs, stream: string, schema: Option<Json>) returns (r: Result<()>)
      requires store.Valid()
      modifies this, store
      ensures store.Valid()
      ensures (store.Snapshot(), schemas, r) == RegistrySet(libs, old(store.Snapshot()), old(schemas), stream, schema)
    {
      var con := store.Snapshot().Connect();
      if !con.Ok? {
        return Err(con.error);
      }
      var written := store.HSet(SchemaKey(stream), VersionField, StoredText(libs, schema));
      if !written.Ok? {
        return written;
      }
      schemas := schemas[stream := schema];
      r := Ok(());
    }
  }
}
