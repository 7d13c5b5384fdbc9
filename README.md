# foamcore in Dafny

A model of the Rust core of foamcore, a bridge that moves records between ZeroMQ and
Redis streams. The model covers:

- the codecs. `create_encoder` and `create_decoder` select one by name. The Avro encoder
  builds one record from a `Decoded` map and writes an Avro object container. The Avro
  decoder reads every record of a container back into a map. The "pickle" codecs pack
  to no bytes and unpack to one empty map.
- the schema helpers of `src/schema.rs`: `json_to_avro_schema`, `load_schema` after the
  file is read, and `SchemaRegistry`, which keeps a JSON schema in the hash
  `<stream>:_schema` under field "0".
- `CachedSchemaRegistry` (`src/schema_registry.rs`). It keeps an Avro schema in the hash
  `<stream>:schema` under field "schema" and writes only when this instance has not
  cached the stream.
- the Avro `RedisProducer` of `src/redis_producer.rs`. It appends one datum to the
  stream named by the record schema, then registers the schema.
  `src/lib.rs` declares neither `schema_registry` nor `redis_producer` as a module, so
  the crate as built compiles neither of these two files. They are modelled as written.
- the `RedisProducer` and `RedisConsumer` of `src/redis_clients.rs`. The producer
  appends each record with `XADD MAXLEN = n`. The consumer reads one entry at a time
  with `XREAD COUNT 1 BLOCK b` and decodes its "data" field into exactly one record.

Modules, one per source file plus three for what the source uses:

- `Errors`: `FcError` of `src/error.rs`. A call's `Result` is `Ok`, `Err` or `Panic`.
- `Values`: JSON values, Avro values and schemas, `Decoded`, `Encoded`.
- `Libraries`: the foreign libraries. serde_json's text form, Avro schema parsing, and
  the container writer and reader are fields of a `Libs` value passed as a parameter.
  What the proofs need from them is stated as predicates in each lemma's `requires`
  (`JsonRoundTrips`, `SchemaTextRoundTrips`, `EmptyIsNotJson`, `ContainerRoundTrips`).
  `Record::new` and `Record::put` are modelled directly.
- `RedisStore`: the Redis server the crate talks to.
  - Its state is a keyspace of streams and hashes, whether it accepts connections, and
    its clock.
  - XADD, XREAD, HSET and HGET are pure functions on a `Db` value.
  - The `Store` class holds the live state. Its methods are proved equal to those
    functions.
- `Schemas`, `Encoders`, `Decoders`, `SchemaRegistries`, `RedisProducers`,
  `RedisClients`: the six core files, in that order.

Pure code is written as functions with lemmas. Code that changes state is written as
classes whose methods are proved equal to a function of the old state; the loops are
`Encoder::pack`'s loop over the datum, `unpack`'s two loops and `produce`'s map over
the records. The lemmas then state what the source promises about those functions:

- round trips;
- one result per record;
- trimming;
- reading back in order;
- first writer wins;
- end to end, that a consumer reading on from `$` receives exactly the records produced,
  with their ids, in order (`RedisClients.ProduceThenConsume`).

Some functions only define what a library or the server does, and their contracts
restate their definitions. They have no row of their own in the table below; the
properties their callers rely on are stated by the lemmas in it:

- `Errors.Prefixed`: collecting into a `Vec`, a gathered prefix followed by the rest's
  values or the rest's failure. `Errors.PrefixedNothing` and `Errors.PrefixedTwice`
  are what the loops use.
- `Values.Get` and `Values.AsStr`: serde_json's `get` and `as_str`, used by
  `Schemas.LoadSchemaStream`, `Schemas.LoadSchemaPresence` and `Schemas.LoadSchemaFailures`.
- `Libraries.ParseOptionalJson`: reading text as an optional JSON value, used by
  `Schemas.RegistrySetThenGet`.
- `RedisStore.Db.Connect`, `Db.LastId`, `Db.XRead`, `Db.HSet` and `Db.HGet`: the server's
  replies. `RedisStore.XReadOldestAfter` and `RedisStore.HGetAfterHSet` state what they
  mean.

The source functions themselves are modelled by functions without contracts of their
own. The lemmas and methods in the table state what they do:

| function | source |
|---|---|
| `Schemas.LoadSchema` | src/schema.rs:33-49, after the file is read |
| `Schemas.RegistrySet` | src/schema.rs:81-92 |
| `Schemas.RegistryGet` | src/schema.rs:69-79 |
| `Encoders.CreateEncoder` | src/encoder.rs:54-63 |
| `Encoders.PackSpec` | src/encoder.rs:33-43 and 49-51 |
| `Decoders.CreateDecoder` | src/decoder.rs:57-67 |
| `Decoders.UnpackSpec` | src/decoder.rs:22-43 and 49-54 |
| `SchemaRegistries.CachedGet` | src/schema_registry.rs:28-41 |
| `SchemaRegistries.CachedSet` | src/schema_registry.rs:43-54 |
| `RedisProducers.ProduceSpec` | src/redis_producer.rs:38-66 |
| `RedisClients.ProduceOne` | src/redis_clients.rs:48-55, the closure applied to one record |
| `RedisClients.ProduceAll` | src/redis_clients.rs:46-56 |
| `RedisClients.RequestSpec` | src/redis_clients.rs:92-101, up to the XREAD request |
| `RedisClients.ReceiveSpec` | src/redis_clients.rs:101-119, from the XREAD reply on |
| `RedisClients.ConsumeSpec` | src/redis_clients.rs:92-120 |

## Model

| member | source | states |
|---|---|---|
| Values.Lower | src/encoder.rs:55 | lower-casing keeps the length and lower-cases each ASCII letter in place |
| Libraries.NewRecord | src/encoder.rs:35 | `Record::new` succeeds exactly for a record schema, with one `Null` field per declared field, in order |
| Libraries.Put | src/encoder.rs:37 | `put` sets every field with that name to the value, keeps the other fields, and ignores a name the schema lacks |
| RedisStore.AutoId | src/redis_clients.rs:52 | the id XADD generates for `*` is past the stream's last id |
| RedisStore.Newest | src/redis_clients.rs:52 | MAXLEN = n keeps min(n, length) entries, and they are the newest ones |
| RedisStore.Db.XAdd | src/redis_clients.rs:51-52 | XADD succeeds exactly when the key is not a hash. It appends one entry whose id is past the last id and becomes the new last id, then trims to MAXLEN. On failure it is a WRONGTYPE error and nothing changes |
| RedisStore.XReadOldestAfter | src/redis_clients.rs:94-101 | XREAD with COUNT n answers with the oldest entries past the cursor: the nil reply exactly when no entry has a later id, and otherwise the one stream with the n entries from the first one past the cursor on, or all of them when fewer remain |
| RedisStore.HGetAfterHSet | src/schema_registry.rs:34-50 | on a key that is not a stream, HGET of the field HSET wrote reads back the value written, every other key and field reads as before, and reachability and the clock are unchanged |
| RedisStore.XAddKeepsValid | src/redis_clients.rs:51-52 | XADD keeps every stream's ids strictly increasing and none past its last id |
| RedisStore.HSetKeepsValid | src/schema_registry.rs:50 | HSET leaves every stream well formed |
| RedisStore.XAddTrims | src/redis_clients.rs:41-52 | an XADD with MAXLEN = n leaves at most n entries, the newest of the old entries plus the new one, and keeps the new entry unless n is 0 |
| RedisStore.NewestConcat | src/redis_clients.rs:48-55 | trimming after each append leaves the same entries as trimming once after all of them |
| RedisStore.AfterEntry | src/redis_clients.rs:87-91 | in an increasing stream, reading after an entry's id gives exactly the entries that follow it, so the returned id is a cursor that neither repeats nor skips |
| RedisStore.Store.XAdd | src/redis_clients.rs:51-52 | the live server changes as `Db.XAdd` states and stays well formed |
| RedisStore.Store.HSet | src/schema_registry.rs:50 | the live server changes as `Db.HSet` states and stays well formed |
| Schemas.JsonToAvroSchema | src/schema.rs:20-26 | succeeds exactly when the JSON parses to a record schema, and returns it unchanged. A non-record schema panics with "Expected Schema::Record", as does a parse error |
| Schemas.LoadSchemaStream | src/schema.rs:42-44 | `load_schema` succeeds exactly for an object whose `namespace` and `name` are strings, and names the stream `namespace:name` |
| Schemas.LoadSchemaPresence | src/schema.rs:46-48 | the schema is returned, as the whole document, exactly when the document has `fields` |
| Schemas.LoadSchemaFailures | src/schema.rs:42-44 | a missing `namespace`, then a missing `name`, then a non-string one each give their own panic |
| Schemas.LoadSchemaExamples | tests/test_schema.rs:8-19 | the two test schemas map to "schema1:raw" with a schema and to "schema2:raw" without one |
| Schemas.StreamNameInjective | src/schema.rs:44 | for namespaces without ':', the stream name determines namespace and name |
| Schemas.RegistrySetEffect | src/schema.rs:81-92 | `set` succeeds exactly when the server is reachable and the key is not a stream. It then stores the schema's text, or "" for none, under field "0" and overwrites the cache, and keeps every other key, every other field of that hash, reachability and the clock. A failure is an `Err` that changes nothing |
| Schemas.RegistryGetNeedsCache | src/schema.rs:69-79 | `get` succeeds only for a stream already cached, and changes only that stream's cache entry |
| Schemas.RegistrySetThenGet | tests/test_schema.rs:22-45 | `set` then `get` on the same instance returns the schema that was set |
| Schemas.RegistrySetNoneThenGet | src/schema.rs:85-88 | setting no schema stores "", so a later `get` panics |
| Schemas.RegistrySetNullThenGet | src/schema.rs:76-78 | setting the JSON value `null` stores text that reads back as no schema, so a later `get` caches `None` and panics in `as_ref().unwrap()` |
| Schemas.RegistryLastWriterWins | src/schema.rs:81-92 | of two `set`s on one stream, `get` returns the second |
| Schemas.RegistryGetFreshPanics | src/schema.rs:76 | a schema `set` by one instance makes `get` on a fresh instance panic in `insert(..).unwrap()` |
| Schemas.RegistryGetIntendedAfterOtherSet | src/schema.rs:69-79 | with the corrected `get`, any instance reads back the schema another instance set |
| Schemas.RegistryGetIntendedAgrees | src/schema.rs:69-79 | the corrected `get` differs from the written one only where the written one panics in `insert(..).unwrap()` on an uncached stream. Every error, every earlier panic, every success and the new cache are the same, and at that panic the corrected one succeeds or panics on a `null` schema |
| Schemas.SchemaRegistry.constructor | src/schema.rs:57-67 | a new registry has an empty cache |
| Schemas.SchemaRegistry.Get | src/schema.rs:69-79 | the method returns and caches what `RegistryGet` states, and only reads the server |
| Schemas.SchemaRegistry.Set | src/schema.rs:81-92 | the method changes the server and the cache as `RegistrySet` states |
| Encoders.NewAvroEncoder | src/encoder.rs:23-29 | `AvroEncoder::new` succeeds exactly when `json_to_avro_schema` does, holds the parsed record schema, and otherwise panics |
| Encoders.Filled | src/encoder.rs:35-38 | the record built from a datum has one pair per declared field, holding the datum's value, or `Null` when the datum has none |
| Encoders.Pack | src/encoder.rs:33-51 | the `put` loop over the datum, in any order of its keys, produces the bytes `PackSpec` states |
| Encoders.PicklePackIsEmpty | src/encoder.rs:49-51 | the pass-through encoder packs every datum to no bytes |
| Encoders.AvroPackOneRecord | src/encoder.rs:33-43 | an accepted datum is written as exactly one record, of the schema's fields in order. Names the schema does not declare are dropped, and missing ones are `Null` |
| Encoders.AvroPackRejected | src/encoder.rs:39 | a record the writer rejects is silently dropped, and the container holds no record |
| Encoders.CreateEncoderSucceeds | src/encoder.rs:54-63 | the factory succeeds exactly for "avro" (any case) with a schema that parses to a record and for "pickle" (any case) without a schema; every failure is a panic |
| Encoders.CreateEncoderFailures | src/encoder.rs:56-61 | no schema for Avro, or a schema for pickle, or an unknown name, each panics with its own message |
| Encoders.CreateEncoderIgnoresCase | src/encoder.rs:55 | names that lower-case alike select the same encoder |
| Encoders.CreateEncoderUpperCase | src/encoder.rs:55 | "AVRO" selects what "avro" selects |
| Encoders.CreateEncoderUnknown | src/encoder.rs:71-75 | "unknown" panics with "Unknown encoder name: unknown" |
| Encoders.CreateEncoderPickle | src/encoder.rs:57-60 | "Pickle" without a schema gives the pass-through encoder |
| Decoders.CreateDecoderSucceeds | src/decoder.rs:57-67 | the factory gives the Avro decoder exactly for "avro" and the pass-through decoder exactly for "pickle", in any case, and otherwise panics with the name |
| Decoders.CreateDecoderIgnoresSchema | src/redis_clients.rs:78-80 | the schema the call sites pass does not affect the decoder chosen |
| Decoders.CreateDecoderIgnoresCase | src/decoder.rs:58 | names that lower-case alike select the same decoder |
| Decoders.CreateDecoderUnknown | src/decoder.rs:85-89 | "unknown" panics with "Unknown decoder name: unknown" |
| Decoders.PairsToMapKeys | src/decoder.rs:29-33 | the map built from a record's pairs has exactly the pairs' names as keys |
| Decoders.PairsToMapLastWins | src/decoder.rs:29-33 | for each name the map holds the value of the last pair with it |
| Decoders.ItemsToMaps | src/decoder.rs:25-42 | the reader loop never returns `Err`. It succeeds exactly when every item is a record read without error, with one map per item, in order |
| Decoders.Unpack | src/decoder.rs:22-54 | the two nested loops compute what `UnpackSpec` states |
| Decoders.UnpackNeverErr | src/decoder.rs:22-54 | every failure of `unpack` is a panic; it never returns `Err` |
| Decoders.AvroUnpackOnePerRecord | src/decoder.rs:25-42 | the Avro decoder returns one map per item exactly when every item is a record |
| Decoders.AvroUnpackRejects | src/decoder.rs:35-38 | a non-record value or a read error anywhere among the items is a panic, not a skipped item |
| Decoders.PickleUnpackIsOneEmptyMap | src/decoder.rs:49-54 | the pass-through decoder returns one empty map for any bytes |
| Decoders.PickleRoundTrips | tests/test_encoder_decoder.rs:33-36 | the pass-through codecs round-trip exactly the empty datum |
| Decoders.PicklePackUnpack | src/decoder.rs:49-54 | a pass-through pack followed by unpack gives one empty map for every datum |
| Decoders.FilledToMap | src/decoder.rs:29-33 | reading back the record the encoder builds gives, for each declared name, the datum's value or `Null`, and no other key |
| Decoders.AvroRoundTrip | tests/test_encoder_decoder.rs:9-31 | a datum whose keys are exactly the schema's fields packs with Avro and unpacks to exactly one map, equal to the datum. This assumes the writer accepts the record and the reader reads back what the writer wrote |
| Decoders.AvroRejectedUnpacksEmpty | src/encoder.rs:39 | a datum the writer rejects unpacks to no map at all |
| SchemaRegistries.CachedGetHit | src/schema_registry.rs:29-31 | a cached stream is answered from the cache, whatever the server holds |
| SchemaRegistries.CachedGetMissFails | src/schema_registry.rs:33-40 | a cache miss never succeeds: it is a Redis error exactly when the server is unreachable and a panic otherwise, and it caches at most that stream |
| SchemaRegistries.CachedSetWhenCached | src/schema_registry.rs:44-46 | `set` on a cached stream succeeds without touching server or cache |
| SchemaRegistries.CachedSetWhenUncached | src/schema_registry.rs:48-53 | `set` on an uncached stream succeeds exactly when the server is reachable and the key is not a stream. It then writes the schema text under "schema", touches no other key, keeps reachability and the clock, and caches the schema |
| SchemaRegistries.CachedSetFailureKeepsCache | src/schema_registry.rs:48-51 | a failed `set` is an `Err` and changes neither cache nor server |
| SchemaRegistries.SetAllKeepsEntry | src/schema_registry.rs:43-54 | once cached, a stream's entry survives any series of `set` calls |
| SchemaRegistries.FirstWriterWins | src/schema_registry.rs:28-54 | after a successful first `set(stream, x)`, whatever `set`s follow, `get(stream)` returns x |
| SchemaRegistries.FreshInstanceOverwrites | src/schema_registry.rs:43-54 | a fresh instance overwrites the schema the server already holds |
| SchemaRegistries.CachedGetAfterOtherSetPanics | src/schema_registry.rs:38 | a schema `set` by one instance makes `get` on another instance panic in `insert(..).unwrap()` |
| SchemaRegistries.CachedGetIntendedAfterOtherSet | src/schema_registry.rs:33-40 | with the corrected `get`, any instance reads back and caches the schema another instance set |
| SchemaRegistries.CachedGetIntendedAgrees | src/schema_registry.rs:28-41 | the corrected `get` agrees with the written one except where the written one ends in the `insert` panic, where it succeeds |
| SchemaRegistries.CachedSchemaRegistry.constructor | src/schema_registry.rs:20-26 | a new registry shares the given server and has an empty cache |
| SchemaRegistries.CachedSchemaRegistry.Get | src/schema_registry.rs:28-41 | the method returns and caches what `CachedGet` states, and only reads the server |
| SchemaRegistries.CachedSchemaRegistry.Set | src/schema_registry.rs:43-54 | the method changes server and cache as `CachedSet` states and keeps streams well formed |
| RedisProducers.ProduceAppendsOne | src/redis_producer.rs:38-66 | a successful `produce` appends exactly one entry to the stream named by the record schema. The entry has the returned id and the single field "data" with the encoded datum. No earlier entry is dropped, and the schema is cached |
| RedisProducers.ProduceRegistersAfterAppend | src/redis_producer.rs:61-63 | the registry changes only after a successful append, and an unreachable server, a non-record schema or a failed encoding changes nothing |
| RedisProducers.ProduceEncodingPanics | src/redis_producer.rs:43-55 | a non-record schema and an encoding error are panics, not errors |
| RedisProducers.RedisProducer.constructor | src/redis_producer.rs:25-36 | producer and registry share one server, and the cache starts empty |
| RedisProducers.RedisProducer.Produce | src/redis_producer.rs:38-66 | the method changes server and cache and returns what `ProduceSpec` states |
| RedisClients.ProduceOneFrame | src/redis_clients.rs:48-55 | one record leaves reachability and the stream key's kind as they were, and keeps streams well formed |
| RedisClients.ProduceOnePerRecord | src/redis_clients.rs:46-56 | `produce` never returns `Err`. It panics exactly when there is a record and the encoder is unset or panics, and otherwise gives one result per record |
| RedisClients.ProduceIndependent | src/redis_clients.rs:48-55 | each record's result is that record's encoding error, the connection error, WRONGTYPE, or success, independently of the other records |
| RedisClients.ProduceStream | src/redis_clients.rs:41-55 | after `produce` the stream holds the newest `maxlen` of its old entries followed by the appended ones, or is unchanged if nothing was appended |
| RedisClients.ProduceIdsAfter | src/redis_clients.rs:51-52 | every returned id is past the stream's last id before the call, and the last id never moves back |
| RedisClients.ProduceOneStream | src/redis_clients.rs:49-54 | one record is either appended, with the returned id as the new last id, or fails and changes nothing |
| RedisClients.ProduceAllKeepsValid | src/redis_clients.rs:46-56 | `produce` keeps every stream well formed |
| RedisClients.ConsumeRequest | src/redis_clients.rs:92-101 | every read asks for COUNT 1 with the configured BLOCK, after the given id or after `$`. The only failure is a refused connection |
| RedisClients.ReceiveFirstAfter | src/redis_clients.rs:100-119 | a read succeeds exactly when an entry follows the cursor, it has "data", a decoder is set, and the field decodes to exactly one record. The result is that entry's id and record, and an empty read panics |
| RedisClients.ConsumeLatestAloneFails | src/redis_clients.rs:90-108 | reading `$` with nothing produced in between panics on the empty reply |
| RedisClients.ConsumeChainInOrder | src/redis_clients.rs:87-91 | reading on with each returned id as the next cursor returns the entries after the first cursor, in stream order, none skipped or repeated |
| RedisClients.ProduceThenConsume | src/redis_clients.rs:159-184 | if no more records than MAXLEN are produced and each round-trips through the codecs, every append succeeds. A consumer that read `$` before the first append then receives each record with its id, in production order |
| RedisClients.ConsumeAfterProduce | src/redis_clients.rs:166-180 | on the server state `produce` left, the chain of reads from the old last id returns each record with its returned id |
| RedisClients.ReadsBackAppended | src/redis_clients.rs:166-180 | a stream ending with the entries appended for round-tripping records is read back as those records with their ids |
| RedisClients.RedisProducer.constructor | src/redis_clients.rs:24-34 | a new producer has MAXLEN 10 and no encoder |
| RedisClients.RedisProducer.SetEncoder | src/redis_clients.rs:36-38 | the encoder becomes the one the factory builds; a factory panic leaves it unchanged |
| RedisClients.RedisProducer.SetMaxlen | src/redis_clients.rs:41-43 | MAXLEN becomes the given bound |
| RedisClients.RedisProducer.Produce | src/redis_clients.rs:46-56 | the loop over the records changes the server and returns what `ProduceAll` states |
| RedisClients.RedisConsumer.constructor | src/redis_clients.rs:66-76 | a new consumer has BLOCK 100 and no decoder |
| RedisClients.RedisConsumer.SetDecoder | src/redis_clients.rs:78-80 | the decoder becomes the one the factory builds; a factory panic leaves it unchanged |
| RedisClients.RedisConsumer.SetBlock | src/redis_clients.rs:83-85 | BLOCK becomes the given value |
| RedisClients.RedisConsumer.Consume | src/redis_clients.rs:92-120 | the method returns what `ConsumeSpec` states and changes nothing |

## Left out

- ZeroMQ, the Python package, `bridge.rs`, `main.rs` and the older copies under
  `src/redis_client/`, `src/redis_clients/`, `src/bridge/` and `src/zmq_clients/` are not
  part of this model.
- `load_schema`'s file read, its parse of the file as JSON, and its debug print are I/O. The
  model starts from the parsed document. The panic for a missing file is not modelled.
- Schemas.JsonToAvroSchema: the panic message for a non-record schema omits the
  `{:?}` of the schema, and a parse error's panic message is the generic unwrap message.
- RedisProducers.ProduceSpec: the panic for a failed `into_inner` carries the error's
  detail as its message, not the `{:?}` Debug text of the error.
- Float and double values are opaque bit patterns, and JSON numbers are integers; no
  floating point is modelled.
- serde_json, apache_avro's `Schema::parse`, its container writer and its reader are
  parameters. What is assumed of them appears as a named predicate in the `requires` of
  the lemmas that need it. `serde_json::to_string(&Schema)` is taken to succeed.
- Encoders.Pack: the iteration order of the `HashMap` is not modelled. The loop takes the
  datum's keys in any order, and the result is proved the same for every order.
- Values.Lower: only ASCII letters are lower-cased; Unicode case mapping is not modelled.
- The decoder file's signatures differ from their call sites: `create_decoder(name)` and
  an infallible `unpack`, called as `create_decoder(name, schema)` and `unpack(&b)?`. The
  model keeps the file's bodies and the call sites' signatures. The schema is ignored
  (`Decoders.CreateDecoderIgnoresSchema`) and `unpack` never returns `Err`
  (`Decoders.UnpackNeverErr`).
- A panic inside the decoder for a read error carries the error's detail as its message;
  Rust's `Display` text of the error is not modelled. Likewise the panic for an item
  that is not a record is "Unknown value type: " without the `{:?}` rendering of the
  value.
- Redis is the abstract server of `RedisStore`. Connection failures are a fixed
  `online` flag per call. The text of a `RedisError` is a fixed string.
- Stream ids are `<ms>-<n>` pairs, not text. The consumer therefore cannot pass a
  malformed id, and `$` is a separate case. The XADD clock is part of the server state,
  and `Store.Tick` advances it.
- Only byte strings are stored in stream fields. The consumer's `panic!()` for a
  non-`Data` field value therefore cannot occur.
- XREAD BLOCK: time is not modelled. A read is split into the request (`RequestSpec`,
  which resolves `$` when the command arrives) and the reply (`ReceiveSpec`, on the server
  state when the reply is sent). If nothing follows the cursor by then, the reply is the
  nil of an expired timeout. BLOCK 0, waiting forever, is not distinguished.
- The test's concurrency (`thread::spawn`) is not modelled. `ProduceThenConsume`
  evaluates every read on the state after all appends, which is the state a blocked reader
  sees when no other client writes. It does not cover a reader that wakes between two
  appends.
- `usize` and `i32` parameters (MAXLEN, BLOCK, port) are unbounded naturals. Host and port are
  not modelled, because `Client::open` only parses the address.

## Findings

| source | as written | input that shows it | evidently intended | confidence | as-written member | corrected member |
|---|---|---|---|---|---|---|
| src/schema_registry.rs:38 | `get` on an uncached stream ends with `self.schemas.insert(..).unwrap()`. `insert` returns the value it replaced, which is `None` for a key that was not cached, so on a reachable server every cache miss panics in `insert(..).unwrap()` (an unreachable server is an `Err` from `get_connection()?` at line 33 first). src/lib.rs declares no `mod schema_registry`, so the crate as built does not compile this file | instance A calls `set("s", x)`; a fresh instance B calls `get("s")` | cache the parsed schema and return it | high (not executed) | SchemaRegistries.CachedGetAfterOtherSetPanics | SchemaRegistries.CachedGetIntendedAfterOtherSet |
| src/schema.rs:76 | `SchemaRegistry::get` ends with the same `insert(..).unwrap()`. It succeeds only for a stream this instance already holds, so on a reachable server a reader that never called `set` panics in `insert(..).unwrap()` (an unreachable server is an `Err` from `get_connection()?` at line 70 first) | instance A calls `set("schema1:raw", Some(j))`; a fresh instance B calls `get("schema1:raw")` | cache the parsed schema and return it | high (not executed) | Schemas.RegistryGetFreshPanics | Schemas.RegistryGetIntendedAfterOtherSet |

The classes keep the code as written. The corrected functions (`CachedGetIntended`,
`RegistryGetIntended`) belong to the findings only; nothing else in the model calls `get`.
