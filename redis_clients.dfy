/** src/redis_clients.rs: a stream producer that packs each record with its
    encoder and appends it with `XADD key MAXLEN = n * data <bytes>`, and a stream
    consumer that reads one entry at a time with `XREAD COUNT 1 BLOCK b` and
    decodes its "data" field into one record. */
module RedisClients {
  import opened Errors
  import opened Values
  import opened Libraries
  import opened RedisStore
  import opened Encoders
  import opened Decoders

  const DataField: string := "data"
  /** `StreamMaxlen::Equals(10)`, the producer's initial trimming bound. */
  const DefaultMaxlen: nat := 10
  /** The consumer's initial BLOCK, in milliseconds. */
  const DefaultBlock: nat := 100
  /** `COUNT` of every read. */
  const Count: nat := 1

  // ---------------------------------------------------------------- producer

  /** The closure `produce` maps over the records, for one record: unwrap the
      encoder, pack (`?`), open a connection (`?`), append (`?`). A panic aborts
      the whole call. */
  function ProduceOne(libs: Libs, db: Db, maxlen: nat, encoder: Option<Encoder>, datum: Decoded, stream: string)
    : (res: (Db, Result<StreamId>))
  {
    if encoder.None? then (db, Panic(UnwrapNone))
    else
      var packed := PackSpec(libs, encoder.value, datum);
      if packed.Panic? then (db, Panic(packed.message))
      else if packed.Err? then (db, Err(packed.error))
      else if !db.online then (db, Err(RedisError(ConnectionRefused)))
      else db.XAdd(stream, Some(maxlen), map[DataField := packed.value])
  }

  /** `produce`: the records in order, each on the server state the previous ones
      left; the collected results, or the panic of the first record that panics. */
  function ProduceAll(libs: Libs, db: Db, maxlen: nat, encoder: Option<Encoder>, records: seq<Decoded>, stream: string)
    : (res: (Db, Result<seq<Result<StreamId>>>))
    decreases |records|
  {
    if records == [] then (db, Ok([]))
    else
      var (db1, first) := ProduceOne(libs, db, maxlen, encoder, records[0], stream);
      if first.Panic? then (db1, Panic(first.message))
      else
        var (db2, rest) := ProduceAll(libs, db1, maxlen, encoder, records[1..], stream);
        (db2, Prefixed([first], rest))
  }

  /** One record leaves the connection state and the kind of the stream's key as
      they were, and changes no key but the stream's. */
  lemma {:induction false} ProduceOneFrame(libs: Libs, db: Db, maxlen: nat, encoder: Option<Encoder>, datum: Decoded, stream: string)
    ensures var (db1, _) := ProduceOne(libs, db, maxlen, encoder, datum, stream);
      && db1.online == db.online
      && db1.IsHash(stream) == db.IsHash(stream)
      && (db.Valid() ==> db1.Valid())
  {
    if db.Valid() && encoder.Some? && PackSpec(libs, encoder.value, datum).Ok? && db.online {
      XAddKeepsValid(db, stream, Some(maxlen), map[DataField := PackSpec(libs, encoder.value, datum).value]);
    }
  }

  /** The whole call either panics or returns one result per record, in input
      order; it panics exactly when there is a record and the encoder is unset or
      panics on one of the records. */
  lemma {:induction false} ProduceOnePerRecord(libs: Libs, db: Db, maxlen: nat, encoder: Option<Encoder>,
                                               records: seq<Decoded>, stream: string)
    ensures var r := ProduceAll(libs, db, maxlen, encoder, records, stream).1;
      && !r.Err?
      && (r.Ok? <==> records == [] || (encoder.Some? && forall i :: 0 <= i < |records| ==>
                                                          !PackSpec(libs, encoder.value, records[i]).Panic?))
      && (r.Ok? ==> |r.value| == |records|)
    decreases |records|
  {
    if records != [] {
      var (db1, first) := ProduceOne(libs, db, maxlen, encoder, records[0], stream);
      ProduceOnePerRecord(libs, db1, maxlen, encoder, records[1..], stream);
      if encoder.Some? {
        assert forall i :: 1 <= i < |records| ==> records[1..][i - 1] == records[i];
      }
    }
  }

  /** Each record's result depends on that record alone: an encoding error is that
      record's error, a refused connection or a key holding a hash gives that
      error, and otherwise the record is appended. No record's failure affects
      another record. */
  lemma {:induction false} ProduceIndependent(libs: Libs, db: Db, maxlen: nat, encoder: Encoder,
                                              records: seq<Decoded>, stream: string)
    requires forall i :: 0 <= i < |records| ==> !PackSpec(libs, encoder, records[i]).Panic?
    ensures var r := ProduceAll(libs, db, maxlen, Some(encoder), records, stream).1;
      && r.Ok? && |r.value| == |records|
      && forall i :: 0 <= i < |records| ==>
           var packed := PackSpec(libs, encoder, records[i]);
           && (packed.Err? ==> r.value[i] == Err(packed.error))
           && (packed.Ok? && !db.online ==> r.value[i] == Err(RedisError(ConnectionRefused)))
           && (packed.Ok? && db.online && db.IsHash(stream) ==> r.value[i] == Err(RedisError(WrongType)))
           && (r.value[i].Ok? <==> packed.Ok? && db.online && !db.IsHash(stream))
    decreases |records|
  {
    ProduceOnePerRecord(libs, db, maxlen, Some(encoder), records, stream);
    if records != [] {
      var (db1, first) := ProduceOne(libs, db, maxlen, Some(encoder), records[0], stream);
      ProduceOneFrame(libs, db, maxlen, Some(encoder), records[0], stream);
      var tail := records[1..];
      assert forall i :: 0 <= i < |tail| ==> tail[i] == records[i + 1];
      ProduceIndependent(libs, db1, maxlen, encoder, tail, stream);
    }
  }

  /** The entries the successful records appended, in order: each with the id
      returned for it and the single field "data" holding its packed bytes. */
  function Appended(libs: Libs, encoder: Encoder, records: seq<Decoded>, results: seq<Result<StreamId>>): (es: seq<Entry>)
    requires |records| == |results|
    decreases |records|
  {
    if records == [] then []
    else
      var packed := PackSpec(libs, encoder, records[0]);
      (if results[0].Ok? && packed.Ok? then [Entry(results[0].value, map[DataField := packed.value])] else [])
      + Appended(libs, encoder, records[1..], results[1..])
  }

  /** After `produce`, the stream holds the newest `maxlen` of its old entries
      followed by the appended ones (untouched if nothing was appended): trimming
      after every XADD keeps the same entries as trimming once at the end. */
  lemma {:induction false} ProduceStream(libs: Libs, db: Db, maxlen: nat, encoder: Encoder,
                                         records: seq<Decoded>, stream: string)
    requires forall i :: 0 <= i < |records| ==> !PackSpec(libs, encoder, records[i]).Panic?
    requires !db.IsHash(stream)
    ensures var res := ProduceAll(libs, db, maxlen, Some(encoder), records, stream);
      && res.1.Ok? && |res.1.value| == |records|
      && !res.0.IsHash(stream)
      && res.0.StreamAt(stream).entries
         == Trimmed(db.StreamAt(stream).entries, Appended(libs, encoder, records, res.1.value), maxlen)
    decreases |records|
  {
    ProduceOnePerRecord(libs, db, maxlen, Some(encoder), records, stream);
    if records != [] {
      var one := ProduceOne(libs, db, maxlen, Some(encoder), records[0], stream);
      var db1, first := one.0, one.1;
      ProduceOneStream(libs, db, maxlen, encoder, records[0], stream);
      var tail := records[1..];
      assert forall i :: 0 <= i < |tail| ==> tail[i] == records[i + 1];
      ProduceStream(libs, db1, maxlen, encoder, tail, stream);
      ProduceAllStep(libs, db, maxlen, Some(encoder), records, stream);
      var rest := ProduceAll(libs, db1, maxlen, Some(encoder), tail, stream);
      var res := ProduceAll(libs, db, maxlen, Some(encoder), records, stream);
      assert res.0 == rest.0;
      assert res.1.value == [first] + rest.1.value;
      AppendedStep(libs, encoder, records, res.1.value, first, rest.1.value);
      var later := Appended(libs, encoder, tail, rest.1.value);
      var prior := db.StreamAt(stream).entries;
      var s1 := db1.StreamAt(stream).entries;
      assert rest.0.StreamAt(stream).entries == Trimmed(s1, later, maxlen);
      if first.Ok? {
        var e := Entry(first.value, map[DataField := PackSpec(libs, encoder, records[0]).value]);
        assert Appended(libs, encoder, records, res.1.value) == [e] + later;
        assert s1 == Newest(prior + [e], maxlen);
        TrimmedStep(prior, e, later, maxlen);
      } else {
        assert db1 == db;
        assert Appended(libs, encoder, records, res.1.value) == later;
      }
    }
  }

  /** The stream after appending `added` under MAXLEN = n: unchanged when nothing
      was appended, the newest `n` of all entries otherwise. */
  function Trimmed(es: seq<Entry>, added: seq<Entry>, n: nat): seq<Entry>
  {
    if added == [] then es else Newest(es + added, n)
  }

  lemma {:induction false} TrimmedStep(es: seq<Entry>, e: Entry, later: seq<Entry>, n: nat)
    ensures Trimmed(Newest(es + [e], n), later, n) == Trimmed(es, [e] + later, n)
  {
    if later != [] {
      NewestConcat(es + [e], later, n);
      assert es + [e] + later == es + ([e] + later);
    }
  }

  /** Every id `produce` returns is past the stream's last id before the call. */
  lemma {:induction false} ProduceIdsAfter(libs: Libs, db: Db, maxlen: nat, encoder: Encoder,
                                           records: seq<Decoded>, stream: string)
    requires forall i :: 0 <= i < |records| ==> !PackSpec(libs, encoder, records[i]).Panic?
    requires !db.IsHash(stream)
    ensures var (db', r) := ProduceAll(libs, db, maxlen, Some(encoder), records, stream);
      && r.Ok? && |r.value| == |records|
      && !Less(db'.LastId(stream), db.LastId(stream))
      && forall j :: 0 <= j < |records| && r.value[j].Ok? ==> Less(db.LastId(stream), r.value[j].value)
    decreases |records|
  {
    ProduceOnePerRecord(libs, db, maxlen, Some(encoder), records, stream);
    if records != [] {
      var (db1, first) := ProduceOne(libs, db, maxlen, Some(encoder), records[0], stream);
      ProduceOneStream(libs, db, maxlen, encoder, records[0], stream);
      var tail := records[1..];
      assert forall i :: 0 <= i < |tail| ==> tail[i] == records[i + 1];
      ProduceIdsAfter(libs, db1, maxlen, encoder, tail, stream);
      var r := ProduceAll(libs, db, maxlen, Some(encoder), records, stream).1;
      var rest := ProduceAll(libs, db1, maxlen, Some(encoder), tail, stream).1;
      assert r.value == [first] + rest.value;
    }
  }

  /** One record on a key that is not a hash: it is appended, with an id past the
      stream's last id that becomes the new last id, and the stream trimmed; or it
      fails and nothing changes. */
  lemma {:induction false} ProduceOneStream(libs: Libs, db: Db, maxlen: nat, encoder: Encoder, datum: Decoded, stream: string)
    requires !PackSpec(libs, encoder, datum).Panic? && !db.IsHash(stream)
    ensures var (db1, r) := ProduceOne(libs, db, maxlen, Some(encoder), datum, stream);
      && !r.Panic? && !db1.IsHash(stream) && db1.online == db.online
      && (r.Ok? ==> && PackSpec(libs, encoder, datum).Ok?
                    && db1.StreamAt(stream).entries
                       == Newest(db.StreamAt(stream).entries
                                 + [Entry(r.value, map[DataField := PackSpec(libs, encoder, datum).value])], maxlen)
                    && db1.LastId(stream) == r.value
                    && Less(db.LastId(stream), r.value))
      && (!r.Ok? ==> db1 == db)
  {
  }

  /** `produce` on records whose first one does not panic: that record's outcome,
      then the rest on the state it left. */
  lemma {:induction false} ProduceAllStep(libs: Libs, db: Db, maxlen: nat, encoder: Option<Encoder>,
                                          records: seq<Decoded>, stream: string)
    requires records != []
    requires !ProduceOne(libs, db, maxlen, encoder, records[0], stream).1.Panic?
    ensures var (db1, first) := ProduceOne(libs, db, maxlen, encoder, records[0], stream);
      var rest := ProduceAll(libs, db1, maxlen, encoder, records[1..], stream);
      ProduceAll(libs, db, maxlen, encoder, records, stream) == (rest.0, Prefixed([first], rest.1))
  {
  }

  /** The first record's contribution to `Appended`. */
  lemma {:induction false} AppendedStep(libs: Libs, encoder: Encoder, records: seq<Decoded>, results: seq<Result<StreamId>>,
                                        first: Result<StreamId>, rest: seq<Result<StreamId>>)
    requires records != [] && results == [first] + rest && |rest| == |records| - 1
    requires first.Ok? ==> PackSpec(libs, encoder, records[0]).Ok?
    ensures Appended(libs, encoder, records, results)
            == (if first.Ok? then [Entry(first.value, map[DataField := PackSpec(libs, encoder, records[0]).value])] else [])
               + Appended(libs, encoder, records[1..], rest)
  {
    assert results[0] == first && results[1..] == rest;
  }

  // ---------------------------------------------------------------- consumer

  /** The XREAD a `consume` call sends: the stream, the id to read after (`$`,
      the stream's last id when the command arrives, if no id is given), COUNT
      and BLOCK. */
  datatype ReadRequest = ReadRequest(stream: string, start: StreamId, count: nat, block: nat)

  /** Opening the connection (`?`) and forming the request. */
  function RequestSpec(db: Db, block: nat, stream: string, id: Option<StreamId>): (r: Result<ReadRequest>)
  {
    if !db.online then Err(RedisError(ConnectionRefused))
    else Ok(ReadRequest(stream, if id.Some? then id.value else db.LastId(stream), Count, block))
  }

  /** What `consume` makes of the reply to a read after `start`, as the server in
      state `db` sends it: the reply (`?`) must name one stream, `stream`, with one
      entry; its "data" field (`unwrap`) is unpacked by the decoder (`unwrap`, `?`)
      into exactly one record; the result pairs the entry's id with that record. */
  function ReceiveSpec(libs: Libs, db: Db, decoder: Option<Decoder>, stream: string, start: StreamId)
    : (r: Result<(StreamId, Decoded)>)
  {
    var reply := db.XRead(stream, start, Count);
    if reply.Err? then Err(reply.error)
    else if reply.Panic? then Panic(reply.message)
    else
      var keys := reply.value.keys;
      if |keys| != 1 || keys[0].key != stream || |keys[0].ids| != Count then Panic(AssertEqFailed)
      else
        var entry := keys[0].ids[0];
        if DataField !in entry.fields || decoder.None? then Panic(UnwrapNone)
        else
          var decoded := UnpackSpec(libs, decoder.value, entry.fields[DataField]);
          if decoded.Err? then Err(decoded.error)
          else if decoded.Panic? then Panic(decoded.message)
          else if |decoded.value| != 1 then Panic(AssertEqFailed)
          else Ok((entry.id, decoded.value[0]))
  }

  /** `consume` when nothing changes the server between the request and the reply. */
  function ConsumeSpec(libs: Libs, db: Db, block: nat, decoder: Option<Decoder>, stream: string, id: Option<StreamId>)
    : (r: Result<(StreamId, Decoded)>)
  {
    var request := RequestSpec(db, block, stream, id);
    if request.Err? then Err(request.error)
    else if request.Panic? then Panic(request.message)
    else ReceiveSpec(libs, db, decoder, stream, request.value.start)
  }

  /** Every read asks for one entry with the configured BLOCK, after the given id,
      or after `$` (the stream's last id) when none is given. */
  lemma {:induction false} ConsumeRequest(db: Db, block: nat, stream: string, id: Option<StreamId>)
    ensures var r := RequestSpec(db, block, stream, id);
      && (r.Ok? <==> db.online)
      && (!r.Ok? ==> r == Err(RedisError(ConnectionRefused)))
      && (r.Ok? ==> && r.value.stream == stream && r.value.count == 1 && r.value.block == block
                    && r.value.start == (if id.Some? then id.value else db.LastId(stream)))
  {
  }

  /** A read succeeds exactly when an entry follows `start`, it has a "data" field,
      a decoder is set, and the field decodes to exactly one record; the result is
      that entry's id and record. */
  lemma {:induction false} ReceiveFirstAfter(libs: Libs, db: Db, decoder: Option<Decoder>, stream: string, start: StreamId)
    requires !db.IsHash(stream)
    ensures var news := After(db.StreamAt(stream).entries, start);
      var r := ReceiveSpec(libs, db, decoder, stream, start);
      && (r.Ok? <==> && news != [] && DataField in news[0].fields && decoder.Some?
                     && UnpackSpec(libs, decoder.value, news[0].fields[DataField]).Ok?
                     && |UnpackSpec(libs, decoder.value, news[0].fields[DataField]).value| == 1)
      && (r.Ok? ==> r.value == (news[0].id, UnpackSpec(libs, decoder.value, news[0].fields[DataField]).value[0]))
      && (news == [] ==> r == Panic(AssertEqFailed))
  {
    var news := After(db.StreamAt(stream).entries, start);
    if news != [] {
      var reply := db.XRead(stream, start, Count);
      assert reply.value.keys[0].ids == news[..1];
    }
  }

  /** With nothing produced between request and reply, a read of the latest entry
      (`$`) never succeeds: no entry lies after the stream's last id, so the read
      times out and the emptiness assertion fails. */
  lemma {:induction false} ConsumeLatestAloneFails(libs: Libs, db: Db, block: nat, decoder: Option<Decoder>, stream: string)
    requires db.Valid() && db.online && !db.IsHash(stream)
    ensures ConsumeSpec(libs, db, block, decoder, stream, None) == Panic(AssertEqFailed)
  {
    var es := db.StreamAt(stream).entries;
    AfterNone(es, db.LastId(stream));
    ReceiveFirstAfter(libs, db, decoder, stream, db.LastId(stream));
  }

  /** No entry of a stream lies after an id no entry exceeds. */
  lemma {:induction false} AfterNone(es: seq<Entry>, start: StreamId)
    requires forall i :: 0 <= i < |es| ==> !Less(start, es[i].id)
    ensures After(es, start) == []
    decreases |es|
  {
    if es != [] {
      AfterNone(es[1..], start);
    }
  }

  /** A series of `n` reads where each read's cursor is the id the previous one
      returned, all answered by the server in state `db`. */
  function ConsumeChain(libs: Libs, db: Db, decoder: Option<Decoder>, stream: string, start: StreamId, n: nat)
    : (r: Result<seq<(StreamId, Decoded)>>)
    decreases n
  {
    if n == 0 then Ok([])
    else
      var first := ReceiveSpec(libs, db, decoder, stream, start);
      if first.Err? then Err(first.error)
      else if first.Panic? then Panic(first.message)
      else Prefixed([first.value], ConsumeChain(libs, db, decoder, stream, first.value.0, n - 1))
  }

  /** An entry a read turns into a success: it has a "data" field, which the
      decoder unpacks into exactly one record. */
  predicate Deliverable(libs: Libs, decoder: Decoder, e: Entry)
  {
    && DataField in e.fields
    && UnpackSpec(libs, decoder, e.fields[DataField]).Ok?
    && |UnpackSpec(libs, decoder, e.fields[DataField]).value| == 1
  }

  /** What a successful read returns for `e`: its id and its one record. */
  function Delivered(libs: Libs, decoder: Decoder, e: Entry): (StreamId, Decoded)
  {
    (e.id, if Deliverable(libs, decoder, e) then UnpackSpec(libs, decoder, e.fields[DataField]).value[0] else map[])
  }

  /** What a successful read returns for each of `es`, in order. */
  function Deliveries(libs: Libs, decoder: Decoder, es: seq<Entry>): seq<(StreamId, Decoded)>
  {
    seq(|es|, i requires 0 <= i < |es| => Delivered(libs, decoder, es[i]))
  }

  lemma {:induction false} DeliveriesCons(libs: Libs, decoder: Decoder, es: seq<Entry>)
    requires es != []
    ensures Deliveries(libs, decoder, es) == [Delivered(libs, decoder, es[0])] + Deliveries(libs, decoder, es[1..])
  {
    var l, r := Deliveries(libs, decoder, es), [Delivered(libs, decoder, es[0])] + Deliveries(libs, decoder, es[1..]);
    assert |l| == |r|;
    forall i | 0 <= i < |l| ensures l[i] == r[i] {
      if i > 0 {
        assert es[1..][i - 1] == es[i];
      }
    }
  }

  /** Reading from the first entry after `start` with each returned id as the next
      cursor visits the entries in stream order, none skipped and none twice: the
      `n` reads return the last `n` entries, `k` being the number before them. */
  lemma {:induction false} ConsumeChainInOrder(libs: Libs, db: Db, decoder: Decoder, stream: string,
                                               start: StreamId, k: nat, n: nat)
    requires !db.IsHash(stream)
    requires var es := db.StreamAt(stream).entries;
      && Increasing(es) && k + n == |es| && After(es, start) == es[k..]
      && forall j :: k <= j < |es| ==> Deliverable(libs, decoder, es[j])
    ensures var r := ConsumeChain(libs, db, Some(decoder), stream, start, n);
      r.Ok? && r.value == Deliveries(libs, decoder, db.StreamAt(stream).entries[k..])
    decreases n
  {
    var es := db.StreamAt(stream).entries;
    if n > 0 {
      var head := Delivered(libs, decoder, es[k]);
      assert ReceiveSpec(libs, db, Some(decoder), stream, start) == Ok(head) by {
        ReceiveFirstAfter(libs, db, Some(decoder), stream, start);
        assert After(es, start)[0] == es[k];
      }
      AfterEntry(es, k);
      ConsumeChainInOrder(libs, db, decoder, stream, es[k].id, k + 1, n - 1);
      var rest := ConsumeChain(libs, db, Some(decoder), stream, es[k].id, n - 1);
      assert ConsumeChain(libs, db, Some(decoder), stream, start, n) == Prefixed([head], rest);
      DeliveriesCons(libs, decoder, es[k..]);
      assert es[k..][1..] == es[k + 1..];
    } else {
      assert es[k..] == [];
    }
  }

  /** End to end: a producer appends records to a stream while a consumer that
      asked for the latest entry (`$`) before the first append reads on, each time
      after the id it got last. If every record round-trips through the codecs and
      no more records are produced than MAXLEN keeps, every append succeeds and the
      consumer receives each record with its id, in production order. */
  lemma {:induction false} ProduceThenConsume(libs: Libs, db: Db, maxlen: nat, encoder: Encoder, decoder: Decoder,
                                              records: seq<Decoded>, stream: string)
    requires db.Valid() && db.online && !db.IsHash(stream)
    requires |records| <= maxlen
    requires forall i :: 0 <= i < |records| ==> RoundTrips(libs, encoder, decoder, records[i])
    ensures var res := ProduceAll(libs, db, maxlen, Some(encoder), records, stream);
      && res.1.Ok? && |res.1.value| == |records|
      && (forall i :: 0 <= i < |records| ==> res.1.value[i].Ok?)
      && var got := ConsumeChain(libs, res.0, Some(decoder), stream, db.LastId(stream), |records|);
         && got.Ok? && |got.value| == |records|
         && forall i :: 0 <= i < |records| ==> got.value[i] == (res.1.value[i].value, records[i])
  {
    assert forall i :: 0 <= i < |records| ==> PackSpec(libs, encoder, records[i]).Ok?;
    var res := ProduceAll(libs, db, maxlen, Some(encoder), records, stream);
    assert res.1.Ok? && |res.1.value| == |records| && forall i :: 0 <= i < |records| ==> res.1.value[i].Ok? by {
      ProduceIndependent(libs, db, maxlen, encoder, records, stream);
    }
    if records != [] {
      var r := res.1.value;
      assert !res.0.IsHash(stream)
             && res.0.StreamAt(stream).entries
                == Trimmed(db.StreamAt(stream).entries, Appended(libs, encoder, records, r), maxlen) by {
        ProduceStream(libs, db, maxlen, encoder, records, stream);
      }
      assert forall j :: 0 <= j < |records| ==> Less(db.LastId(stream), r[j].value) by {
        ProduceIdsAfter(libs, db, maxlen, encoder, records, stream);
      }
      assert res.0.Valid() by {
        ProduceAllKeepsValid(libs, db, maxlen, Some(encoder), records, stream);
      }
      ConsumeAfterProduce(libs, db, res.0, maxlen, encoder, decoder, records, r, stream);
    }
  }

  /** The consumer's side of `ProduceThenConsume`, on the server state `db'` that
      `produce` left, where the results `r` are all successes. */
  lemma {:induction false} ConsumeAfterProduce(libs: Libs, db: Db, db': Db, maxlen: nat, encoder: Encoder, decoder: Decoder,
                                               records: seq<Decoded>, r: seq<Result<StreamId>>, stream: string)
    requires db.Valid() && db'.Valid() && !db.IsHash(stream) && !db'.IsHash(stream)
    requires records != [] && |records| <= maxlen && |r| == |records|
    requires forall i :: 0 <= i < |records| ==>
      && r[i].Ok? && RoundTrips(libs, encoder, decoder, records[i]) && Less(db.LastId(stream), r[i].value)
    requires db'.StreamAt(stream).entries == Trimmed(db.StreamAt(stream).entries, Appended(libs, encoder, records, r), maxlen)
    ensures var got := ConsumeChain(libs, db', Some(decoder), stream, db.LastId(stream), |records|);
      && got.Ok? && |got.value| == |records|
      && forall i :: 0 <= i < |records| ==> got.value[i] == (r[i].value, records[i])
  {
    var added := Appended(libs, encoder, records, r);
    AppendedAll(libs, encoder, records, r);
    FinalStreamReads(db, db', stream, added, maxlen);
    ReadsBackAppended(libs, db', encoder, decoder, stream, db.LastId(stream), records, r);
  }

  /** A stream that ends with the entries appended for `records` and holds nothing
      else after `start` is read back, cursor after cursor, as those records with
      their ids, given that the codecs round-trip each record. */
  lemma {:induction false} ReadsBackAppended(libs: Libs, db: Db, encoder: Encoder, decoder: Decoder, stream: string,
                                             start: StreamId, records: seq<Decoded>, results: seq<Result<StreamId>>)
    requires !db.IsHash(stream)
    requires |records| == |results|
    requires forall i :: 0 <= i < |records| ==> results[i].Ok? && RoundTrips(libs, encoder, decoder, records[i])
    requires var es := db.StreamAt(stream).entries;
      && Increasing(es) && |records| <= |es|
      && es[|es| - |records|..] == Appended(libs, encoder, records, results)
      && After(es, start) == es[|es| - |records|..]
    ensures var got := ConsumeChain(libs, db, Some(decoder), stream, start, |records|);
      && got.Ok? && |got.value| == |records|
      && forall i :: 0 <= i < |records| ==> got.value[i] == (results[i].value, records[i])
  {
    var es := db.StreamAt(stream).entries;
    var k := |es| - |records|;
    AppendedAll(libs, encoder, records, results);
    var added := Appended(libs, encoder, records, results);
    forall j | k <= j < |es| ensures Deliverable(libs, decoder, es[j]) {
      assert es[j] == added[j - k];
    }
    ConsumeChainInOrder(libs, db, decoder, stream, start, k, |records|);
    forall i | 0 <= i < |records| ensures Delivered(libs, decoder, added[i]) == (results[i].value, records[i]) {
    }
  }

  /** The stream after `produce` appended `added` (all of it kept by MAXLEN) ends
      with `added`, and what follows the old last id is exactly `added`. */
  lemma {:induction false} FinalStreamReads(db: Db, db': Db, stream: string, added: seq<Entry>, maxlen: nat)
    requires db.Valid() && db'.Valid() && !db.IsHash(stream) && !db'.IsHash(stream)
    requires added != [] && |added| <= maxlen
    requires forall j :: 0 <= j < |added| ==> Less(db.LastId(stream), added[j].id)
    requires db'.StreamAt(stream).entries == Trimmed(db.StreamAt(stream).entries, added, maxlen)
    ensures var es := db'.StreamAt(stream).entries;
      && Increasing(es) && |added| <= |es|
      && es[|es| - |added|..] == added
      && After(es, db.LastId(stream)) == es[|es| - |added|..]
  {
    StreamAtWellFormed(db, stream);
    StreamAtWellFormed(db', stream);
    assert db.LastId(stream) == db.StreamAt(stream).lastId;
    NewestAfter(db.StreamAt(stream).entries, added, db.LastId(stream), maxlen);
  }

  /** Entries appended with ids past `start`, all kept by the trim, are exactly
      what follows `start` in the trimmed stream, at its end. */
  lemma {:induction false} NewestAfter(prior: seq<Entry>, added: seq<Entry>, start: StreamId, n: nat)
    requires |added| <= n
    requires forall i :: 0 <= i < |prior| ==> !Less(start, prior[i].id)
    requires forall j :: 0 <= j < |added| ==> Less(start, added[j].id)
    requires Increasing(Newest(prior + added, n))
    ensures var es := Newest(prior + added, n);
      && |added| <= |es|
      && es[|es| - |added|..] == added
      && After(es, start) == es[|es| - |added|..]
  {
    var all := prior + added;
    var es := Newest(all, n);
    var k := |es| - |added|;
    var d := |all| - |es|;
    assert es == all[d..];
    assert es[k..] == added by {
      assert all[d..][k..] == all[|prior|..];
    }
    assert forall i :: 0 <= i < k ==> !Less(start, es[i].id) by {
      forall i | 0 <= i < k ensures !Less(start, es[i].id) {
        assert es[i] == prior[d + i];
      }
    }
    assert forall i :: k <= i < |es| ==> Less(start, es[i].id) by {
      forall i | k <= i < |es| ensures Less(start, es[i].id) {
        assert es[i] == es[k..][i - k];
      }
    }
    AfterSuffix(es, start, k);
  }

  /** When every record was appended, the appended entries are one per record, in
      order, each carrying its id and packed bytes. */
  lemma {:induction false} AppendedAll(libs: Libs, encoder: Encoder, records: seq<Decoded>, results: seq<Result<StreamId>>)
    requires |records| == |results|
    requires forall i :: 0 <= i < |records| ==> results[i].Ok? && PackSpec(libs, encoder, records[i]).Ok?
    ensures var added := Appended(libs, encoder, records, results);
      && |added| == |records|
      && forall i :: 0 <= i < |records| ==>
           added[i] == Entry(results[i].value, map[DataField := PackSpec(libs, encoder, records[i]).value])
    decreases |records|
  {
    if records != [] {
      AppendedAll(libs, encoder, records[1..], results[1..]);
    }
  }

  /** `produce` keeps every stream well formed. */
  lemma {:induction false} ProduceAllKeepsValid(libs: Libs, db: Db, maxlen: nat, encoder: Option<Encoder>,
                                                records: seq<Decoded>, stream: string)
    requires db.Valid()
    ensures ProduceAll(libs, db, maxlen, encoder, records, stream).0.Valid()
    decreases |records|
  {
    if records != [] {
      var (db1, first) := ProduceOne(libs, db, maxlen, encoder, records[0], stream);
      ProduceOneFrame(libs, db, maxlen, encoder, records[0], stream);
      if !first.Panic? {
        ProduceAllKeepsValid(libs, db1, maxlen, encoder, records[1..], stream);
      }
    }
  }

  // ---------------------------------------------------------------- classes

  /** `RedisProducer` of src/redis_clients.rs. */
  class RedisProducer {
    const store: Store
    var maxlen: nat
    var encoder: Option<Encoder>

    constructor (store: Store)
      ensures this.store == store && maxlen == DefaultMaxlen && encoder == None
    {
      this.store := store;
      maxlen := DefaultMaxlen;
      encoder := None;
    }

    /** `set_encoder`: a name or schema `create_encoder` refuses panics, leaving
        the encoder as it was. */
    method SetEncoder(libs: Libs, name: string, schema: Option<Json>) returns (r: Result<()>)
      modifies this`encoder
      ensures var created := CreateEncoder(libs, name, schema);
        && (created.Ok? ==> r == Ok(()) && encoder == Some(created.value))
        && (!created.Ok? ==> r == Panic(created.message) && encoder == old(encoder))
    {
      var created := CreateEncoder(libs, name, schema);
      if !created.Ok? {
        return Panic(created.message);
      }
      encoder := Some(created.value);
      r := Ok(());
    }

    method SetMaxlen(n: nat)
      modifies this`maxlen
      ensures maxlen == n
    {
      maxlen := n;
    }

    method Produce(libs: Libs, records: seq<Decoded>, stream: string) returns (r: Result<seq<Result<StreamId>>>)
      requires store.Valid()
      modifies store
      ensures store.Valid()
      ensures (store.Snapshot(), r) == ProduceAll(libs, old(store.Snapshot()), maxlen, encoder, records, stream)
    {
      ghost var db0 := store.Snapshot();
      var results: seq<Result<StreamId>> := [];
      var i := 0;
      assert records[0..] == records;
      PrefixedNothing(ProduceAll(libs, db0, maxlen, encoder, records, stream).1);
      while i < |records|
        invariant 0 <= i <= |records|
        invariant store.Valid()
        invariant var (db, rest) := ProduceAll(libs, store.Snapshot(), maxlen, encoder, records[i..], stream);
          ProduceAll(libs, db0, maxlen, encoder, records, stream) == (db, Prefixed(results, rest))
      {
        assert records[i..][0] == records[i] && records[i..][1..] == records[i + 1..];
        ghost var before := store.Snapshot();
        if encoder.None? {
          return Panic(UnwrapNone);
        }
        var packed := Pack(libs, encoder.value, records[i]);
        if packed.Panic? {
          return Panic(packed.message);
        }
        var one: Result<StreamId>;
        if packed.Err? {
          one := Err(packed.error);
        } else if !store.Snapshot().Connect().Ok? {
          one := Err(RedisError(ConnectionRefused));
        } else {
          one := store.XAdd(stream, Some(maxlen), map[DataField := packed.value]);
        }
        assert (store.Snapshot(), one) == ProduceOne(libs, before, maxlen, encoder, records[i], stream);
        PrefixedTwice(results, [one], ProduceAll(libs, store.Snapshot(), maxlen, encoder, records[i + 1..], stream).1);
        results := results + [one];
        i := i + 1;
      }
      assert records[i..] == [];
      assert results + [] == results;
      r := Ok(results);
    }
  }

  /** `RedisConsumer` of src/redis_clients.rs. */
  class RedisConsumer {
    const store: Store
    var block: nat
    var decoder: Option<Decoder>

    constructor (store: Store)
      ensures this.store == store && block == DefaultBlock && decoder == None
    {
      this.store := store;
      block := DefaultBlock;
      decoder := None;
    }

    /** `set_decoder`: a name `create_decoder` refuses panics, leaving the decoder
        as it was. */
    method SetDecoder(name: string, schema: Option<Json>) returns (r: Result<()>)
      modifies this`decoder
      ensures var created := CreateDecoder(name, schema);
        && (created.Ok? ==> r == Ok(()) && decoder == Some(created.value))
        && (!created.Ok? ==> r == Panic(created.message) && decoder == old(decoder))
    {
      var created := CreateDecoder(name, schema);
      if !created.Ok? {
        return Panic(created.message);
      }
      decoder := Some(created.value);
      r := Ok(());
    }

    method SetBlock(b: nat)
      modifies this`block
      ensures block == b
    {
      block := b;
    }

    method Consume(libs: Libs, stream: string, id: Option<StreamId>) returns (r: Result<(StreamId, Decoded)>)
      ensures r == ConsumeSpec(libs, store.Snapshot(), block, decoder, stream, id)
    {
      var db := store.Snapshot();
      var con := db.Connect();
      if !con.Ok? {
        return Err(con.error);
      }
      var request := ReadRequest(stream, if id.Some? then id.value else db.LastId(stream), Count, block);
      var reply := db.XRead(request.stream, request.start, request.count);
      if reply.Err? {
        return Err(reply.error);
      }
      if reply.Panic? {
        return Panic(reply.message);
      }
      var keys := reply.value.keys;
      if |keys| != 1 || keys[0].key != stream {
        return Panic(AssertEqFailed);
      }
      var ids := keys[0].ids;
      if |ids| != Count {
        return Panic(AssertEqFailed);
      }
      var entry := ids[0];
      if DataField !in entry.fields {
        return Panic(UnwrapNone);
      }
      var bytes := entry.fields[DataField];
      if decoder.None? {
        return Panic(UnwrapNone);
      }
      var decoded := Unpack(libs, decoder.value, bytes);
      if decoded.Err? {
        return Err(decoded.error);
      }
      if decoded.Panic? {
        return Panic(decoded.message);
      }
      if |decoded.value| != 1 {
        return Panic(AssertEqFailed);
      }
      r := Ok((entry.id, decoded.value[0]));
    }
  }
}
