/** An abstract Redis server, as far as the crate uses it: a keyspace whose keys
    hold either a stream or a hash, the XADD, XREAD, HSET and HGET commands on
    them, and whether a connection can be opened. The server clock, which XADD
    reads to make automatic ids, is part of the state. */
module RedisStore {
  import opened Errors
  import opened Values

  /** A stream entry id `<ms>-<n>`, ordered by time, then by sequence number. */
  datatype StreamId = StreamId(ms: nat, n: nat)

  predicate Less(a: StreamId, b: StreamId)
  {
    a.ms < b.ms || (a.ms == b.ms && a.n < b.n)
  }

  /** `0-0`: the last id of a stream that has never had an entry. */
  const Zero: StreamId := StreamId(0, 0)

  datatype Entry = Entry(id: StreamId, fields: map<string, bytes>)

  /** A stream keeps its last generated id even after trimming removed that entry. */
  datatype Stream = Stream(entries: seq<Entry>, lastId: StreamId)

  predicate Increasing(es: seq<Entry>)
  {
    forall i, j :: 0 <= i < j < |es| ==> Less(es[i].id, es[j].id)
  }

  /** Ids strictly increase along the stream and none exceeds its last id. */
  predicate WellFormed(s: Stream)
  {
    && Increasing(s.entries)
    && forall i :: 0 <= i < |s.entries| ==> !Less(s.lastId, s.entries[i].id)
  }

  datatype Key = StreamKey(stream: Stream) | HashKey(hash: map<string, string>)

  /** The error Redis returns for a command applied to a key of the other kind. */
  const WrongType: string := "WRONGTYPE Operation against a key holding the wrong kind of value"

  /** The entries the id ordering puts after `start`, in stream order. */
  function After(es: seq<Entry>, start: StreamId): (r: seq<Entry>)
    ensures |r| <= |es|
    ensures forall e :: e in r ==> e in es && Less(start, e.id)
  {
    if es == [] then []
    else (if Less(start, es[0].id) then [es[0]] else []) + After(es[1..], start)
  }

  /** The newest `n` entries (all of them when there are no more than `n`). */
  function Newest(es: seq<Entry>, n: nat): (r: seq<Entry>)
    ensures |r| == if |es| <= n then |es| else n
    ensures r == es[|es| - |r|..]
  {
    if |es| <= n then es else es[|es| - n..]
  }

  /** The id XADD generates for `*`: the clock's millisecond if it is past the last
      id's, otherwise the last id's millisecond with the next sequence number. */
  function AutoId(last: StreamId, clock: nat): (id: StreamId)
    ensures Less(last, id)
    ensures id.ms == if clock > last.ms then clock else last.ms
  {
    if clock > last.ms then StreamId(clock, 0) else StreamId(last.ms, last.n + 1)
  }

  /** A reply of XREAD: per stream that had data, its key and the entries read
      (redis-rs `StreamReadReply`, `StreamKey`, `StreamId`). No stream at all is the
      nil reply of a read whose BLOCK timeout expired. */
  datatype StreamKeyReply = StreamKeyReply(key: string, ids: seq<Entry>)
  datatype ReadReply = ReadReply(keys: seq<StreamKeyReply>)

  datatype Db = Db(keyspace: map<string, Key>, online: bool, clock: nat)
  {
    /** Every stream in the keyspace is well formed. */
    predicate Valid()
    {
      forall k :: k in keyspace && keyspace[k].StreamKey? ==> WellFormed(keyspace[k].stream)
    }

    /** `Client::get_connection`: fails exactly when the server is unreachable. */
    function Connect(): (r: Result<()>)
      ensures r.Ok? <==> online
      ensures !r.Ok? ==> r == Err(RedisError(ConnectionRefused))
    {
      if online then Ok(()) else Err(RedisError(ConnectionRefused))
    }

    predicate IsHash(key: string) { key in keyspace && keyspace[key].HashKey? }
    predicate IsStream(key: string) { key in keyspace && keyspace[key].StreamKey? }

    /** The stream at `key`; a missing key reads as an empty stream. */
    function StreamAt(key: string): (s: Stream)
      requires !IsHash(key)
      ensures IsStream(key) ==> s == keyspace[key].stream
      ensures !IsStream(key) ==> s == Stream([], Zero)
    {
      if key in keyspace then keyspace[key].stream else Stream([], Zero)
    }

    /** The last id of the stream at `key` (`0-0` if there is none): what `$` stands for. */
    function LastId(key: string): (id: StreamId)
      ensures IsStream(key) ==> id == keyspace[key].stream.lastId
      ensures !IsStream(key) ==> id == Zero
    {
      if IsStream(key) then keyspace[key].stream.lastId else Zero
    }

    /** `XADD key [MAXLEN = n] * field value ...`: appends one entry with a fresh id,
        then, with a MAXLEN, keeps only the newest `n` entries. */
    function XAdd(key: string, maxlen: Option<nat>, fields: map<string, bytes>): (res: (Db, Result<StreamId>))
      ensures res.1.Ok? <==> !IsHash(key)
      ensures res.1.Err? ==> res.0 == this && res.1.error == RedisError(WrongType)
      ensures res.1.Ok? ==>
        var s := StreamAt(key);
        var es := s.entries + [Entry(res.1.value, fields)];
        && Less(s.lastId, res.1.value)
        && res.0 == this.(keyspace := keyspace[key := StreamKey(Stream(
             if maxlen.Some? then Newest(es, maxlen.value) else es, res.1.value))])
    {
      if IsHash(key) then (this, Err(RedisError(WrongType)))
      else
        var s := StreamAt(key);
        var id := AutoId(s.lastId, clock);
        var es := s.entries + [Entry(id, fields)];
        var kept := if maxlen.Some? then Newest(es, maxlen.value) else es;
        (this.(keyspace := keyspace[key := StreamKey(Stream(kept, id))]), Ok(id))
    }

    /** `XREAD COUNT count STREAMS key start` as answered when the reply is sent:
        the first `count` entries after `start`, or the nil reply if there are none
        (the BLOCK timeout expired). */
    function XRead(key: string, start: StreamId, count: nat): (r: Result<ReadReply>)
      requires count > 0
      ensures r.Err? <==> IsHash(key)
      ensures r.Err? ==> r.error == RedisError(WrongType)
      ensures r.Ok? ==> |r.value.keys| <= 1
      ensures r.Ok? ==> (r.value.keys == [] <==> After(StreamAt(key).entries, start) == [])
      ensures r.Ok? && r.value.keys != [] ==>
        var news := After(StreamAt(key).entries, start);
        r.value.keys == [StreamKeyReply(key, news[..if |news| < count then |news| else count])]
    {
      if IsHash(key) then Err(RedisError(WrongType))
      else
        var news := After(StreamAt(key).entries, start);
        if news == [] then Ok(ReadReply([]))
        else Ok(ReadReply([StreamKeyReply(key, news[..if |news| < count then |news| else count])]))
    }

    /** `HSET key field value`. */
    function HSet(key: string, field: string, value: string): (res: (Db, Result<()>))
      ensures res.1.Ok? <==> !IsStream(key)
      ensures res.1.Err? ==> res.0 == this && res.1.error == RedisError(WrongType)
      ensures res.1.Ok? ==>
        var h := if key in keyspace then keyspace[key].hash else map[];
        res.0 == this.(keyspace := keyspace[key := HashKey(h[field := value])])
    {
      if IsStream(key) then (this, Err(RedisError(WrongType)))
      else
        var h := if key in keyspace then keyspace[key].hash else map[];
        (this.(keyspace := keyspace[key := HashKey(h[field := value])]), Ok(()))
    }

    /** `HGET key field`: `None` is the nil reply for a missing key or field. */
    function HGet(key: string, field: string): (r: Result<Option<string>>)
      ensures r.Err? <==> IsStream(key)
      ensures r.Err? ==> r.error == RedisError(WrongType)
      ensures r.Ok? ==> (r.value.Some? <==> IsHash(key) && field in keyspace[key].hash)
      ensures r.Ok? && r.value.Some? ==> r.value.value == keyspace[key].hash[field]
    {
      if IsStream(key) then Err(RedisError(WrongType))
      else if key in keyspace && field in keyspace[key].hash then Ok(Some(keyspace[key].hash[field]))
      else Ok(None)
    }
  }

  /** In a valid keyspace, what a key that is not a hash reads as is well formed. */
  lemma {:induction false} StreamAtWellFormed(db: Db, key: string)
    requires db.Valid() && !db.IsHash(key)
    ensures WellFormed(db.StreamAt(key))
  {
    if !db.IsStream(key) {
      assert db.StreamAt(key).entries == [];
    }
  }

  /** XADD keeps every stream well formed. */
  lemma {:induction false} XAddKeepsValid(db: Db, key: string, maxlen: Option<nat>, fields: map<string, bytes>)
    requires db.Valid()
    ensures db.XAdd(key, maxlen, fields).0.Valid()
  {
    if !db.IsHash(key) {
      var s := db.StreamAt(key);
      var id := AutoId(s.lastId, db.clock);
      var es := s.entries + [Entry(id, fields)];
      assert WellFormed(s);
      AppendKeepsWellFormed(s, id, fields);
      if maxlen.Some? {
        NewestKeepsWellFormed(es, id, maxlen.value);
      }
    }
  }

  lemma {:induction false} AppendKeepsWellFormed(s: Stream, id: StreamId, fields: map<string, bytes>)
    requires WellFormed(s) && Less(s.lastId, id)
    ensures WellFormed(Stream(s.entries + [Entry(id, fields)], id))
  {
    var es := s.entries + [Entry(id, fields)];
    forall i, j | 0 <= i < j < |es| ensures Less(es[i].id, es[j].id) {
      if j == |es| - 1 {
        assert !Less(s.lastId, s.entries[i].id);
      }
    }
    forall i | 0 <= i < |es| ensures !Less(id, es[i].id) {
      if i < |s.entries| {
        assert !Less(s.lastId, s.entries[i].id);
      }
    }
  }

  lemma {:induction false} NewestKeepsWellFormed(es: seq<Entry>, last: StreamId, n: nat)
    requires WellFormed(Stream(es, last))
    ensures WellFormed(Stream(Newest(es, n), last))
  {
    SuffixKeepsWellFormed(es, last, |es| - |Newest(es, n)|);
  }

  lemma {:induction false} SuffixKeepsWellFormed(es: seq<Entry>, last: StreamId, d: nat)
    requires WellFormed(Stream(es, last)) && d <= |es|
    ensures WellFormed(Stream(es[d..], last))
  {
    var r := es[d..];
    assert forall i :: 0 <= i < |r| ==> r[i] == es[d + i];
  }

  /** HSET touches no stream. */
  lemma {:induction false} HSetKeepsValid(db: Db, key: string, field: string, value: string)
    requires db.Valid()
    ensures db.HSet(key, field, value).0.Valid()
  {
  }

  /** A MAXLEN = n append leaves at most n entries: the newest ones of the old
      entries followed by the new one, which is kept unless n is 0. */
  lemma {:induction false} XAddTrims(db: Db, key: string, n: nat, fields: map<string, bytes>)
    requires !db.IsHash(key)
    ensures db.XAdd(key, Some(n), fields).0.IsStream(key)
    ensures var es := db.XAdd(key, Some(n), fields).0.keyspace[key].stream.entries;
      var all := db.StreamAt(key).entries + [Entry(db.XAdd(key, Some(n), fields).1.value, fields)];
      && |es| <= n
      && es == all[|all| - |es|..]
      && (n > 0 ==> |es| > 0 && es[|es| - 1] == all[|all| - 1])
  {
    var res := db.XAdd(key, Some(n), fields);
    var all := db.StreamAt(key).entries + [Entry(res.1.value, fields)];
    var es := res.0.keyspace[key].stream.entries;
    assert es == Newest(all, n);
    if n > 0 {
      assert |es| > 0;
      assert es[|es| - 1] == all[|all| - 1];
    }
  }

  /** Trimming after each append is trimming once after all of them: keeping the
      newest `n` of `es`, appending `more` and keeping the newest `n` gives the
      newest `n` of `es + more`. */
  lemma {:induction false} NewestConcat(es: seq<Entry>, more: seq<Entry>, n: nat)
    ensures Newest(Newest(es, n) + more, n) == Newest(es + more, n)
  {
    var a := Newest(es, n);
    var l := Newest(a + more, n);
    var r := Newest(es + more, n);
    assert |l| == |r|;
    forall k | 0 <= k < |l| ensures l[k] == r[k] {
      var dl := |a| + |more| - |l|;
      var dr := |es| + |more| - |r|;
      if dr + k < |es| {
        assert r[k] == es[dr + k];
        assert l[k] == a[dl + k];
        assert a[dl + k] == es[|es| - |a| + dl + k];
      } else {
        assert r[k] == more[dr + k - |es|];
        assert l[k] == more[dl + k - |a|];
      }
    }
  }

  /** In an increasing stream, the entries after an entry's id are exactly the ones
      following it: reading with the id just returned as the cursor never returns
      that entry again nor skips one. */
  lemma {:induction false} AfterEntry(es: seq<Entry>, i: nat)
    requires Increasing(es) && i < |es|
    ensures After(es, es[i].id) == es[i + 1..]
  {
    AfterSuffix(es, es[i].id, i + 1);
  }

  /** If `start` lies before entry `k` and every later one, and not before any
      earlier entry, what follows `start` is `es[k..]`. */
  lemma {:induction false} AfterSuffix(es: seq<Entry>, start: StreamId, k: nat)
    requires k <= |es|
    requires forall i :: 0 <= i < k ==> !Less(start, es[i].id)
    requires forall i :: k <= i < |es| ==> Less(start, es[i].id)
    ensures After(es, start) == es[k..]
    decreases |es|
  {
    if es != [] {
      var tail := es[1..];
      var k' := if k == 0 then 0 else k - 1;
      assert forall i :: 0 <= i < k' ==> !Less(start, tail[i].id) by {
        assert forall i :: 0 <= i < |tail| ==> tail[i] == es[i + 1];
      }
      assert forall i :: k' <= i < |tail| ==> Less(start, tail[i].id) by {
        assert forall i :: 0 <= i < |tail| ==> tail[i] == es[i + 1];
      }
      AfterSuffix(tail, start, k');
      assert After(es, start) == (if Less(start, es[0].id) then [es[0]] else []) + After(tail, start);
      if k == 0 {
        assert es == [es[0]] + tail;
      } else {
        assert es[k..] == tail[k'..];
      }
    }
  }

  /** In an increasing stream, what follows `start` begins at the first entry past it. */
  lemma {:induction false} AfterFirstPast(es: seq<Entry>, start: StreamId, d: nat)
    requires Increasing(es) && d <= |es|
    requires forall i :: 0 <= i < d ==> !Less(start, es[i].id)
    requires d < |es| ==> Less(start, es[d].id)
    ensures After(es, start) == es[d..]
  {
    forall i | d <= i < |es| ensures Less(start, es[i].id) {
      if i > d {
        assert Less(es[d].id, es[i].id);
      }
    }
    AfterSuffix(es, start, d);
  }

  /** A stream that has all its ids after `start` answers a read from `start` with all of it. */
  lemma {:induction false} AfterAll(es: seq<Entry>, start: StreamId)
    requires Increasing(es)
    requires forall i :: 0 <= i < |es| ==> Less(start, es[i].id)
    ensures After(es, start) == es
  {
    AfterSuffix(es, start, 0);
  }

  /** The first `count` entries past `start` are the `count` entries from the first
      entry past it, or all of them when fewer remain. */
  lemma {:induction false} FirstAfter(es: seq<Entry>, start: StreamId, count: nat, d: nat)
    requires Increasing(es) && d <= |es|
    requires forall i :: 0 <= i < d ==> !Less(start, es[i].id)
    requires d < |es| ==> Less(start, es[d].id)
    ensures var news := After(es, start);
      var m := if |es| - d < count then |es| - d else count;
      && (news == [] <==> d == |es|)
      && news[..if |news| < count then |news| else count] == es[d..d + m]
  {
    AfterFirstPast(es, start, d);
    var m := if |es| - d < count then |es| - d else count;
    assert es[d..][..m] == es[d..d + m];
  }

  /** XREAD answers with the oldest entries past the cursor: when entry `d` is the
      first whose id is past `start` (`d` is the length when there is none), the
      reply is the nil reply exactly when no entry follows the cursor, and otherwise
      the one stream `key` with the `count` entries from `d` on, or all of them when
      fewer remain. */
  lemma {:induction false} XReadOldestAfter(db: Db, key: string, start: StreamId, count: nat, d: nat)
    requires count > 0 && db.Valid() && !db.IsHash(key)
    requires d <= |db.StreamAt(key).entries|
    requires forall i :: 0 <= i < d ==> !Less(start, db.StreamAt(key).entries[i].id)
    requires d < |db.StreamAt(key).entries| ==> Less(start, db.StreamAt(key).entries[d].id)
    ensures var es := db.StreamAt(key).entries;
      var r := db.XRead(key, start, count);
      var m := if |es| - d < count then |es| - d else count;
      && r.Ok?
      && (r.value.keys == [] <==> d == |es|)
      && (d < |es| ==> r.value.keys == [StreamKeyReply(key, es[d..d + m])])
  {
    StreamAtWellFormed(db, key);
    FirstAfter(db.StreamAt(key).entries, start, count, d);
  }

  /** HGET reads back what HSET wrote, and every other field of every key reads as
      before: the schema store behaves as a map from (key, field) to text. */
  lemma {:induction false} HGetAfterHSet(db: Db, key: string, field: string, value: string, key': string, field': string)
    requires !db.IsStream(key)
    ensures var db' := db.HSet(key, field, value).0;
      && db'.HGet(key, field) == Ok(Some(value))
      && ((key', field') != (key, field) ==> db'.HGet(key', field') == db.HGet(key', field'))
      && db'.online == db.online && db'.clock == db.clock
  {
  }

  /** The Redis server: its keyspace, whether it accepts connections, and its clock. */
  class Store {
    var keyspace: map<string, Key>
    var online: bool
    var clock: nat

    function Snapshot(): Db
      reads this
    {
      Db(keyspace, online, clock)
    }

    ghost predicate Valid()
      reads this
    {
      Snapshot().Valid()
    }

    /** An empty server. */
    constructor (online: bool, clock: nat)
      ensures Valid()
      ensures Snapshot() == Db(map[], online, clock)
    {
      this.keyspace := map[];
      this.online := online;
      this.clock := clock;
    }

    method XAdd(key: string, maxlen: Option<nat>, fields: map<string, bytes>) returns (r: Result<StreamId>)
      requires Valid()
      modifies this
      ensures Valid()
      ensures (Snapshot(), r) == old(Snapshot()).XAdd(key, maxlen, fields)
    {
      XAddKeepsValid(Snapshot(), key, maxlen, fields);
      var res := Snapshot().XAdd(key, maxlen, fields);
      keyspace := res.0.keyspace;
      r := res.1;
    }

    method HSet(key: string, field: string, value: string) returns (r: Result<()>)
      requires Valid()
      modifies this
      ensures Valid()
      ensures (Snapshot(), r) == old(Snapshot()).HSet(key, field, value)
    {
      HSetKeepsValid(Snapshot(), key, field, value);
      var res := Snapshot().HSet(key, field, value);
      keyspace := res.0.keyspace;
      r := res.1;
    }

    /** The server's clock moves forward (the environment, not the crate, does this). */
    method Tick(t: nat)
      requires Valid()
      modifies this`clock
      ensures Valid()
      ensures Snapshot() == old(Snapshot()).(clock := old(clock) + t)
    {
      clock := clock + t;
    }
  }
}
