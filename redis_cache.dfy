/** The Redis-backed presence store. Redis is modelled as a keyspace mapping each key to a hash or
    a string; every store operation is one Redis command (HSET, HDEL, HGETALL, SET, GET, DEL) whose
    reply callback settles a promise. */
module RedisCaching {
  import opened Model
  import opened PlayerJson
  import opened RedisKeys

  datatype Entry = Hash(fields: map<string, string>) | Text(value: string)

  type Keyspace = map<string, Entry>

  /** The error reply of a command addressed to a key holding the other type (WRONGTYPE). */
  datatype Fault = WrongType

  datatype Promise<T> = Pending | Fulfilled(value: T) | Rejected(reason: Fault)

  /** `resolve(v)`: only a pending promise changes. */
  function Resolve<T>(p: Promise<T>, v: T): Promise<T> {
    if p.Pending? then Fulfilled(v) else p
  }

  /** `reject(e)`: only a pending promise changes. */
  function Reject<T>(p: Promise<T>, e: Fault): Promise<T> {
    if p.Pending? then Rejected(e) else p
  }

  /** The reply callback `if (err) reject(err); resolve(v)` run on a pending promise: an error
      rejects, and the `resolve` that follows has no effect. */
  function Settle<T>(err: Option<Fault>, v: T): (p: Promise<T>)
    ensures err.Some? ==> p == Rejected(err.value)
    ensures err.None? ==> p == Fulfilled(v)
  {
    Resolve(if err.Some? then Reject(Pending, err.value) else Pending, v)
  }

  /** Redis never keeps an empty hash. */
  ghost predicate WellFormed(ks: Keyspace) {
    forall k :: k in ks && ks[k].Hash? ==> ks[k].fields != map[]
  }

  /** The fields of the hash at `key`, none when the key is absent. */
  function FieldsAt(ks: Keyspace, key: string): map<string, string>
    requires !(key in ks && ks[key].Text?)
  {
    if key in ks then ks[key].fields else map[]
  }

  /** HSET key field value: creates the hash when absent and sets or replaces the field; a key
      holding a string is refused and left alone. */
  function HSet(ks: Keyspace, key: string, field: string, value: string): (r: (Keyspace, Option<Fault>))
    ensures r.1.Some? <==> key in ks && ks[key].Text?
    ensures r.1.Some? ==> r.0 == ks
    ensures r.1.None? ==>
      && r.0.Keys == ks.Keys + {key}
      && r.0[key].Hash? && r.0[key].fields.Keys == FieldsAt(ks, key).Keys + {field}
      && r.0[key].fields[field] == value
      && (forall f :: f in FieldsAt(ks, key) && f != field ==> r.0[key].fields[f] == FieldsAt(ks, key)[f])
      && (forall k :: k in ks && k != key ==> r.0[k] == ks[k])
  {
    if key in ks && ks[key].Text? then (ks, Some(WrongType))
    else (ks[key := Hash(FieldsAt(ks, key)[field := value])], None)
  }

  /** HDEL key field: removes the field; the key goes with its last field. A key holding a string
      is refused and left alone. */
  function HDel(ks: Keyspace, key: string, field: string): (r: (Keyspace, Option<Fault>))
    ensures r.1.Some? <==> key in ks && ks[key].Text?
    ensures r.1.Some? ==> r.0 == ks
    ensures r.1.None? ==> key in r.0 ==> r.0[key] == Hash(FieldsAt(ks, key) - {field})
    ensures r.1.None? ==> forall k :: k != key ==> (k in r.0 <==> k in ks) && (k in ks ==> r.0[k] == ks[k])
  {
    if key !in ks then (ks, None)
    else if ks[key].Text? then (ks, Some(WrongType))
    else
      var rest := ks[key].fields - {field};
      (if rest == map[] then ks - {key} else ks[key := Hash(rest)], None)
  }

  /** HGETALL key: the error and the reply of the client library. The reply is the hash's fields,
      and null (`None`) when the key is absent, since the library turns an empty reply into null. */
  function HGetAll(ks: Keyspace, key: string): (r: (Option<Fault>, Option<map<string, string>>))
    ensures r.0.Some? <==> key in ks && ks[key].Text?
    ensures r.1.None? <==> !(key in ks && ks[key].Hash?)
    ensures r.1.Some? ==> r.1.value == ks[key].fields
  {
    if key !in ks then (None, None)
    else if ks[key].Text? then (Some(WrongType), None)
    else (None, Some(ks[key].fields))
  }

  /** SET key value: replaces whatever the key held, of either type. */
  function Set(ks: Keyspace, key: string, value: string): (r: Keyspace)
    ensures r.Keys == ks.Keys + {key} && r[key] == Text(value)
    ensures forall k :: k in ks && k != key ==> r[k] == ks[k]
  {
    ks[key := Text(value)]
  }

  /** GET key: the string, null (`None`) for an absent key; a key holding a hash is refused. */
  function Get(ks: Keyspace, key: string): (r: (Option<Fault>, Option<string>))
    ensures r.0.Some? <==> key in ks && ks[key].Hash?
    ensures r.1.Some? <==> key in ks && ks[key].Text?
    ensures r.1.Some? ==> r.1.value == ks[key].value
  {
    if key !in ks then (None, None)
    else if ks[key].Hash? then (Some(WrongType), None)
    else (None, Some(ks[key].value))
  }

  /** DEL key: removes the key, whatever it held, and nothing else. */
  function Del(ks: Keyspace, key: string): (r: Keyspace)
    ensures key !in r
    ensures forall k :: k != key ==> (k in r <==> k in ks) && (k in ks ==> r[k] == ks[k])
  {
    ks - {key}
  }

  /** HSET is an upsert: setting a field twice leaves one field holding the later value, and
      every other field and key is unchanged. */
  lemma HSetUpsert(ks: Keyspace, key: string, field: string, v1: string, v2: string)
    requires !(key in ks && ks[key].Text?)
    ensures var once := HSet(ks, key, field, v1).0;
      var twice := HSet(once, key, field, v2);
      && twice.1.None?
      && twice.0.Keys == ks.Keys + {key}
      && twice.0[key].Hash?
      && twice.0[key].fields.Keys == FieldsAt(ks, key).Keys + {field}
      && twice.0[key].fields[field] == v2
      && (forall f :: f in FieldsAt(ks, key) && f != field ==> twice.0[key].fields[f] == FieldsAt(ks, key)[f])
      && (forall k :: k in ks && k != key ==> twice.0[k] == ks[k])
  {
  }

  /** HDEL removes exactly the named field, is a no-op when the field is absent, and deletes the
      key once its last field is gone. */
  lemma HDelRemovesField(ks: Keyspace, key: string, field: string)
    requires WellFormed(ks)
    requires !(key in ks && ks[key].Text?)
    ensures var (after, err) := HDel(ks, key, field);
      && err.None?
      && WellFormed(after)
      && (field !in FieldsAt(ks, key) ==> after == ks)
      && (key in after <==> FieldsAt(ks, key).Keys - {field} != {})
      && (key in after ==> after[key].fields == FieldsAt(ks, key) - {field})
      && (forall k :: k != key ==> (k in after <==> k in ks) && (k in ks ==> after[k] == ks[k]))
  {
    var (after, err) := HDel(ks, key, field);
    if key in ks {
      var rest := ks[key].fields - {field};
      if field !in FieldsAt(ks, key) {
        assert rest == ks[key].fields;
        assert ks[key := Hash(rest)] == ks;
      }
      assert rest == map[] <==> rest.Keys == {};
    }
  }

  /** HSET keeps the keyspace well formed. */
  lemma HSetWellFormed(ks: Keyspace, key: string, field: string, value: string)
    requires WellFormed(ks)
    ensures WellFormed(HSet(ks, key, field, value).0)
  {
    var after := HSet(ks, key, field, value).0;
    if !(key in ks && ks[key].Text?) {
      assert field in after[key].fields;
    }
  }

  /** Reading a room after storing a player there finds that player under its id. */
  lemma ReadAfterAdd(ks: Keyspace, key: string, p: Player)
    requires !(key in ks && ks[key].Text?)
    ensures var (err, reply) := HGetAll(HSet(ks, key, p.id, Encode(p)).0, key);
      err.None? && reply.Some? && p.id in reply.value && Decode(reply.value[p.id]) == Some(p)
  {
  }

  /** A session written is read back; a session cleared reads as null. */
  lemma SessionRoundTrip(ks: Keyspace, key: string, serverId: string)
    ensures Get(Set(ks, key, serverId), key) == (None, Some(serverId))
    ensures Get(Del(ks, key), key) == (None, None)
  {
  }

  /** With prefixes that do not begin one another, session writes never touch a room entry. */
  lemma SessionWritesKeepRooms(env: Env, ks: Keyspace, socketId: string, roomId: string, serverId: string)
    requires PrefixFree(RoomPrefix(env), SessionPrefix(env))
    ensures var roomKey := Key(RoomPrefix(env), roomId);
      var sessionKey := Key(SessionPrefix(env), socketId);
      && HGetAll(Set(ks, sessionKey, serverId), roomKey) == HGetAll(ks, roomKey)
      && HGetAll(Del(ks, sessionKey), roomKey) == HGetAll(ks, roomKey)
  {
    KeysDisjoint(RoomPrefix(env), SessionPrefix(env), roomId, socketId);
  }

  /** As written, with REDIS_ROOM_KEY_PRE set, writing the session of an id equal to a room id
      replaces that room's hash by a string: the room then reads as an error and refuses new
      players. */
  lemma AsWrittenSessionClobbersRoom(env: Env, ks: Keyspace, id: string, serverId: string, p: Player)
    requires "REDIS_ROOM_KEY_PRE" in env && env["REDIS_ROOM_KEY_PRE"] != ""
    ensures var after := Set(ks, Key(SessionPrefixAsWritten(env), id), serverId);
      && HGetAll(after, Key(RoomPrefix(env), id)).0 == Some(WrongType)
      && HSet(after, Key(RoomPrefix(env), id), p.id, Encode(p)).1 == Some(WrongType)
  {
    AsWrittenKeysCollide(env, id);
  }

  /** `order` lists every field of `fields` once, and `players[i]` is the parse of the value of the
      field `order[i]`. */
  ghost predicate Lists(fields: map<string, string>, order: seq<string>, players: seq<Player>) {
    && |order| == |players|
    && ListsKeys(fields, order)
    && (forall i :: 0 <= i < |order| ==> order[i] in fields && Decode(fields[order[i]]) == Some(players[i]))
  }

  /** `order` lists every key of `fields` exactly once. */
  ghost predicate ListsKeys(fields: map<string, string>, order: seq<string>) {
    && |order| == |fields|
    && (forall i, j :: 0 <= i < j < |order| ==> order[i] != order[j])
    && (forall f :: f in fields <==> f in order)
  }

  /** A hash with one field lists that field alone. */
  lemma ListsOne(f: string, v: string, order: seq<string>)
    requires ListsKeys(map[f := v], order)
    ensures order == [f]
  {
    var fields := map[f := v];
    assert |fields| == 1;
    assert order[0] in fields;
  }

  /** `Object.keys(reply).map(playerId => JSON.parse(reply[playerId]))`: one parsed player per field,
      in the unspecified order in which the fields are listed; `None` when some value does not
      parse, where `JSON.parse` throws. */
  method ParseAll(fields: map<string, string>) returns (players: Option<seq<Player>>, ghost order: seq<string>)
    ensures players.None? <==> exists f :: f in fields && Decode(fields[f]).None?
    ensures players.Some? ==> ListsKeys(fields, order)
    ensures players.Some? ==> Lists(fields, order, players.value)
  {
    order := [];
    var remaining := fields.Keys;
    var parsed: seq<Player> := [];
    while remaining != {}
      invariant remaining <= fields.Keys
      invariant |order| == |parsed| && |order| + |remaining| == |fields|
      invariant forall i :: 0 <= i < |order| ==>
        order[i] in fields && order[i] !in remaining && Decode(fields[order[i]]) == Some(parsed[i])
      invariant forall i, j :: 0 <= i < j < |order| ==> order[i] != order[j]
      invariant forall f :: f in fields && f !in remaining ==> f in order
      decreases |remaining|
    {
      var f :| f in remaining;
      var decoded := Decode(fields[f]);
      if decoded.None? {
        return None, order;
      }
      parsed := parsed + [decoded.value];
      order := order + [f];
      remaining := remaining - {f};
    }
    players := Some(parsed);
  }

  /** The Redis-backed store. */
  class RedisCache {
    const roomKeyPre: string
    const sessionKeyPre: string
    /** The contents of the Redis server, which other processes share. */
    var keyspace: Keyspace

    /** The keyspace is one Redis can hold: no key holds an empty hash. */
    ghost predicate Valid()
      reads this
    {
      WellFormed(keyspace)
    }

    /** The store as written: the session prefix is read from REDIS_ROOM_KEY_PRE. */
    constructor (env: Env, contents: Keyspace)
      requires WellFormed(contents)
      ensures Valid()
      ensures roomKeyPre == RoomPrefix(env) && sessionKeyPre == SessionPrefixAsWritten(env)
      ensures keyspace == contents
    {
      roomKeyPre := RoomPrefix(env);
      sessionKeyPre := SessionPrefixAsWritten(env);
      keyspace := contents;
    }

    /** The store with the session prefix read from a variable of its own. */
    constructor WithSessionVariable(env: Env, contents: Keyspace)
      requires WellFormed(contents)
      ensures Valid()
      ensures roomKeyPre == RoomPrefix(env) && sessionKeyPre == SessionPrefix(env)
      ensures keyspace == contents
    {
      roomKeyPre := RoomPrefix(env);
      sessionKeyPre := SessionPrefix(env);
      keyspace := contents;
    }

    /** HSET of field `player.id` to the serialised player in the room's hash. */
    method AddPlayerToRoom(roomId: string, player: Player) returns (done: Promise<()>)
      requires Valid()
      modifies this
      ensures Valid()
      ensures var (after, err) := HSet(old(keyspace), Key(roomKeyPre, roomId), player.id, Encode(player));
        keyspace == after && done == Settle(err, ())
    {
      var (after, err) := HSet(keyspace, Key(roomKeyPre, roomId), player.id, Encode(player));
      HSetWellFormed(keyspace, Key(roomKeyPre, roomId), player.id, Encode(player));
      keyspace := after;
      done := Resolve(if err.Some? then Reject(Pending, err.value) else Pending, ());
    }

    /** HDEL of field `playerId` from the room's hash. */
    method RemovePlayerFromRoom(roomId: string, playerId: string) returns (done: Promise<()>)
      requires Valid()
      modifies this
      ensures Valid()
      ensures var (after, err) := HDel(old(keyspace), Key(roomKeyPre, roomId), playerId);
        keyspace == after && done == Settle(err, ())
    {
      var (after, err) := HDel(keyspace, Key(roomKeyPre, roomId), playerId);
      if err.None? {
        HDelRemovesField(keyspace, Key(roomKeyPre, roomId), playerId);
      }
      keyspace := after;
      done := Resolve(if err.Some? then Reject(Pending, err.value) else Pending, ());
    }

    /** HGETALL of the room's hash, then `Object.keys(reply).map(...)`. An error rejects, and the
        `resolve` after it has no effect. A null reply (a room with no hash) or a value that does
        not parse throws a TypeError inside the reply callback: the promise stays pending, and the
        exception itself, which escapes into the client library, is not modelled. */
    method RetrieveRoomPlayers(roomId: string) returns (result: Promise<seq<Player>>, ghost order: seq<string>)
      requires Valid()
      ensures var (err, reply) := HGetAll(keyspace, Key(roomKeyPre, roomId));
        && (err.Some? ==> result == Rejected(err.value))
        && (err.None? ==> !result.Rejected?)
        && (err.None? && reply.None? ==> result.Pending?)
        && (reply.Some? ==> (result.Pending? <==> exists f :: f in reply.value && Decode(reply.value[f]).None?))
        && (result.Fulfilled? ==> reply.Some? && Lists(reply.value, order, result.value))
    {
      var (err, reply) := HGetAll(keyspace, Key(roomKeyPre, roomId));
      order := [];
      if err.Some? {
        result := Reject(Pending, err.value);
        return;
      }
      if reply.None? {
        result := Pending;
        return;
      }
      var players;
      players, order := ParseAll(reply.value);
      result := if players.Some? then Resolve(Pending, players.value) else Pending;
    }

    /** The read as evidently intended, `Object.keys(reply || {})`: a room with no hash reads as
        the empty list. */
    method RetrieveRoomPlayersOrEmpty(roomId: string) returns (result: Promise<seq<Player>>, ghost order: seq<string>)
      requires Valid()
      ensures var (err, reply) := HGetAll(keyspace, Key(roomKeyPre, roomId));
        && (err.Some? ==> result == Rejected(err.value))
        && (err.None? ==> !result.Rejected?)
        && (err.None? && reply.None? ==> result == Fulfilled([]))
        && (reply.Some? ==> (result.Pending? <==> exists f :: f in reply.value && Decode(reply.value[f]).None?))
        && (reply.Some? && result.Fulfilled? ==> Lists(reply.value, order, result.value))
    {
      var (err, reply) := HGetAll(keyspace, Key(roomKeyPre, roomId));
      order := [];
      if err.Some? {
        result := Reject(Pending, err.value);
        return;
      }
      if reply.None? {
        result := Resolve(Pending, []);
        return;
      }
      var players;
      players, order := ParseAll(reply.value);
      result := if players.Some? then Resolve(Pending, players.value) else Pending;
    }

    /** SET of the session key to the server id. */
    method UpdateSession(socketId: string, serverId: string) returns (done: Promise<()>)
      requires Valid()
      modifies this
      ensures Valid()
      ensures keyspace == Set(old(keyspace), Key(sessionKeyPre, socketId), serverId)
      ensures done == Fulfilled(())
    {
      keyspace := Set(keyspace, Key(sessionKeyPre, socketId), serverId);
      done := Resolve(Pending, ());
    }

    /** GET of the session key: the owning server id, null when there is none. */
    method GetSession(socketId: string) returns (result: Promise<Option<string>>)
      requires Valid()
      ensures var (err, value) := Get(keyspace, Key(sessionKeyPre, socketId));
        result == Settle(err, value)
      ensures result.Fulfilled? ==> (result.value.Some? <==> Key(sessionKeyPre, socketId) in keyspace)
    {
      var (err, value) := Get(keyspace, Key(sessionKeyPre, socketId));
      result := Resolve(if err.Some? then Reject(Pending, err.value) else Pending, value);
    }

    /** DEL of the session key. */
    method ClearSession(socketId: string) returns (done: Promise<()>)
      requires Valid()
      modifies this
      ensures Valid()
      ensures keyspace == Del(old(keyspace), Key(sessionKeyPre, socketId))
      ensures done == Fulfilled(())
    {
      keyspace := Del(keyspace, Key(sessionKeyPre, socketId));
      done := Resolve(Pending, ());
    }
  }

  /** Adding a player and then reading its room: the read does not reject unless the room key
      held a string, and a read that resolves lists the player. */
  method AddThenRead(store: RedisCache, roomId: string, p: Player) returns (read: Promise<seq<Player>>)
    requires store.Valid()
    modifies store
    ensures var roomKey := Key(store.roomKeyPre, roomId);
      !(roomKey in old(store.keyspace) && old(store.keyspace)[roomKey].Text?) ==> !read.Rejected?
    ensures read.Fulfilled? ==> p in read.value
  {
    var roomKey := Key(store.roomKeyPre, roomId);
    var added := store.AddPlayerToRoom(roomId, p);
    ghost var order;
    read, order := store.RetrieveRoomPlayers(roomId);
    if read.Fulfilled? {
      ghost var fields := HGetAll(store.keyspace, roomKey).1.value;
      assert p.id in fields && fields[p.id] == Encode(p);
      assert p.id in order;
      ghost var i :| 0 <= i < |order| && order[i] == p.id;
      assert Decode(fields[order[i]]) == Some(read.value[i]);
      assert read.value[i] == p;
    }
  }

  /** A session written under a key other than the room's leaves the room's one player readable. */
  lemma RoomSurvivesSession(roomKey: string, sessionKey: string, p: Player, serverId: string)
    requires roomKey != sessionKey
    ensures HGetAll(Set(HSet(map[], roomKey, p.id, Encode(p)).0, sessionKey, serverId), roomKey)
      == (None, Some(map[p.id := Encode(p)]))
  {
    var added := HSet(map[], roomKey, p.id, Encode(p)).0;
    assert added == map[roomKey := Hash(map[p.id := Encode(p)])];
  }

  /** A read of a hash holding one stored player resolves to that player alone. */
  lemma ReadsOnePlayer(p: Player, read: Promise<seq<Player>>, order: seq<string>)
    requires var fields := map[p.id := Encode(p)];
      && !read.Rejected?
      && (read.Pending? <==> exists f :: f in fields && Decode(fields[f]).None?)
      && (read.Fulfilled? ==> Lists(fields, order, read.value))
    ensures read == Fulfilled([p])
  {
    var fields := map[p.id := Encode(p)];
    assert forall f :: f in fields ==> Decode(fields[f]) == Some(p);
    assert read.Fulfilled?;
    ListsOne(p.id, Encode(p), order);
    assert Decode(fields[order[0]]) == Some(read.value[0]);
    assert |read.value| == 1 && read.value[0] == p;
    assert read.value == [p];
  }

  /** As written, with REDIS_ROOM_KEY_PRE set: a player joins the room `id`, then the session of
      the socket `id` is written. Both use the key `prefix{id}`, so the room's hash is replaced by a
      string and reading the room rejects. */
  method SessionClobbersRoom(env: Env, id: string, serverId: string, p: Player) returns (read: Promise<seq<Player>>)
    requires "REDIS_ROOM_KEY_PRE" in env && env["REDIS_ROOM_KEY_PRE"] != ""
    ensures read == Rejected(WrongType)
  {
    var store := new RedisCache(env, map[]);
    var added := store.AddPlayerToRoom(id, p);
    var updated := store.UpdateSession(id, serverId);
    ghost var order;
    read, order := store.RetrieveRoomPlayers(id);
  }

  /** The same calls on a store whose session prefix has its own variable: when the two prefixes
      do not begin one another, the room still reads as the one player stored in it. */
  method SessionKeepsRoom(env: Env, id: string, serverId: string, p: Player) returns (read: Promise<seq<Player>>)
    requires PrefixFree(RoomPrefix(env), SessionPrefix(env))
    ensures read == Fulfilled([p])
  {
    var store := new RedisCache.WithSessionVariable(env, map[]);
    var added := store.AddPlayerToRoom(id, p);
    var updated := store.UpdateSession(id, serverId);
    KeysDisjoint(RoomPrefix(env), SessionPrefix(env), id, id);
    RoomSurvivesSession(Key(RoomPrefix(env), id), Key(SessionPrefix(env), id), p, serverId);
    assert HGetAll(store.keyspace, Key(store.roomKeyPre, id)) == (None, Some(map[p.id := Encode(p)]));
    ghost var order;
    read, order := store.RetrieveRoomPlayers(id);
    ReadsOnePlayer(p, read, order);
  }

  /** As written, the first read of a room that has no hash yet, which `join` performs before it
      stores anyone, never settles. */
  method NewRoomStalls(env: Env, roomId: string) returns (read: Promise<seq<Player>>)
    ensures read.Pending?
  {
    var store := new RedisCache(env, map[]);
    ghost var order;
    read, order := store.RetrieveRoomPlayers(roomId);
  }

  /** With the null reply read as an empty hash, the same read resolves to the empty room. */
  method NewRoomReadsEmpty(env: Env, roomId: string) returns (read: Promise<seq<Player>>)
    ensures read == Fulfilled([])
  {
    var store := new RedisCache(env, map[]);
    ghost var order;
    read, order := store.RetrieveRoomPlayersOrEmpty(roomId);
  }
}
