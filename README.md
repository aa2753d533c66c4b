# CrewLink relay server: presence store, message bus and connection handlers

This project models the core of the CrewLink relay server, a socket.io service that relays
WebRTC signalling between the players of a game room, in Dafny, and proves properties of it:

- **LocalCache** (`local_cache.dfy`, module `LocalCaching`): the in-process room presence
  store, a map from room id to the list of players in it. Adding appends blindly. Removal is
  the source's decrementing `while (--i)` loop, which never visits index 0. The class keeps the
  invariant "every room present is non-empty", and removal is proved to keep the first entry.
- **PlayerSessionsManager** (`player_sessions.dfy`, module `PlayerSessions`): a map from
  socket id to player. `updatePlayer` stores under `player.id` and ignores its socket id argument.
- **Messenger** (`messenger.dfy`, module `Messaging`): the ordered listener list. Dispatch
  calls every listener once, in registration order. Listeners are identifiers, and a call
  `listener(message)` is an entry appended to a delivery log.
- **LocalMessenger** (`local_messenger.dfy`, module `LocalMessaging`): tags the message with
  its destination (`{to, ...message}`) and dispatches it to every listener. This happens for
  broadcasts and for point-to-point sends alike. Inheritance is modelled by composition: a
  `LocalMessenger` owns the `Messenger` it extends.
- **RedisCache** (`redis_keys.dfy`, `player_json.dfy`, `redis_cache.dfy`): key construction
  `prefix + "{" + id + "}"` from environment-configured prefixes, with the session prefix read
  from `REDIS_ROOM_KEY_PRE` as the code does. `JSON.stringify` of a player is a concrete encoder.
  `JSON.parse` is a parser for the texts that encoder writes, with a proved round trip; it is
  narrower than `JSON.parse` (see "Left out"). Redis itself is a keyspace mapping each key to a
  hash or a string. Each store operation is one Redis command (HSET, HDEL, HGETALL, SET, GET,
  DEL). Its reply callback `if (err) reject(err); resolve(...)` settles a promise. The client
  library's HGETALL reply for a missing key is null.
- **Connection handlers** (`gateway.dfy`, module `Gateway`): the `connection`, `join`, `id`,
  `leave`, `signal` and `disconnect` handlers of `src/index.ts`. They act on a per-connection
  player record and a process-wide connection counter. A `Relay` object holds the process
  identity and the counter. Each `Connection` holds its player record and a log of the effects
  its handlers issue, in order: disconnect, `setIds` emit, socket join/leave, cache read, cache
  write, broadcast and send.
- Shared values (`model.dfy`): the player record `{roomId?, serverId, clientId?, id}` and the
  untyped JavaScript values that clients send, with `typeof`, truthiness and property access.

The model follows the code where the intended design of the relay says otherwise:

- the in-process store appends instead of upserting;
- `join` accepts the empty room code;
- `join` never stores its `id` argument as the player's client id, so a room's `setIds` reply
  carries a client id only for players who also sent an `id` event (`Gateway.TwoJoins`);
- `disconnect` only decrements the counter and leaves the player in the store;
- no handler writes a routing (session) entry.

## Model

| member | source | states |
|---|---|---|
| `LocalCaching.Appended` | src/cache/LocalCache.ts:7-14 | adding creates the room if absent and appends the player at the end; the earlier entries and every other room are unchanged |
| `LocalCaching.AddNotIdempotent` | src/cache/LocalCache.ts:13 | adding the same player twice lists it twice more: the add is not idempotent |
| `LocalCaching.WithoutPlayer` | src/cache/LocalCache.ts:28-32 | the intended filter: no surviving entry has the removed id, and the room never grows |
| `LocalCaching.RemovedAsWritten` | src/cache/LocalCache.ts:27-32 | removal as the loop performs it keeps the first entry, stays non-empty and never grows the room |
| `LocalCaching.RemovedIntendedKeepsRooms` | src/cache/LocalCache.ts:24-37 | the intended removal over the store keeps every room non-empty, deletes the room exactly when every entry had the id, otherwise leaves exactly the other entries, and touches no other room; an unknown room changes nothing |
| `LocalCaching.WithoutPlayerMembers` | src/cache/LocalCache.ts:24-37 | the intended removal keeps exactly the entries whose id differs from the removed one |
| `LocalCaching.WithoutPlayerAppend` | src/cache/LocalCache.ts:27-32 | filtering distributes over concatenation, so the surviving entries keep their relative order |
| `LocalCaching.RemovalKeepsHead` | src/cache/LocalCache.ts:27-32 | removal as written keeps the first entry whatever its id, leaves the room non-empty, removes every match at index 1 or later and keeps every non-matching entry |
| `LocalCaching.RemovalContrast` | src/cache/LocalCache.ts:27-32 | removal as written equals "remove every matching entry" exactly when the first entry does not match |
| `LocalCaching.LocalCache.constructor` | src/cache/LocalCache.ts:5 | a new store has no rooms |
| `LocalCaching.LocalCache.AddPlayerToRoom` | src/cache/LocalCache.ts:7-14 | the rooms become the old rooms with the player appended to its room; every room stays non-empty |
| `LocalCaching.LocalCache.RemovePlayerFromRoom` | src/cache/LocalCache.ts:24-37 | an unknown room changes nothing; otherwise the room becomes the as-written removal, the loop terminates, the room is never emptied and so never deleted |
| `LocalCaching.LocalCache.RetrieveRoomPlayers` | src/cache/LocalCache.ts:39-41 | the stored list, or the empty list for a room not in the map |
| `LocalCaching.LocalCache.GetSession` | src/cache/LocalCache.ts:20-22 | always the empty string |
| `LocalCaching.LocalCache.UpdateSession` | src/cache/LocalCache.ts:43-45 | changes no room |
| `LocalCaching.LocalCache.ClearSession` | src/cache/LocalCache.ts:16-18 | changes no room |
| `PlayerSessions.WithPlayer` | src/manager/PlayerSessionsManager.ts:10-12 | storing a player adds or replaces the key `player.id` only; every other key keeps its player |
| `PlayerSessions.WithoutSession` | src/manager/PlayerSessionsManager.ts:14-16 | clearing removes exactly the given key and keeps every other entry |
| `PlayerSessions.WithPlayerIdempotent` | src/manager/PlayerSessionsManager.ts:11 | storing the same player twice equals storing it once |
| `PlayerSessions.WithoutAbsentSession` | src/manager/PlayerSessionsManager.ts:15 | clearing an absent key is a no-op |
| `PlayerSessions.PlayerSessionsManager.constructor` | src/manager/PlayerSessionsManager.ts:4 | a new table is empty |
| `PlayerSessions.PlayerSessionsManager.GetPlayer` | src/manager/PlayerSessionsManager.ts:6-8 | nothing (undefined) for an id never stored; otherwise the stored player, whose id is the key |
| `PlayerSessions.PlayerSessionsManager.UpdatePlayer` | src/manager/PlayerSessionsManager.ts:10-12 | stores under `player.id`, not under the socket id argument, which is left as it was; keeps one entry per id |
| `PlayerSessions.PlayerSessionsManager.ClearPlayer` | src/manager/PlayerSessionsManager.ts:14-16 | removes the key and keeps every other entry |
| `Messaging.Fanout` | src/messaging/Messenger.ts:27-29 | one delivery per listener, in registration order, each carrying the same message |
| `Messaging.FanoutReachesEveryListener` | src/messaging/Messenger.ts:27-29 | a listener receives the message if and only if it is registered, and every delivery carries that message |
| `Messaging.Messenger.constructor` | src/messaging/Messenger.ts:7 | a fresh messenger has no listener |
| `Messaging.Messenger.AddListener` | src/messaging/Messenger.ts:23-25 | appends the listener at the end; duplicates are kept; nothing is delivered |
| `Messaging.Messenger.DispatchMessage` | src/messaging/Messenger.ts:27-29 | the listener list is unchanged and the delivery log grows by exactly the fan-out of the message; no listener means no delivery |
| `LocalMessaging.Tagged` | src/messaging/LocalMessenger.ts:5-8 | the dispatched message keeps `command` and `args`; it is addressed to the destination unless it already carries its own `to`, which wins |
| `LocalMessaging.BroadcastIsSend` | src/messaging/LocalMessenger.ts:4-16 | broadcast to a room and send to a player with the same id deliver the same messages, one per listener, addressed to that id |
| `LocalMessaging.LocalMessenger.constructor` | src/messaging/Messenger.ts:7 | a new local messenger has no listener and has delivered nothing |
| `LocalMessaging.LocalMessenger.AddListener` | src/messaging/Messenger.ts:23-25 | appends to the listener list of the messenger it extends |
| `LocalMessaging.LocalMessenger.BroadcastToRoom` | src/messaging/LocalMessenger.ts:4-9 | one dispatch to every listener, whatever the room's members, of the message tagged with the room id; the listener list is unchanged |
| `LocalMessaging.LocalMessenger.SendToPlayer` | src/messaging/LocalMessenger.ts:11-16 | one dispatch to every listener of the message tagged with the player id; the listener list is unchanged |
| `RedisKeys.EnvOr` | src/cache/RedisCache.ts:6-7 | a prefix is the environment variable when set and non-empty, the default otherwise |
| `RedisKeys.RoomPrefix` | src/cache/RedisCache.ts:6 | the room prefix is `REDIS_ROOM_KEY_PRE` when set and non-empty, `crewlink:room:` otherwise |
| `RedisKeys.SessionPrefixAsWritten` | src/cache/RedisCache.ts:7 | as written, the session prefix equals the room prefix once `REDIS_ROOM_KEY_PRE` is set, and is `crewlink:session:` otherwise |
| `RedisKeys.SessionPrefix` | src/cache/RedisCache.ts:7 | the corrected session prefix is `REDIS_SESSION_KEY_PRE` when set and non-empty, `crewlink:session:` otherwise, whatever the room variable holds |
| `RedisKeys.Key` | src/cache/RedisCache.ts:16 | a key is the prefix, then the id between braces |
| `RedisKeys.KeyInjective` | src/cache/RedisCache.ts:16 | keys with one prefix are equal only for equal ids |
| `RedisKeys.KeysDisjoint` | src/cache/RedisCache.ts:16 | keys from two prefixes neither of which begins the other never collide |
| `RedisKeys.DefaultsPrefixFree` | src/cache/RedisCache.ts:6-7 | the default room and session prefixes do not begin one another |
| `RedisKeys.AsWrittenKeysCollide` | src/cache/RedisCache.ts:6-7 | as written, once REDIS_ROOM_KEY_PRE is set, the room key and the session key of an id are the same key |
| `RedisKeys.AsWrittenDefaultsDisjoint` | src/cache/RedisCache.ts:6-7 | as written, with REDIS_ROOM_KEY_PRE unset, no room key equals a session key |
| `RedisKeys.CorrectedKeysDisjoint` | src/cache/RedisCache.ts:6-7 | with a session prefix read from its own variable, room and session keys never collide when the prefixes do not begin one another |
| `RedisKeys.OnlyRoomVariableSet` | src/cache/RedisCache.ts:6-7 | setting only the room variable keeps corrected keys apart while the keys as written collide |
| `PlayerJson.QuoteRoundTrip` | src/cache/RedisCache.ts:17 | a serialised string is parsed back exactly, whatever follows it |
| `PlayerJson.IntRoundTrip` | src/cache/RedisCache.ts:17 | a serialised integer is parsed back exactly when no digit follows it |
| `PlayerJson.Encode` | src/cache/RedisCache.ts:17 | the text a player is stored as parses back to exactly that player |
| `PlayerJson.Decode` | src/cache/RedisCache.ts:43 | only a text that opens and closes with braces parses; a number, `null` or a string literal does not |
| `PlayerJson.EncodeInjective` | src/cache/RedisCache.ts:17 | different players are stored as different texts |
| `RedisCaching.HSet` | src/cache/RedisCache.ts:16-17 | HSET fails with WRONGTYPE exactly when the key holds a string, and then changes nothing; otherwise the key holds a hash with the field set to the value, its other fields and every other key unchanged |
| `RedisCaching.HDel` | src/cache/RedisCache.ts:28 | HDEL fails with WRONGTYPE exactly when the key holds a string, and then changes nothing; otherwise a remaining hash lacks the field, and every other key is unchanged |
| `RedisCaching.HGetAll` | src/cache/RedisCache.ts:39 | HGETALL fails exactly when the key holds a string; the reply is the hash's fields, and null exactly when the key holds no hash |
| `RedisCaching.Set` | src/cache/RedisCache.ts:64 | SET makes the key hold the string, whatever it held, and leaves every other key unchanged |
| `RedisCaching.Get` | src/cache/RedisCache.ts:75 | GET fails exactly when the key holds a hash; the reply is the string, and null exactly when the key holds no string |
| `RedisCaching.Del` | src/cache/RedisCache.ts:50 | DEL removes the key and leaves every other key unchanged |
| `RedisCaching.ParseAll` | src/cache/RedisCache.ts:43 | parsing the fields fails exactly when some value does not parse; otherwise it lists every field once, with as many players as fields, each the parse of its field's value |
| `RedisCaching.Settle` | src/cache/RedisCache.ts:18-21 | an error reply rejects the promise and the later `resolve` has no effect; no error resolves it with the value |
| `RedisCaching.HSetUpsert` | src/cache/RedisCache.ts:14-24 | storing a player field twice leaves one field with the later value, and every other field and key unchanged |
| `RedisCaching.HDelRemovesField` | src/cache/RedisCache.ts:26-35 | removal deletes only the named field, is a no-op when it is absent, deletes the key with its last field and keeps the keyspace free of empty hashes |
| `RedisCaching.HSetWellFormed` | src/cache/RedisCache.ts:14-24 | adding keeps the keyspace free of empty hashes |
| `RedisCaching.ReadAfterAdd` | src/cache/RedisCache.ts:14-46 | after adding a player, reading its room finds a field under its id that parses back to it |
| `RedisCaching.SessionRoundTrip` | src/cache/RedisCache.ts:48-82 | a written session reads back as the server id; a cleared session reads as null |
| `RedisCaching.SessionWritesKeepRooms` | src/cache/RedisCache.ts:48-71 | with prefixes that do not begin one another, session writes and clears leave every room's reading unchanged |
| `RedisCaching.AsWrittenSessionClobbersRoom` | src/cache/RedisCache.ts:6-7 | as written, with REDIS_ROOM_KEY_PRE set, writing a session for an id that is also a room id turns the room into a string: reading it and adding to it both fail |
| `RedisCaching.RedisCache.constructor` | src/cache/RedisCache.ts:5-12 | the store takes both prefixes from the environment as written, the session prefix from `REDIS_ROOM_KEY_PRE`, over the server's current contents, which hold no empty hash; every store operation keeps that invariant |
| `RedisCaching.RedisCache.WithSessionVariable` | src/cache/RedisCache.ts:5-12 | the corrected store reads its session prefix from a variable of its own |
| `RedisCaching.RedisCache.AddPlayerToRoom` | src/cache/RedisCache.ts:14-24 | the keyspace becomes the HSET of field `player.id` to the serialised player in the room's hash; the promise settles from the reply |
| `RedisCaching.RedisCache.RemovePlayerFromRoom` | src/cache/RedisCache.ts:26-35 | the keyspace becomes the HDEL of field `playerId` from the room's hash; the promise settles from the reply |
| `RedisCaching.RedisCache.RetrieveRoomPlayers` | src/cache/RedisCache.ts:37-46 | an error rejects and no error never rejects; a room with no hash (null reply) or a value that does not parse leaves the promise pending; otherwise it resolves to one parsed player per field, listing every field exactly once |
| `RedisCaching.RedisCache.RetrieveRoomPlayersOrEmpty` | src/cache/RedisCache.ts:37-46 | the corrected read: an error rejects and no error never rejects; a room with no hash resolves to the empty list; otherwise as `RetrieveRoomPlayers` |
| `RedisCaching.RedisCache.UpdateSession` | src/cache/RedisCache.ts:59-71 | the session key is set to the server id, and the promise resolves |
| `RedisCaching.RedisCache.GetSession` | src/cache/RedisCache.ts:73-82 | the session's server id, null when the key is absent, rejected when the key holds a hash |
| `RedisCaching.RedisCache.ClearSession` | src/cache/RedisCache.ts:48-57 | the session key is deleted, and the promise resolves |
| `RedisCaching.AddThenRead` | src/cache/RedisCache.ts:14-46 | after adding a player to a room, reading the room does not reject unless the room key held a string, and a read that resolves lists the player |
| `RedisCaching.SessionClobbersRoom` | src/cache/RedisCache.ts:7 | as written, with `REDIS_ROOM_KEY_PRE` set, adding a player to room `x`, then writing the session of socket `x`, makes the read of room `x` reject with WRONGTYPE |
| `RedisCaching.SessionKeepsRoom` | src/cache/RedisCache.ts:7 | on the corrected store with prefixes that do not begin one another, the same calls leave room `x` reading as exactly the player added |
| `RedisCaching.NewRoomStalls` | src/cache/RedisCache.ts:39-43 | as written, reading a room that has no hash never settles |
| `RedisCaching.NewRoomReadsEmpty` | src/cache/RedisCache.ts:39-43 | with a null reply read as an empty hash, the same read resolves to the empty list |
| `Gateway.IdsOf` | src/index.ts:93-96 | the `setIds` dictionary has at most one entry per listed player |
| `Gateway.IdsOfKeys` | src/index.ts:93-96 | the `setIds` dictionary has a key for exactly the ids of the room's players |
| `Gateway.IdsOfLastWins` | src/index.ts:93-96 | each id maps to the client id of its last entry, a later duplicate overwriting an earlier one |
| `Gateway.CollectIds` | src/index.ts:93-96 | the loop builds exactly the `setIds` dictionary of the room's players |
| `Gateway.CheckSignal` | src/index.ts:135-139 | a signal is forwarded if and only if it is an object with truthy `data` and a non-empty string `to`; a null payload throws; anything else disconnects |
| `Gateway.InRoom` | src/index.ts:115 | the room test holds exactly when `player.roomId` is set and truthy as a JavaScript string |
| `JsValue.TypeOf` | src/index.ts:85 | `typeof` is "object" exactly for null, arrays and objects, "string" exactly for strings and "number" exactly for numbers |
| `JsValue.Truthy` | src/index.ts:135 | a value is truthy exactly when it is none of `undefined`, `null`, `false`, `0` and `""` |
| `JsValue.Member` | src/index.ts:135 | a property read throws exactly on `undefined` and `null`, gives the field of an object that has it, and `undefined` otherwise |
| `Gateway.Relay.constructor` | src/index.ts:46-56 | the process starts with its identity and no connection |
| `Gateway.Relay.Connect` | src/index.ts:74-82 | the counter rises by one, and the connection starts with a player record carrying only the server id and the socket id |
| `Gateway.Connection.constructor` | src/index.ts:77-82 | a new player record has no room and no client id |
| `Gateway.Connection.OnJoin` | src/index.ts:84-105 | bad argument types disconnect and change nothing else; otherwise, in order: record the room (empty code included), read the room, emit `setIds`, join the socket, store the snapshot, broadcast `join` with `[socket id, id]`; the client id is never set and the counter is untouched |
| `Gateway.Connection.OnId` | src/index.ts:107-127 | a non-number disconnects with no change; a number is stored first; then no room (or room "") disconnects, and a room stores the snapshot and broadcasts `setId` with `[id]`; the counter is untouched |
| `Gateway.Connection.OnLeave` | src/index.ts:130-132 | only the socket leaves its room; the record, the store and the counter are untouched |
| `Gateway.Connection.OnSignal` | src/index.ts:134-151 | a rejected payload disconnects, a null payload throws, a valid one sends exactly one `signal` message to `to` with `[{data, from: socket id}]`; nothing else changes |
| `Gateway.Connection.OnDisconnect` | src/index.ts:153-156 | the counter falls by one and nothing else changes; the player stays in the store |
| `Gateway.TwoJoins` | src/index.ts:84-127 | with a non-empty room code, a joiner's `setIds` carries no client id for an earlier player that only sent `join`, and carries the client id of one that also sent `id` |

## Left out

- The Express application, the HTTP/HTTPS server, certificate loading, request logging, the
  static `offsets` files and the `/` and `/health` routes: web plumbing and I/O.
- The socket.io transport: `socket.join`, `socket.leave`, `socket.emit` and
  `socket.disconnect` are recorded as effects and not carried out.
- Public-address lookup, the tracer logger and uuid generation. The server identity is a
  constructor argument of `Relay`.
- `src/messaging/RabbitmqMessenger.ts`: both operations resolve without dispatching, so there is
  no broker logic. The handlers record their broadcasts and sends as effects instead of calling
  a messenger, so the stub is not needed.
- `src/cache/Cache.ts` and the abstract `sendToPlayer` and `broadcastToRoom` of `Messenger`:
  declarations without behaviour. The two stores are separate classes. The abstract `Messenger`,
  whose `addListener` and `dispatchMessage` are modelled, is the base object of
  `LocalMessenger`.
- Promise scheduling: each handler runs to completion, one at a time. The interleaving of
  handlers across connections and processes is not modelled.
- Gateway.Connection.OnJoin: the room's players are a parameter, the answer of the store. A
  store or bus call inside a handler that rejects or never settles, which would stop the handler
  at that `await`, is not modelled; every handler records all of its calls.
- RedisCaching.RedisCache: Redis transport faults are not modelled. Commands fail only with
  WRONGTYPE, when a key holds the other type.
- RedisCaching.HGetAll: the null reply for a missing key follows the `redis` client library's
  documented behaviour; the library's text is not part of this model. Were the reply an empty
  object instead, the read of a room with no hash would resolve to the empty list, as
  `RedisCaching.RedisCache.RetrieveRoomPlayersOrEmpty` does.
- RedisCaching.RedisCache.RetrieveRoomPlayers: a stored text that `JSON.parse` accepts but
  `PlayerJson.Decode` does not (other key orders, whitespace, `\n` or `\u` escapes, a
  non-object value) counts as failing to parse, so the model leaves the promise pending where
  the program would resolve. Every text the store itself writes parses (`PlayerJson.Encode`).
  The order in which the hash fields are listed is left unspecified: the method picks any
  order and states that every field appears exactly once. On a null reply, after an error
  reply, and on a value that does not parse, the callback throws a TypeError; the model keeps
  only the consequence that the promise stays pending. The exception leaving the callback, into
  the client library and possibly ending the process, is not modelled.
- PlayerJson.Decode: it reads only the layout `PlayerJson.Encode` writes: the members in
  record order, no whitespace, only the `\"` and `\\` escapes. `JSON.parse` also accepts other
  key orders, whitespace, further escapes and non-object values such as `1` or `null`, which
  `Decode` refuses. Conversely `Decode` accepts a client id with leading zeros, which
  `JSON.parse` refuses.
- PlayerJson.Encode: only `"` and `\` are escaped. Control characters, `\u` escapes and lone
  surrogates are not modelled. Numbers are integers: JavaScript numbers with a fraction, NaN and
  the infinities are not modelled.
- JsValue.Value: client numbers are integers. A NaN `id` would pass the `typeof` checks and is
  not represented.
- LocalCaching.LocalCache: the store keeps players by value. The JavaScript store keeps
  references to the live player object, and `retrieveRoomPlayers` returns its own array, so
  aliasing is not modelled.
- Gateway.IdsOf: a player id `__proto__`, which a plain JavaScript object treats specially, is
  an ordinary key here.

## Findings

| source | as written | input that shows it | evidently intended | confidence | as-written member | corrected member |
|---|---|---|---|---|---|---|
| src/cache/RedisCache.ts:7 | the session key prefix reads `REDIS_ROOM_KEY_PRE` | `REDIS_ROOM_KEY_PRE=app:`, a player added to room `x`, then `updateSession(x, ...)`: both keys are `app:{x}`, the room's hash becomes a string and `retrieveRoomPlayers(x)` rejects | a session prefix read from a variable of its own (`REDIS_SESSION_KEY_PRE` here) | high, not executed; latent, since no handler in src/index.ts calls `updateSession` | `RedisCaching.SessionClobbersRoom` | `RedisCaching.SessionKeepsRoom` |
| src/cache/LocalCache.ts:27-28 | `while (--i)` stops before index 0, so the first entry is never examined | a room `[p]` and `removePlayerFromRoom(room, p.id)`: `p` stays and the room is never deleted | remove every entry with the id and delete the room once it is empty | high, not executed | `LocalCaching.RemovalContrast` | `LocalCaching.RemovedIntendedKeepsRooms` |
| src/cache/RedisCache.ts:39-43 | `Object.keys(reply)` runs on the HGETALL reply, which the `redis` client gives as null for a missing key | the first `join` to a new room (src/index.ts:92): `Object.keys(null)` throws a TypeError inside the reply callback, after the promise executor has returned; the promise never settles, and the exception escapes into the client library, which by Node's default ends the process when nothing catches it | read a missing room as empty, with an empty object in place of the null reply | medium, not executed; rests on the client library's reply for a missing key | `RedisCaching.NewRoomStalls` | `RedisCaching.NewRoomReadsEmpty` |

The `LocalCache` class keeps the loop as written, since that loop is the behaviour modelled.
`LocalCaching.WithoutPlayer` is the intended filter, `LocalCaching.WithoutPlayerAppend` shows it
keeps the survivors in order, and `LocalCaching.RemovedIntended` applies it to the store. The
`RedisCache` class is likewise the code as written; its `WithSessionVariable` constructor and its
`RetrieveRoomPlayersOrEmpty` method are the corrected forms.
