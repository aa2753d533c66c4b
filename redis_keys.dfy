/** How the Redis-backed store names its keys: a configurable prefix followed by the id in braces
    (the braces make the id a Redis Cluster hash tag). */
module RedisKeys {

  const DefaultRoomPrefix := "crewlink:room:"
  const DefaultSessionPrefix := "crewlink:session:"

  /** The process environment. */
  type Env = map<string, string>

  /** `process.env[name] || fallback`: an unset or empty variable gives the fallback. */
  function EnvOr(env: Env, name: string, fallback: string): (r: string)
    ensures name in env && env[name] != "" ==> r == env[name]
    ensures !(name in env && env[name] != "") ==> r == fallback
  {
    if name in env && env[name] != "" then env[name] else fallback
  }

  /** The room prefix: REDIS_ROOM_KEY_PRE when set, "crewlink:room:" otherwise. */
  function RoomPrefix(env: Env): (r: string)
    ensures "REDIS_ROOM_KEY_PRE" in env && env["REDIS_ROOM_KEY_PRE"] != "" ==> r == env["REDIS_ROOM_KEY_PRE"]
    ensures !("REDIS_ROOM_KEY_PRE" in env && env["REDIS_ROOM_KEY_PRE"] != "") ==> r == DefaultRoomPrefix
  {
    EnvOr(env, "REDIS_ROOM_KEY_PRE", DefaultRoomPrefix)
  }

  /** The session prefix as written: it reads the ROOM variable, so once that variable is set the
      two prefixes are the same string. */
  function SessionPrefixAsWritten(env: Env): (r: string)
    ensures "REDIS_ROOM_KEY_PRE" in env && env["REDIS_ROOM_KEY_PRE"] != "" ==> r == RoomPrefix(env)
    ensures !("REDIS_ROOM_KEY_PRE" in env && env["REDIS_ROOM_KEY_PRE"] != "") ==> r == DefaultSessionPrefix
  {
    EnvOr(env, "REDIS_ROOM_KEY_PRE", DefaultSessionPrefix)
  }

  /** The session prefix as evidently intended: REDIS_SESSION_KEY_PRE when set, whatever the room
      variable holds. */
  function SessionPrefix(env: Env): (r: string)
    ensures "REDIS_SESSION_KEY_PRE" in env && env["REDIS_SESSION_KEY_PRE"] != "" ==> r == env["REDIS_SESSION_KEY_PRE"]
    ensures !("REDIS_SESSION_KEY_PRE" in env && env["REDIS_SESSION_KEY_PRE"] != "") ==> r == DefaultSessionPrefix
  {
    EnvOr(env, "REDIS_SESSION_KEY_PRE", DefaultSessionPrefix)
  }

  /** `${prefix}{${id}}` */
  function Key(prefix: string, id: string): (k: string)
    ensures |k| == |prefix| + |id| + 2 && k[..|prefix|] == prefix
    ensures k[|prefix|] == '{' && k[|k| - 1] == '}' && k[|prefix| + 1..|k| - 1] == id
  {
    prefix + "{" + id + "}"
  }

  /** Neither prefix begins the other. */
  predicate PrefixFree(p: string, q: string) {
    !(p <= q) && !(q <= p)
  }

  /** Keys built from the same prefix are equal only for equal ids. */
  lemma KeyInjective(prefix: string, x: string, y: string)
    requires Key(prefix, x) == Key(prefix, y)
    ensures x == y
  {
    var k := Key(prefix, x);
    assert x == k[|prefix| + 1..|k| - 1];
  }

  /** Keys built from prefixes that do not begin one another never collide, whatever the ids. */
  lemma KeysDisjoint(p: string, q: string, x: string, y: string)
    requires PrefixFree(p, q)
    ensures Key(p, x) != Key(q, y)
  {
    var n := if |p| <= |q| then |p| else |q|;
    assert p[..n] != q[..n];
    var i :| 0 <= i < n && p[i] != q[i];
    assert Key(p, x)[i] == p[i] && Key(q, y)[i] == q[i];
  }

  /** The default prefixes first differ at their tenth character. */
  lemma DefaultsPrefixFree()
    ensures PrefixFree(DefaultRoomPrefix, DefaultSessionPrefix)
  {
    assert DefaultRoomPrefix[9] == 'r' && DefaultSessionPrefix[9] == 's';
  }

  /** As written, once REDIS_ROOM_KEY_PRE is set the room key and the session key of an id are
      the same Redis key. */
  lemma AsWrittenKeysCollide(env: Env, id: string)
    requires "REDIS_ROOM_KEY_PRE" in env && env["REDIS_ROOM_KEY_PRE"] != ""
    ensures Key(RoomPrefix(env), id) == Key(SessionPrefixAsWritten(env), id)
  {
  }

  /** As written, room and session keys are apart only while REDIS_ROOM_KEY_PRE is unset. */
  lemma AsWrittenDefaultsDisjoint(env: Env, roomId: string, socketId: string)
    requires !("REDIS_ROOM_KEY_PRE" in env && env["REDIS_ROOM_KEY_PRE"] != "")
    ensures Key(RoomPrefix(env), roomId) != Key(SessionPrefixAsWritten(env), socketId)
  {
    DefaultsPrefixFree();
    KeysDisjoint(DefaultRoomPrefix, DefaultSessionPrefix, roomId, socketId);
  }

  /** With the corrected session prefix, room and session keys never collide as long as the two
      configured prefixes do not begin one another; in particular with both variables unset, and
      with only the room variable set to a prefix that does not begin or extend the default
      session prefix. */
  lemma CorrectedKeysDisjoint(env: Env, roomId: string, socketId: string)
    requires PrefixFree(RoomPrefix(env), SessionPrefix(env))
    ensures Key(RoomPrefix(env), roomId) != Key(SessionPrefix(env), socketId)
  {
    KeysDisjoint(RoomPrefix(env), SessionPrefix(env), roomId, socketId);
  }

  /** Setting only REDIS_ROOM_KEY_PRE, to a prefix unrelated to the default session prefix, keeps
      the corrected keys apart while the keys as written collide. */
  lemma OnlyRoomVariableSet(env: Env, id: string)
    requires "REDIS_ROOM_KEY_PRE" in env && env["REDIS_ROOM_KEY_PRE"] != ""
    requires !("REDIS_SESSION_KEY_PRE" in env && env["REDIS_SESSION_KEY_PRE"] != "")
    requires PrefixFree(env["REDIS_ROOM_KEY_PRE"], DefaultSessionPrefix)
    ensures Key(RoomPrefix(env), id) != Key(SessionPrefix(env), id)
    ensures Key(RoomPrefix(env), id) == Key(SessionPrefixAsWritten(env), id)
  {
    KeysDisjoint(RoomPrefix(env), SessionPrefix(env), id, id);
  }
}
