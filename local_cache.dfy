/** The in-process room presence store: a map from room id to the list of players in it. */
module LocalCaching {
  import opened Model

  /** The players listed for `roomId`, the empty list for an unknown room. */
  function RoomOf(rooms: map<string, seq<Player>>, roomId: string): seq<Player> {
    if roomId in rooms then rooms[roomId] else []
  }

  /** The rooms after appending `player` to `roomId`, creating the room when it is absent. */
  function Appended(rooms: map<string, seq<Player>>, roomId: string, player: Player): (r: map<string, seq<Player>>)
    ensures r.Keys == rooms.Keys + {roomId}
    ensures |r[roomId]| == |RoomOf(rooms, roomId)| + 1 && r[roomId][|r[roomId]| - 1] == player
    ensures r[roomId][..|r[roomId]| - 1] == RoomOf(rooms, roomId)
    ensures forall k :: k in rooms && k != roomId ==> r[k] == rooms[k]
  {
    rooms[roomId := RoomOf(rooms, roomId) + [player]]
  }

  /** Appending is not idempotent: adding the same player twice lists it twice more. */
  lemma AddNotIdempotent(rooms: map<string, seq<Player>>, roomId: string, player: Player)
    ensures var twice := Appended(Appended(rooms, roomId, player), roomId, player);
      twice[roomId] == RoomOf(rooms, roomId) + [player, player]
  {
    var once := Appended(rooms, roomId, player);
    assert once[roomId] == RoomOf(rooms, roomId) + [player];
  }

  /** The intended removal: every entry whose id is `playerId` goes, the others keep their order. */
  function WithoutPlayer(room: seq<Player>, playerId: string): (r: seq<Player>)
    ensures |r| <= |room|
    ensures forall i :: 0 <= i < |r| ==> r[i].id != playerId
  {
    if room == [] then []
    else (if room[0].id == playerId then [] else [room[0]]) + WithoutPlayer(room[1..], playerId)
  }

  /** Removal as the decrementing loop performs it: it visits indices `|room| - 1` down to 1 and
      never index 0, so the first entry survives whatever its id. */
  function RemovedAsWritten(room: seq<Player>, playerId: string): (r: seq<Player>)
    requires room != []
    ensures r != [] && r[0] == room[0] && |r| <= |room|
  {
    [room[0]] + WithoutPlayer(room[1..], playerId)
  }

  /** The intended removal keeps exactly the entries whose id differs. */
  lemma {:induction false} WithoutPlayerMembers(room: seq<Player>, playerId: string)
    ensures forall q :: q in WithoutPlayer(room, playerId) <==> q in room && q.id != playerId
  {
    if room != [] {
      WithoutPlayerMembers(room[1..], playerId);
      assert room == [room[0]] + room[1..];
    }
  }

  /** Filtering distributes over concatenation, so survivors keep their relative order. */
  lemma {:induction false} WithoutPlayerAppend(a: seq<Player>, b: seq<Player>, playerId: string)
    ensures WithoutPlayer(a + b, playerId) == WithoutPlayer(a, playerId) + WithoutPlayer(b, playerId)
  {
    if a == [] {
      assert a + b == b;
    } else {
      assert (a + b)[0] == a[0];
      assert (a + b)[1..] == a[1..] + b;
      WithoutPlayerAppend(a[1..], b, playerId);
    }
  }

  /** Removal as written keeps the first entry and at least one entry, clears every match at a
      later index, and keeps the other entries in order. */
  lemma RemovalKeepsHead(room: seq<Player>, playerId: string)
    requires room != []
    ensures var r := RemovedAsWritten(room, playerId);
      && r != [] && r[0] == room[0]
      && (forall i :: 1 <= i < |r| ==> r[i].id != playerId)
      && (forall q :: q in room[1..] && q.id != playerId ==> q in r)
  {
    var r := RemovedAsWritten(room, playerId);
    WithoutPlayerMembers(room[1..], playerId);
    forall i | 1 <= i < |r| ensures r[i].id != playerId {
      assert r[i] in WithoutPlayer(room[1..], playerId);
    }
  }

  /** Removal as written agrees with the intended removal exactly when the first entry does not
      match: a player listed first can never be removed. */
  lemma RemovalContrast(room: seq<Player>, playerId: string)
    requires room != []
    ensures RemovedAsWritten(room, playerId) == WithoutPlayer(room, playerId) <==> room[0].id != playerId
  {
    if room[0].id == playerId {
      var w := WithoutPlayer(room, playerId);
      assert |w| <= |room[1..]|;
      assert |RemovedAsWritten(room, playerId)| == 1 + |WithoutPlayer(room[1..], playerId)|;
    }
  }

  /** Removal as evidently intended, over the whole store: every entry with the id leaves the room,
      and the room is deleted once it is empty; an unknown room changes nothing. */
  function RemovedIntended(rooms: map<string, seq<Player>>, roomId: string, playerId: string): map<string, seq<Player>> {
    if roomId !in rooms then rooms
    else
      var room := WithoutPlayer(rooms[roomId], playerId);
      if room == [] then rooms - {roomId} else rooms[roomId := room]
  }

  /** The intended removal keeps every room non-empty, deletes the room exactly when every entry
      had the id, otherwise leaves it with exactly its other entries, and touches no other room. */
  lemma RemovedIntendedKeepsRooms(rooms: map<string, seq<Player>>, roomId: string, playerId: string)
    requires forall k :: k in rooms ==> rooms[k] != []
    ensures var r := RemovedIntended(rooms, roomId, playerId);
      && (forall k :: k in r ==> r[k] != [])
      && (roomId in rooms ==>
            (roomId !in r <==> forall i :: 0 <= i < |rooms[roomId]| ==> rooms[roomId][i].id == playerId))
      && (roomId in r ==> forall q :: q in r[roomId] <==> q in RoomOf(rooms, roomId) && q.id != playerId)
      && (forall k :: k != roomId ==> (k in r <==> k in rooms) && (k in rooms ==> r[k] == rooms[k]))
  {
    if roomId in rooms {
      var room := rooms[roomId];
      var kept := WithoutPlayer(room, playerId);
      WithoutPlayerMembers(room, playerId);
      if kept == [] {
        forall i | 0 <= i < |room|
          ensures room[i].id == playerId
        {
          assert room[i] !in kept;
        }
      } else {
        assert kept[0] in kept;
      }
    }
  }

  class LocalCache {
    var rooms: map<string, seq<Player>>

    /** Every room present in the map lists at least one player. */
    ghost predicate Valid()
      reads this
    {
      forall r :: r in rooms ==> rooms[r] != []
    }

    constructor ()
      ensures Valid() && rooms == map[]
    {
      rooms := map[];
    }

    /** Creates the room list when absent and appends the player at its end, even when an entry
        with the same id is already there. */
    method AddPlayerToRoom(roomId: string, player: Player)
      requires Valid()
      modifies this
      ensures Valid()
      ensures rooms == Appended(old(rooms), roomId, player)
    {
      var room: seq<Player>;
      if roomId in rooms {
        room := rooms[roomId];
      } else {
        room := [];
        rooms := rooms[roomId := room];
      }
      room := room + [player];
      rooms := rooms[roomId := room];
    }

    /** The decrementing `while (--i)` loop: splices out every matching entry from the last index
        down to index 1; the room is deleted only if it ends up empty, which never happens. */
    method RemovePlayerFromRoom(roomId: string, playerId: string)
      requires Valid()
      modifies this
      ensures Valid()
      ensures roomId !in old(rooms) ==> rooms == old(rooms)
      ensures roomId in old(rooms) ==>
        rooms == old(rooms)[roomId := RemovedAsWritten(old(rooms)[roomId], playerId)]
    {
      if roomId in rooms {
        ghost var before := rooms[roomId];
        var room := rooms[roomId];
        var i := |room|;
        i := i - 1;
        ghost var kept := WithoutPlayer(before[|before|..], playerId);
        while i != 0
          invariant 0 <= i < |before|
          invariant kept == WithoutPlayer(before[i + 1..], playerId)
          invariant room == before[..i + 1] + kept
        {
          assert room[..i] == before[..i] && room[i] == before[i] && room[i + 1..] == kept;
          assert before[i..] == [before[i]] + before[i + 1..];
          if room[i].id == playerId {
            room := room[..i] + room[i + 1..];
          } else {
            kept := [before[i]] + kept;
          }
          i := i - 1;
        }
        assert before[..1] == [before[0]];
        rooms := if |room| == 0 then rooms - {roomId} else rooms[roomId := room];
      }
    }

    /** The list stored for the room, or the empty list for an unknown room. */
    method RetrieveRoomPlayers(roomId: string) returns (players: seq<Player>)
      ensures roomId !in rooms ==> players == []
      ensures roomId in rooms ==> players == rooms[roomId]
    {
      players := if roomId in rooms then rooms[roomId] else [];
    }

    /** The in-process store keeps no sessions: every lookup answers the empty string. */
    method GetSession(socketId: string) returns (serverId: string)
      ensures serverId == ""
    {
      serverId := "";
    }

    /** Session writes are accepted and ignored. */
    method UpdateSession(socketId: string, serverId: string)
      ensures rooms == old(rooms)
    {
    }

    /** Session removal is accepted and ignored. */
    method ClearSession(socketId: string)
      ensures rooms == old(rooms)
    {
    }
  }
}
