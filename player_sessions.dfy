/** The per-process table of players keyed by socket id. */
module PlayerSessions {
  import opened Model

  /** The table after storing `player`: the key is the player's own id, not the socket id the
      caller passed. */
  function WithPlayer(players: map<string, Player>, player: Player): (r: map<string, Player>)
    ensures r.Keys == players.Keys + {player.id}
    ensures r[player.id] == player
    ensures forall k :: k in players && k != player.id ==> r[k] == players[k]
  {
    players[player.id := player]
  }

  /** The table after dropping the entry for `socketId`, if any. */
  function WithoutSession(players: map<string, Player>, socketId: string): (r: map<string, Player>)
    ensures r.Keys == players.Keys - {socketId}
    ensures forall k :: k in r ==> r[k] == players[k]
  {
    players - {socketId}
  }

  /** Storing the same player twice is the same as storing it once. */
  lemma WithPlayerIdempotent(players: map<string, Player>, player: Player)
    ensures WithPlayer(WithPlayer(players, player), player) == WithPlayer(players, player)
  {
  }

  /** Dropping an absent key leaves the table as it was. */
  lemma WithoutAbsentSession(players: map<string, Player>, socketId: string)
    requires socketId !in players
    ensures WithoutSession(players, socketId) == players
  {
  }

  class PlayerSessionsManager {
    var players: map<string, Player>

    /** Each player is stored under its own id, so there is one entry per id. */
    ghost predicate Valid()
      reads this
    {
      forall k :: k in players ==> players[k].id == k
    }

    constructor ()
      ensures Valid() && players == map[]
    {
      players := map[];
    }

    /** The stored player, `None` (undefined) for an id never stored or since cleared. */
    method GetPlayer(socketId: string) returns (player: Option<Player>)
      requires Valid()
      ensures socketId !in players ==> player == None
      ensures socketId in players ==> player == Some(players[socketId])
      ensures player.Some? ==> player.value.id == socketId
    {
      player := if socketId in players then Some(players[socketId]) else None;
    }

    /** Stores `player` under `player.id`; the `socketId` argument is ignored. */
    method UpdatePlayer(socketId: string, player: Player)
      requires Valid()
      modifies this
      ensures Valid()
      ensures players == WithPlayer(old(players), player)
      ensures socketId != player.id ==> (socketId in players <==> socketId in old(players))
    {
      players := players[player.id := player];
    }

    /** Drops the entry stored under `socketId`. */
    method ClearPlayer(socketId: string)
      requires Valid()
      modifies this
      ensures Valid()
      ensures players == WithoutSession(old(players), socketId)
    {
      players := players - {socketId};
    }
  }
}
