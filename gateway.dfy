/** The per-connection event handlers of the relay server. Each connection keeps a player record;
    the process keeps a connection counter. The handlers validate their untyped arguments, update
    the record and then talk to the store, the messenger and the socket; those calls are recorded,
    in order, as effects. */
module Gateway {
  import opened Model
  import opened JsValue
  import opened Messaging

  /** What a handler does beyond the player record and the counter. */
  datatype Effect =
    | Disconnect                                   // socket.disconnect()
    | Threw                                        // the handler's promise rejects with a TypeError
    | CacheRetrieve(roomId: string)                // cache.retrieveRoomPlayers(roomId)
    | EmitSetIds(ids: map<string, Option<int>>)    // socket.emit('setIds', ids)
    | SocketJoin(roomId: string)                   // socket.join(roomId)
    | SocketLeave(roomId: string)                  // socket.leave(roomId)
    | CacheAdd(roomId: string, player: Player)     // cache.addPlayerToRoom(roomId, snapshot)
    | Broadcast(roomId: string, message: Message)  // messenger.broadcastToRoom(roomId, message)
    | Send(playerId: string, message: Message)     // messenger.sendToPlayer(playerId, message)

  /** The `setIds` dictionary built from the room's players: each player's id mapped to its
      client id, a later entry overwriting an earlier one with the same id. */
  function IdsOf(players: seq<Player>): (r: map<string, Option<int>>)
    ensures |r| <= |players|
  {
    if players == [] then map[]
    else
      var last := players[|players| - 1];
      IdsOf(players[..|players| - 1])[last.id := last.clientId]
  }

  /** The dictionary has a key for exactly the ids of the listed players. */
  lemma {:induction false} IdsOfKeys(players: seq<Player>)
    ensures forall k :: k in IdsOf(players) <==> exists i :: 0 <= i < |players| && players[i].id == k
  {
    if players != [] {
      var init := players[..|players| - 1];
      IdsOfKeys(init);
      forall k | exists i :: 0 <= i < |players| && players[i].id == k
        ensures k in IdsOf(players)
      {
        var i :| 0 <= i < |players| && players[i].id == k;
        if i < |players| - 1 {
          assert init[i].id == k;
        }
      }
    }
  }

  /** Each id maps to the client id of its last entry in the list. */
  lemma {:induction false} IdsOfLastWins(players: seq<Player>, i: nat)
    requires i < |players|
    requires forall j :: i < j < |players| ==> players[j].id != players[i].id
    ensures players[i].id in IdsOf(players) && IdsOf(players)[players[i].id] == players[i].clientId
  {
    if i < |players| - 1 {
      var init := players[..|players| - 1];
      IdsOfLastWins(init, i);
    }
  }

  /** The `for ... of` loop of the join handler that fills the `ids` dictionary. */
  method CollectIds(players: seq<Player>) returns (ids: map<string, Option<int>>)
    ensures ids == IdsOf(players)
  {
    ids := map[];
    var i := 0;
    while i < |players|
      invariant 0 <= i <= |players|
      invariant ids == IdsOf(players[..i])
    {
      assert players[..i + 1][..i] == players[..i];
      ids := ids[players[i].id := players[i].clientId];
      i := i + 1;
    }
    assert players[..i] == players;
  }

  /** The outcome of the signal handler's guard. */
  datatype SignalCheck = Reject | Throws | Forward(to: string, data: Value)

  /** The guard `typeof signal !== 'object' || !signal.data || !signal.to || typeof signal.to !==
      'string'`, evaluated left to right. `typeof null` is "object", so a null payload reaches the
      property read, which throws instead of disconnecting. */
  function CheckSignal(signal: Value): (r: SignalCheck)
    ensures r.Throws? <==> signal.Null?
    ensures r.Forward? <==>
      && signal.Obj?
      && "data" in signal.fields && Truthy(signal.fields["data"])
      && "to" in signal.fields && signal.fields["to"].Str? && signal.fields["to"].s != ""
    ensures r.Forward? ==> r.to == signal.fields["to"].s && r.data == signal.fields["data"]
  {
    if TypeOf(signal) != "object" then Reject
    else match Member(signal, "data")
      case None => Throws
      case Some(data) =>
        if !Truthy(data) then Reject
        else match Member(signal, "to")
          case None => Throws
          case Some(to) =>
            if !Truthy(to) || TypeOf(to) != "string" then Reject
            else Forward(to.s, data)
  }

  /** `player.roomId` is truthy: set and not the empty string. */
  predicate InRoom(p: Player)
    ensures InRoom(p) <==> p.roomId.Some? && Truthy(Str(p.roomId.value))
  {
    p.roomId.Some? && p.roomId.value != ""
  }

  /** The process: its identity and its live-connection counter. */
  class Relay {
    const serverId: string
    var connectionCount: int

    constructor (serverId: string)
      ensures this.serverId == serverId && connectionCount == 0
    {
      this.serverId := serverId;
      connectionCount := 0;
    }

    /** The 'connection' event: counts the connection and gives it a fresh player record. */
    method Connect(socketId: string) returns (c: Connection)
      modifies this
      ensures connectionCount == old(connectionCount) + 1
      ensures fresh(c) && c.relay == this && c.socketId == socketId
      ensures c.player == Player(None, serverId, None, socketId) && c.effects == []
    {
      connectionCount := connectionCount + 1;
      c := new Connection(this, socketId);
    }
  }

  /** One live connection: its player record and the effects its handlers have issued. */
  class Connection {
    const relay: Relay
    const socketId: string
    var player: Player
    var effects: seq<Effect>

    constructor (relay: Relay, socketId: string)
      ensures this.relay == relay && this.socketId == socketId
      ensures player == Player(None, relay.serverId, None, socketId) && effects == []
    {
      this.relay := relay;
      this.socketId := socketId;
      player := Player(None, relay.serverId, None, socketId);
      effects := [];
    }

    /** 'join' (code, id): a non-string code or a non-number id disconnects and changes nothing
        else; otherwise the room is recorded (the empty code included), the room's players are
        read, their ids are sent back, the socket joins the room, the player's snapshot is
        stored and the join is broadcast. The id argument is never stored in the record. */
    method OnJoin(code: Value, id: Value, roomPlayers: seq<Player>)
      modifies this
      ensures !(code.Str? && id.Num?) ==> player == old(player) && effects == old(effects) + [Disconnect]
      ensures code.Str? && id.Num? ==>
        && player == old(player).(roomId := Some(code.s))
        && effects == old(effects) + [
             CacheRetrieve(code.s),
             EmitSetIds(IdsOf(roomPlayers)),
             SocketJoin(code.s),
             CacheAdd(code.s, player),
             Broadcast(code.s, Message(None, "join", [Str(socketId), id]))]
      ensures player.clientId == old(player.clientId) && player.id == old(player.id)
      ensures relay.connectionCount == old(relay.connectionCount)
    {
      if TypeOf(code) != "string" || TypeOf(id) != "number" {
        effects := effects + [Disconnect];
        return;
      }
      player := player.(roomId := Some(code.s));
      effects := effects + [CacheRetrieve(code.s)];
      var ids := CollectIds(roomPlayers);
      effects := effects + [EmitSetIds(ids), SocketJoin(code.s), CacheAdd(player.roomId.value, player)];
      effects := effects + [Broadcast(player.roomId.value, Message(None, "join", [Str(socketId), id]))];
    }

    /** 'id' (id): a non-number disconnects; otherwise the client id is stored first, and then a
        player outside any room (or in the room "") is disconnected, while a player in a room is
        stored again and its new id broadcast. */
    method OnId(id: Value)
      modifies this
      ensures !id.Num? ==> player == old(player) && effects == old(effects) + [Disconnect]
      ensures id.Num? ==> player == old(player).(clientId := Some(id.n))
      ensures id.Num? && !InRoom(player) ==> effects == old(effects) + [Disconnect]
      ensures id.Num? && InRoom(player) ==>
        effects == old(effects) + [
          CacheAdd(player.roomId.value, player),
          Broadcast(player.roomId.value, Message(None, "setId", [id]))]
      ensures relay.connectionCount == old(relay.connectionCount)
    {
      if TypeOf(id) != "number" {
        effects := effects + [Disconnect];
        return;
      }
      player := player.(clientId := Some(id.n));
      if !InRoom(player) {
        effects := effects + [Disconnect];
        return;
      }
      effects := effects + [CacheAdd(player.roomId.value, player)];
      effects := effects + [Broadcast(player.roomId.value, Message(None, "setId", [id]))];
    }

    /** 'leave': the socket leaves its room's delivery group; the record, the store and the
        counter are untouched. */
    method OnLeave()
      modifies this
      ensures player == old(player)
      ensures effects == old(effects) + (if InRoom(player) then [SocketLeave(player.roomId.value)] else [])
      ensures relay.connectionCount == old(relay.connectionCount)
    {
      if InRoom(player) {
        effects := effects + [SocketLeave(player.roomId.value)];
      }
    }

    /** 'signal' (signal): a payload without truthy `data` and a non-empty string `to`
        disconnects; a null payload throws; otherwise exactly one message goes to `to`. */
    method OnSignal(signal: Value)
      modifies this
      ensures player == old(player)
      ensures CheckSignal(signal).Reject? ==> effects == old(effects) + [Disconnect]
      ensures CheckSignal(signal).Throws? ==> effects == old(effects) + [Threw]
      ensures CheckSignal(signal).Forward? ==>
        var check := CheckSignal(signal);
        effects == old(effects) + [
          Send(check.to, Message(None, "signal", [Obj(map["data" := check.data, "from" := Str(socketId)])]))]
      ensures relay.connectionCount == old(relay.connectionCount)
    {
      match CheckSignal(signal)
      case Reject =>
        effects := effects + [Disconnect];
      case Throws =>
        effects := effects + [Threw];
      case Forward(to, data) =>
        effects := effects + [Send(to, Message(None, "signal", [Obj(map["data" := data, "from" := Str(socketId)])]))];
    }

    /** 'disconnect': only the counter goes down; the store keeps the player's entries. */
    method OnDisconnect()
      modifies relay
      ensures relay.connectionCount == old(relay.connectionCount) - 1
      ensures player == old(player) && effects == old(effects)
    {
      relay.connectionCount := relay.connectionCount - 1;
    }
  }

  /** Connections join the same room, under a non-empty code, each later one being given the earlier one's
      stored snapshot as the room's contents. The id passed to `join` is not stored, so B learns no
      client id for A; D learns C's client id because C sent an 'id' event after joining. */
  method TwoJoins(code: string) returns (plain: map<string, Option<int>>, identified: map<string, Option<int>>)
    requires code != ""
    ensures plain == map["A" := None]
    ensures identified == map["C" := Some(1)]
  {
    var relay := new Relay("server");
    var a := relay.Connect("A");
    a.OnJoin(Str(code), Num(1), []);
    var snapshot := a.effects[3].player;
    var b := relay.Connect("B");
    b.OnJoin(Str(code), Num(2), [snapshot]);
    plain := b.effects[1].ids;

    var c := relay.Connect("C");
    c.OnJoin(Str(code), Num(1), []);
    c.OnId(Num(1));
    snapshot := c.effects[5].player;
    var d := relay.Connect("D");
    d.OnJoin(Str(code), Num(2), [snapshot]);
    identified := d.effects[1].ids;
  }
}
