/** The in-process messenger: both operations tag the message with its destination and hand it to
    every listener of the underlying messenger, whatever the destination. */
module LocalMessaging {
  import opened Model
  import opened Messaging

  /** The object `{to: destination, ...message}`: the spread comes second, so a message that
      already carries its own `to` keeps it. */
  function Tagged(destination: string, m: Message): (r: Message)
    ensures r.command == m.command && r.args == m.args
    ensures m.to.None? ==> r.to == Some(destination)
    ensures m.to.Some? ==> r.to == m.to
  {
    Message(Some(if m.to.Some? then m.to.value else destination), m.command, m.args)
  }

  /** Room broadcast and point-to-point send to the same id deliver the same thing, and a message
      built without `to` comes out addressed to that id. */
  lemma BroadcastIsSend(listeners: seq<ListenerId>, id: string, command: string, args: seq<JsValue.Value>)
    ensures var r := Fanout(listeners, Tagged(id, Message(None, command, args)));
      |r| == |listeners| &&
      forall i :: 0 <= i < |r| ==> r[i].listener == listeners[i] && r[i].message == Message(Some(id), command, args)
  {
  }

  /** A `LocalMessenger`: the listener list and delivery log live in the messenger it extends. */
  class LocalMessenger {
    const base: Messenger

    constructor ()
      ensures fresh(base) && base.listeners == [] && base.delivered == []
    {
      base := new Messenger();
    }

    /** Registers a listener on the underlying messenger. */
    method AddListener(listener: ListenerId)
      modifies base
      ensures base.listeners == old(base.listeners) + [listener]
      ensures base.delivered == old(base.delivered)
    {
      base.AddListener(listener);
    }

    /** One dispatch of the message tagged with the room id, to every listener; room membership is
        not consulted. */
    method BroadcastToRoom(roomId: string, message: Message)
      modifies base
      ensures base.listeners == old(base.listeners)
      ensures base.delivered == old(base.delivered) + Fanout(base.listeners, Tagged(roomId, message))
    {
      base.DispatchMessage(Tagged(roomId, message));
    }

    /** One dispatch of the message tagged with the player id, to every listener. */
    method SendToPlayer(playerId: string, message: Message)
      modifies base
      ensures base.listeners == old(base.listeners)
      ensures base.delivered == old(base.delivered) + Fanout(base.listeners, Tagged(playerId, message))
    {
      base.DispatchMessage(Tagged(playerId, message));
    }
  }
}
