/** The message bus base: an ordered listener list and synchronous dispatch to every listener.
    Listeners are modelled by identifiers and a call `listener(message)` by an entry appended to
    a delivery log. */
module Messaging {
  import opened Model
  import opened JsValue

  /** A bus message. `to` is the destination tag a concrete messenger adds; messages built by the
      gateway carry only `command` and `args`. */
  datatype Message = Message(to: Option<string>, command: string, args: seq<Value>)

  type ListenerId = nat

  /** One invocation of a listener with a message. */
  datatype Delivery = Delivery(listener: ListenerId, message: Message)

  /** The invocations `forEach` performs: each listener once, in registration order, each with the
      same message. */
  function Fanout(listeners: seq<ListenerId>, m: Message): (r: seq<Delivery>)
    ensures |r| == |listeners|
    ensures forall i :: 0 <= i < |r| ==> r[i] == Delivery(listeners[i], m)
  {
    if listeners == [] then [] else [Delivery(listeners[0], m)] + Fanout(listeners[1..], m)
  }

  /** Every registered listener receives the message, and only registered listeners do. */
  lemma FanoutReachesEveryListener(listeners: seq<ListenerId>, m: Message, l: ListenerId)
    ensures Delivery(l, m) in Fanout(listeners, m) <==> l in listeners
    ensures forall d :: d in Fanout(listeners, m) ==> d.message == m
  {
    var r := Fanout(listeners, m);
    if l in listeners {
      var i :| 0 <= i < |listeners| && listeners[i] == l;
      assert r[i] == Delivery(l, m);
    }
  }

  class Messenger {
    var listeners: seq<ListenerId>
    var delivered: seq<Delivery>

    /** A fresh messenger has no listener and has delivered nothing. */
    constructor ()
      ensures listeners == [] && delivered == []
    {
      listeners := [];
      delivered := [];
    }

    /** Appends a listener; duplicates are kept and registration order is preserved. */
    method AddListener(listener: ListenerId)
      modifies this
      ensures listeners == old(listeners) + [listener]
      ensures delivered == old(delivered)
    {
      listeners := listeners + [listener];
    }

    /** Calls every registered listener with `message`, in registration order. */
    method DispatchMessage(message: Message)
      modifies this
      ensures listeners == old(listeners)
      ensures delivered == old(delivered) + Fanout(listeners, message)
    {
      var i := 0;
      while i < |listeners|
        invariant 0 <= i <= |listeners|
        invariant listeners == old(listeners)
        invariant delivered == old(delivered) + Fanout(listeners[..i], message)
      {
        assert Fanout(listeners[..i + 1], message) == Fanout(listeners[..i], message) + [Delivery(listeners[i], message)];
        delivered := delivered + [Delivery(listeners[i], message)];
        i := i + 1;
      }
      assert listeners[..i] == listeners;
    }
  }
}
