/** The application event bus: per event name, the list of listeners in
    subscription order. Listeners are known by identity. What a listener
    does when called is a parameter of `emit`: nothing, throw (the bus
    catches it), or subscribe or unsubscribe a listener, which the bus's
    snapshot keeps out of the current round. */
module Listeners {
  import opened Js

  type ListenerId = int

  /** What one listener call does to the bus. */
  datatype Reaction = NoReaction | Throws | Subscribes(eventName: string, listener: ListenerId) | Unsubscribes(eventName: string, listener: ListenerId)

  /** One listener call `callback(data)` made by `emit`. */
  datatype Delivery<D> = Delivery(listener: ListenerId, eventName: string, data: D)

  /** `on(eventName, callback)` on the listener map: the list is created
      when missing and the callback appended, duplicates included. */
  function OnMap(ls: map<string, seq<ListenerId>>, eventName: string, cb: ListenerId): (r: map<string, seq<ListenerId>>)
    ensures r.Keys == ls.Keys + {eventName}
    ensures r[eventName] == (if eventName in ls then ls[eventName] else []) + [cb]
    ensures forall e :: e in ls && e != eventName ==> r[e] == ls[e]
  {
    ls[eventName := (if eventName in ls then ls[eventName] else []) + [cb]]
  }

  /** `off(eventName, callback)`: nothing for an unknown event, otherwise
      the first occurrence of the callback leaves the list, which stays
      in the map even when it becomes empty. */
  function OffMap(ls: map<string, seq<ListenerId>>, eventName: string, cb: ListenerId): (r: map<string, seq<ListenerId>>)
    ensures r.Keys == ls.Keys
    ensures eventName in ls ==> r[eventName] == RemoveFirst(ls[eventName], cb)
    ensures forall e :: e in ls && e != eventName ==> r[e] == ls[e]
  {
    if eventName in ls then ls[eventName := RemoveFirst(ls[eventName], cb)] else ls
  }

  function ReactionOf(reactions: map<ListenerId, Reaction>, l: ListenerId): Reaction
  {
    if l in reactions then reactions[l] else NoReaction
  }

  /** The listener map after one listener call. */
  function React(ls: map<string, seq<ListenerId>>, rx: Reaction): (r: map<string, seq<ListenerId>>)
    ensures ls.Keys <= r.Keys
    ensures r.Keys <= ls.Keys + (if rx.Subscribes? then {rx.eventName} else {})
  {
    match rx
    case NoReaction => ls
    case Throws => ls
    case Subscribes(e, cb) => OnMap(ls, e, cb)
    case Unsubscribes(e, cb) => OffMap(ls, e, cb)
  }

  /** The listener map after the calls of `snapshot`, in order: no event
      loses its list, and an event gains one only when a listener of the
      snapshot subscribes to it. */
  function Reacted(ls: map<string, seq<ListenerId>>, snapshot: seq<ListenerId>, reactions: map<ListenerId, Reaction>): (r: map<string, seq<ListenerId>>)
    ensures ls.Keys <= r.Keys
    ensures forall e :: e in r && e !in ls ==>
              exists k :: 0 <= k < |snapshot| && ReactionOf(reactions, snapshot[k]).Subscribes? && ReactionOf(reactions, snapshot[k]).eventName == e
    decreases |snapshot|
  {
    if snapshot == [] then ls
    else
      var init := snapshot[..|snapshot| - 1];
      assert forall k :: 0 <= k < |init| ==> init[k] == snapshot[k];
      React(Reacted(ls, init, reactions), ReactionOf(reactions, snapshot[|snapshot| - 1]))
  }

  /** The calls of one round over `snapshot`: every listener, in order. */
  function Deliveries<D>(snapshot: seq<ListenerId>, eventName: string, data: D): (r: seq<Delivery<D>>)
    ensures |r| == |snapshot|
    ensures forall k :: 0 <= k < |snapshot| ==> r[k] == Delivery(snapshot[k], eventName, data)
  {
    seq(|snapshot|, k requires 0 <= k < |snapshot| => Delivery(snapshot[k], eventName, data))
  }

  // Properties.

  /** A listener subscribed once and then unsubscribed leaves its list as
      it was; on an event that had no list, an empty list remains. */
  lemma OnThenOff(ls: map<string, seq<ListenerId>>, eventName: string, cb: ListenerId)
    requires eventName in ls ==> cb !in ls[eventName]
    ensures eventName in ls ==> OffMap(OnMap(ls, eventName, cb), eventName, cb) == ls
    ensures eventName !in ls ==> OffMap(OnMap(ls, eventName, cb), eventName, cb) == ls[eventName := []]
  {
    if eventName in ls {
      var list := ls[eventName];
      RemoveFirstAppended(list, cb);
      OffAfterOn(ls, eventName, cb, list);
    } else {
      RemoveFirstAppended([], cb);
      OffAfterOn(ls, eventName, cb, []);
    }
  }

  lemma OffAfterOn(ls: map<string, seq<ListenerId>>, eventName: string, cb: ListenerId, before: seq<ListenerId>)
    requires before == if eventName in ls then ls[eventName] else []
    requires RemoveFirst(before + [cb], cb) == before
    ensures OffMap(OnMap(ls, eventName, cb), eventName, cb) == ls[eventName := before]
  {
    var on := ls[eventName := before + [cb]];
    assert OnMap(ls, eventName, cb) == on;
    assert OffMap(on, eventName, cb) == on[eventName := before];
  }

  /** With duplicates, `off` removes one occurrence at a time. */
  lemma OffRemovesOne(ls: map<string, seq<ListenerId>>, eventName: string, cb: ListenerId)
    requires eventName in ls && cb in ls[eventName]
    ensures multiset(OffMap(ls, eventName, cb)[eventName])[cb] == multiset(ls[eventName])[cb] - 1
  {
  }

  /** A round calls each listener as often as it is in the snapshot. */
  lemma DeliveriesCount<D>(snapshot: seq<ListenerId>, l: ListenerId, eventName: string, data: D)
    ensures multiset(Deliveries(snapshot, eventName, data))[Delivery(l, eventName, data)] == multiset(snapshot)[l]
  {
    CountsAlike(snapshot, Deliveries(snapshot, eventName, data), l, Delivery(l, eventName, data));
  }

  /** Reactions change only the lists they name; the rest of the map is
      left alone by the round. */
  lemma {:induction false} ReactedKeepsOthers(ls: map<string, seq<ListenerId>>, snapshot: seq<ListenerId>, reactions: map<ListenerId, Reaction>, e: string)
    requires e in ls
    requires forall k :: 0 <= k < |snapshot| ==> ReactionOf(reactions, snapshot[k]).NoReaction? || ReactionOf(reactions, snapshot[k]).Throws? || ReactionOf(reactions, snapshot[k]).eventName != e
    ensures e in Reacted(ls, snapshot, reactions) && Reacted(ls, snapshot, reactions)[e] == ls[e]
    decreases |snapshot|
  {
    if snapshot != [] {
      var init := snapshot[..|snapshot| - 1];
      assert forall k :: 0 <= k < |init| ==> init[k] == snapshot[k];
      ReactedKeepsOthers(ls, init, reactions, e);
    }
  }
}

/** The bus object and the module-level slot that guards its singleton. */
module Events {
  import opened Js
  import opened Listeners

  const AlreadyInstantiated := "EventBus já instanciado. Use EventBus.getInstance()"

  class EventBus<D> {
    var listeners: map<string, seq<ListenerId>>
    /** Every listener call made so far. */
    var delivered: seq<Delivery<D>>

    constructor()
      ensures listeners == map[] && delivered == []
    {
      listeners := map[];
      delivered := [];
    }

    /** `on(eventName, callback)`; the function it returns is
        `Off(eventName, callback)`. */
    method On(eventName: string, cb: ListenerId)
      modifies this
      ensures listeners == OnMap(old(listeners), eventName, cb) && delivered == old(delivered)
    {
      var list := if eventName in listeners then listeners[eventName] else [];
      listeners := listeners[eventName := list + [cb]];
    }

    method Off(eventName: string, cb: ListenerId)
      modifies this
      ensures listeners == OffMap(old(listeners), eventName, cb) && delivered == old(delivered)
    {
      if eventName !in listeners {
        return;
      }
      var list := listeners[eventName];
      var index := IndexOf(list, cb);
      if index < |list| {
        listeners := listeners[eventName := list[..index] + list[index + 1..]];
      }
    }

    /** `emit(eventName, data)`: every listener of a copy of the list taken
        before the first call is called, in order, whatever the earlier ones
        did; nothing happens for an event nobody ever subscribed to. */
    method Emit(eventName: string, data: D, reactions: map<ListenerId, Reaction>)
      modifies this
      ensures eventName !in old(listeners) ==> listeners == old(listeners) && delivered == old(delivered)
      ensures eventName in old(listeners) ==>
                delivered == old(delivered) + Deliveries(old(listeners)[eventName], eventName, data) &&
                listeners == Reacted(old(listeners), old(listeners)[eventName], reactions)
    {
      if eventName !in listeners {
        return;
      }
      var snapshot := listeners[eventName];
      for i := 0 to |snapshot|
        invariant delivered == old(delivered) + Deliveries(snapshot[..i], eventName, data)
        invariant listeners == Reacted(old(listeners), snapshot[..i], reactions)
      {
        assert snapshot[..i + 1][..i] == snapshot[..i] && snapshot[..i + 1][i] == snapshot[i];
        assert Deliveries(snapshot[..i + 1], eventName, data) ==
               Deliveries(snapshot[..i], eventName, data) + [Delivery(snapshot[i], eventName, data)];
        delivered := delivered + [Delivery(snapshot[i], eventName, data)];
        match ReactionOf(reactions, snapshot[i])
        case NoReaction =>
        case Throws =>
        case Subscribes(e, cb) => On(e, cb);
        case Unsubscribes(e, cb) => Off(e, cb);
      }
      assert snapshot[..|snapshot|] == snapshot;
    }

    method ClearAll()
      modifies this
      ensures listeners == map[] && delivered == old(delivered)
    {
      listeners := map[];
    }
  }

  /** The module-level `_instance` behind the singleton guard. */
  class BusSlot<D> {
    var instance: EventBus?<D>

    constructor()
      ensures instance == null
    {
      instance := null;
    }

    /** `new EventBus()`: refused while an instance exists. */
    method NewBus() returns (r: Result<EventBus<D>, string>)
      modifies this
      ensures old(instance) != null ==> r == Err(AlreadyInstantiated) && instance == old(instance)
      ensures old(instance) == null ==>
                r.Ok? && fresh(r.value) && instance == r.value &&
                r.value.listeners == map[] && r.value.delivered == []
    {
      if instance != null {
        return Err(AlreadyInstantiated);
      }
      var bus := new EventBus();
      instance := bus;
      return Ok(bus);
    }

    /** `EventBus.getInstance()`: the existing instance, or a new one. */
    method GetInstance() returns (bus: EventBus<D>)
      modifies this
      ensures old(instance) != null ==> bus == old(instance) && instance == old(instance)
      ensures old(instance) == null ==> fresh(bus) && bus.listeners == map[] && bus.delivered == []
      ensures instance == bus
    {
      if instance != null {
        return instance;
      }
      var made := NewBus();
      bus := made.value;
    }

    /** `EventBus.resetInstance()`: the instance's lists are cleared and the
        slot emptied. */
    method ResetInstance()
      modifies this, instance
      ensures instance == null
      ensures old(instance) != null ==> old(instance).listeners == map[] && old(instance).delivered == old(instance.delivered)
    {
      if instance != null {
        instance.ClearAll();
      }
      instance := null;
    }

    /** `bus.destroy()`: that bus's lists are cleared and the slot emptied,
        whichever bus the slot held. */
    method Destroy(bus: EventBus<D>)
      modifies this, bus
      ensures instance == null && bus.listeners == map[] && bus.delivered == old(bus.delivered)
    {
      bus.ClearAll();
      instance := null;
    }
  }
}
