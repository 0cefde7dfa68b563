/** The controller lifecycle every page controller builds on: `init` wires
    the controller to its model, sets up the view and renders once;
    `destroy` undoes every subscription it made. The model and the bus are
    optional; the view is known only by whether it exists and by the calls
    made on it. What the controller's own hooks and observer do is not part
    of this model. */
module Controllers {
  import opened Js
  import opened Models
  import opened Listeners
  import opened Events

  /** One entry of `_unsubscribers`: what calling it undoes. */
  datatype Unsubscriber = FromModel(observer: ObserverId) | FromBus(eventName: string, listener: ListenerId)

  /** The calls the lifecycle makes, in order. */
  datatype Step<V> = SubscribedToModel | ViewCallbacksSetUp | ViewUpdated(state: map<string, V>) | InitHook | DestroyHook | ViewDestroyed

  /** The listener map after calling the bus unsubscribers of `us` in order. */
  function OffAll(ls: map<string, seq<ListenerId>>, us: seq<Unsubscriber>): (r: map<string, seq<ListenerId>>)
    ensures r.Keys == ls.Keys
  {
    if us == [] then ls
    else
      var rest := OffAll(ls, us[..|us| - 1]);
      match us[|us| - 1]
      case FromModel(_) => rest
      case FromBus(e, l) => OffMap(rest, e, l)
  }

  class BaseController<V, D> {
    const model: BaseModel?<V>
    const hasView: bool
    const bus: EventBus?<D>
    /** The observer `_subscribeToModel` subscribes. */
    const observer: ObserverId
    var unsubscribers: seq<Unsubscriber>
    var initialized: bool
    var log: seq<Step<V>>

    /** Model unsubscribers exist only with a model, bus ones only with a bus. */
    predicate Valid()
      reads this
    {
      (model == null ==> forall k :: 0 <= k < |unsubscribers| ==> !unsubscribers[k].FromModel?) &&
      (bus == null ==> forall k :: 0 <= k < |unsubscribers| ==> !unsubscribers[k].FromBus?)
    }

    constructor(model: BaseModel?<V>, hasView: bool, bus: EventBus?<D>, observer: ObserverId)
      ensures Valid() && this.model == model && this.hasView == hasView && this.bus == bus && this.observer == observer
      ensures unsubscribers == [] && !initialized && log == []
    {
      this.model := model;
      this.hasView := hasView;
      this.bus := bus;
      this.observer := observer;
      unsubscribers := [];
      initialized := false;
      log := [];
    }

    /** `init()`: nothing on a second call; otherwise subscribe to the model
        (if any), set up the view callbacks, render the model's state into
        the view (if both exist), raise the flag and call `onInit`. */
    method Init()
      requires Valid()
      modifies this, model
      ensures Valid()
      ensures old(initialized) ==>
                initialized && unsubscribers == old(unsubscribers) && log == old(log) &&
                (model != null ==> model.observers == old(model.observers))
      ensures model != null ==> model.state == old(model.state) && model.notified == old(model.notified) && model.emitted == old(model.emitted)
      ensures !old(initialized) ==>
                initialized &&
                unsubscribers == old(unsubscribers) + (if model != null then [FromModel(observer)] else []) &&
                (model != null ==> model.observers == old(model.observers) + [observer] && model.state == old(model.state)) &&
                log == old(log) + (if model != null then [SubscribedToModel] else []) + [ViewCallbacksSetUp] +
                       (if model != null && hasView then [ViewUpdated(old(model.state))] else []) + [InitHook]
    {
      if initialized {
        return;
      }
      SubscribeToModel();
      log := log + [ViewCallbacksSetUp];
      InitialRender();
      initialized := true;
      log := log + [InitHook];
    }

    /** `_subscribeToModel()`. */
    method SubscribeToModel()
      requires Valid()
      modifies this, model
      ensures Valid() && initialized == old(initialized)
      ensures model == null ==> unsubscribers == old(unsubscribers) && log == old(log)
      ensures model != null ==>
                unsubscribers == old(unsubscribers) + [FromModel(observer)] && log == old(log) + [SubscribedToModel] &&
                model.observers == old(model.observers) + [observer] && model.state == old(model.state) &&
                model.notified == old(model.notified) && model.emitted == old(model.emitted)
    {
      if model != null {
        model.Subscribe(observer);
        unsubscribers := unsubscribers + [FromModel(observer)];
        log := log + [SubscribedToModel];
      }
    }

    /** `_initialRender()`. */
    method InitialRender()
      modifies this
      ensures unsubscribers == old(unsubscribers) && initialized == old(initialized)
      ensures log == old(log) + if model != null && hasView then [ViewUpdated(model.state)] else []
    {
      if model != null && hasView {
        log := log + [ViewUpdated(model.GetState())];
      }
    }

    /** `subscribeToEvent(eventName, handler)`: nothing without a bus;
        `bound` is the new function `handler.bind(this)` makes. */
    method SubscribeToEvent(eventName: string, bound: ListenerId)
      requires Valid()
      modifies this, bus
      ensures Valid() && initialized == old(initialized) && log == old(log)
      ensures bus == null ==> unsubscribers == old(unsubscribers)
      ensures bus != null ==>
                unsubscribers == old(unsubscribers) + [FromBus(eventName, bound)] &&
                bus.listeners == OnMap(old(bus.listeners), eventName, bound) && bus.delivered == old(bus.delivered)
    {
      if bus == null {
        return;
      }
      bus.On(eventName, bound);
      unsubscribers := unsubscribers + [FromBus(eventName, bound)];
    }

    /** `emitEvent(eventName, data)`: nothing without a bus. */
    method EmitEvent(eventName: string, data: D, reactions: map<ListenerId, Reaction>)
      modifies bus
      ensures bus != null && eventName in old(bus.listeners) ==>
                bus.delivered == old(bus.delivered) + Deliveries(old(bus.listeners)[eventName], eventName, data) &&
                bus.listeners == Reacted(old(bus.listeners), old(bus.listeners)[eventName], reactions)
      ensures bus != null && eventName !in old(bus.listeners) ==>
                bus.delivered == old(bus.delivered) && bus.listeners == old(bus.listeners)
    {
      if bus == null {
        return;
      }
      bus.Emit(eventName, data, reactions);
    }

    /** `destroy()`: call `onDestroy`, call every unsubscriber in order and
        empty the list, destroy the view and clear the model's observers
        where they exist, and lower the flag so that `init` can run again. */
    method Destroy()
      requires Valid()
      modifies this, model, bus
      ensures Valid() && unsubscribers == [] && !initialized
      ensures log == old(log) + [DestroyHook] + if hasView then [ViewDestroyed] else []
      ensures model != null ==> model.observers == [] && model.state == old(model.state) && model.notified == old(model.notified) && model.emitted == old(model.emitted)
      ensures bus != null ==> bus.listeners == OffAll(old(bus.listeners), old(unsubscribers)) && bus.delivered == old(bus.delivered)
    {
      log := log + [DestroyHook];
      CallUnsubscribers(unsubscribers);
      unsubscribers := [];
      if hasView {
        log := log + [ViewDestroyed];
      }
      if model != null {
        model.ClearObservers();
      }
      initialized := false;
    }

    /** The `forEach` of `destroy`: each unsubscriber of `us`, in order. */
    method CallUnsubscribers(us: seq<Unsubscriber>)
      modifies model, bus
      ensures model != null ==> model.state == old(model.state) && model.notified == old(model.notified) && model.emitted == old(model.emitted)
      ensures bus != null ==> bus.listeners == OffAll(old(bus.listeners), us) && bus.delivered == old(bus.delivered)
    {
      for i := 0 to |us|
        invariant model != null ==> model.state == old(model.state) && model.notified == old(model.notified) && model.emitted == old(model.emitted)
        invariant bus != null ==> bus.listeners == OffAll(old(bus.listeners), us[..i]) && bus.delivered == old(bus.delivered)
      {
        assert us[..i + 1][..i] == us[..i] && us[..i + 1][i] == us[i];
        match us[i]
        case FromModel(o) =>
          if model != null {
            model.Unsubscribe(o);
          }
        case FromBus(e, l) =>
          if bus != null {
            bus.Off(e, l);
          }
      }
      assert us[..|us|] == us;
    }
  }

  // Properties.

  /** Unsubscribing a bus listener that was the only one subscribed to an
      event leaves that event's list empty, and only that list changes. */
  lemma OneListenerUndone(ls: map<string, seq<ListenerId>>, eventName: string, l: ListenerId)
    requires eventName !in ls
    ensures OffAll(OnMap(ls, eventName, l), [FromBus(eventName, l)]) == ls[eventName := []]
  {
    OnThenOff(ls, eventName, l);
    assert [FromBus(eventName, l)][..0] == [];
  }

  /** Model unsubscribers leave the listener map alone. */
  lemma {:induction false} ModelUnsubscribersSkipBus(ls: map<string, seq<ListenerId>>, us: seq<Unsubscriber>)
    requires forall k :: 0 <= k < |us| ==> us[k].FromModel?
    ensures OffAll(ls, us) == ls
    decreases |us|
  {
    if us != [] {
      var init := us[..|us| - 1];
      assert forall k :: 0 <= k < |init| ==> init[k] == us[k];
      ModelUnsubscribersSkipBus(ls, init);
    }
  }
}
