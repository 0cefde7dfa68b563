/** The observable model every application model builds on: a state object
    merged by `setState`, an ordered list of observers notified of each change
    with the new and the previous state, and a `<name>:change` event on the
    bus when the model has one. Observers are known by identity; what they do
    when notified is outside the model, and since every call is wrapped in a
    `try`, a throwing observer never keeps the later ones from being called. */
module Models {
  import opened Js

  type ObserverId = int

  /** One call `observer(newState, previousState)`. */
  datatype Notification<V> = Notification(observer: ObserverId, newState: map<string, V>, previousState: map<string, V>)

  /** One `eventBus.emit(name, { newState, previousState, modelName })`. */
  datatype ChangeEvent<V> = ChangeEvent(eventName: string, newState: map<string, V>, previousState: map<string, V>, modelName: string)

  /** The calls of one notification round: every observer, in order. */
  function Round<V>(observers: seq<ObserverId>, newState: map<string, V>, previousState: map<string, V>): (r: seq<Notification<V>>)
    ensures |r| == |observers|
    ensures forall k :: 0 <= k < |observers| ==> r[k] == Notification(observers[k], newState, previousState)
  {
    seq(|observers|, k requires 0 <= k < |observers| => Notification(observers[k], newState, previousState))
  }

  /** `${modelName}:change`. */
  function ChangeEventName(modelName: string): string
  {
    modelName + ":change"
  }

  /** `{ ...state, ...partial }`: the keys of `partial` win. */
  function Merge<V>(state: map<string, V>, partial: map<string, V>): (r: map<string, V>)
    ensures r.Keys == state.Keys + partial.Keys
    ensures forall k :: k in partial ==> r[k] == partial[k]
    ensures forall k :: k in state && k !in partial ==> r[k] == state[k]
  {
    state + partial
  }

  class BaseModel<V> {
    var state: map<string, V>
    const modelName: string
    var observers: seq<ObserverId>
    const hasBus: bool
    /** Every observer call made so far. */
    var notified: seq<Notification<V>>
    /** Every change event emitted so far. */
    var emitted: seq<ChangeEvent<V>>

    constructor(initialState: map<string, V>, modelName: string, hasBus: bool)
      ensures state == initialState && this.modelName == modelName && this.hasBus == hasBus
      ensures observers == [] && notified == [] && emitted == []
    {
      state := initialState;
      this.modelName := modelName;
      this.hasBus := hasBus;
      observers := [];
      notified := [];
      emitted := [];
    }

    /** `getState()`: a copy, which a map value already is. */
    function GetState(): map<string, V>
      reads this
    {
      state
    }

    /** The change event `_emitChange` would emit, if any. */
    function ChangeEvents(newState: map<string, V>, previousState: map<string, V>): seq<ChangeEvent<V>>
      reads this
    {
      if hasBus then [ChangeEvent(ChangeEventName(modelName), newState, previousState, modelName)] else []
    }

    /** `setState(partial)`: merge, then notify every observer, then emit. */
    method SetState(partial: map<string, V>)
      modifies this
      ensures state == Merge(old(state), partial)
      ensures observers == old(observers)
      ensures notified == old(notified) + Round(observers, state, old(state))
      ensures emitted == old(emitted) + ChangeEvents(state, old(state))
    {
      var previous := state;
      state := Merge(state, partial);
      NotifyObservers(state, previous);
      EmitChange(state, previous);
    }

    /** `resetState(newState)`: replace, then notify and emit as `setState`. */
    method ResetState(newState: map<string, V>)
      modifies this
      ensures state == newState
      ensures observers == old(observers)
      ensures notified == old(notified) + Round(observers, newState, old(state))
      ensures emitted == old(emitted) + ChangeEvents(newState, old(state))
    {
      var previous := state;
      state := newState;
      NotifyObservers(state, previous);
      EmitChange(state, previous);
    }

    /** `subscribe(observer)`: append; the unsubscribe it returns is
        `Unsubscribe(observer)`. */
    method Subscribe(o: ObserverId)
      modifies this
      ensures observers == old(observers) + [o]
      ensures state == old(state) && notified == old(notified) && emitted == old(emitted)
    {
      observers := observers + [o];
    }

    /** The function `subscribe` returns: drop the observer's first
        occurrence, if any. */
    method Unsubscribe(o: ObserverId)
      modifies this
      ensures observers == RemoveFirst(old(observers), o)
      ensures state == old(state) && notified == old(notified) && emitted == old(emitted)
    {
      var index := IndexOf(observers, o);
      if index < |observers| {
        observers := observers[..index] + observers[index + 1..];
      }
    }

    /** `_notifyObservers(newState, previousState)`: each observer in turn. */
    method NotifyObservers(newState: map<string, V>, previousState: map<string, V>)
      modifies this
      ensures notified == old(notified) + Round(observers, newState, previousState)
      ensures state == old(state) && observers == old(observers) && emitted == old(emitted)
    {
      for i := 0 to |observers|
        invariant state == old(state) && observers == old(observers) && emitted == old(emitted)
        invariant notified == old(notified) + Round(observers[..i], newState, previousState)
      {
        assert Round(observers[..i + 1], newState, previousState) ==
               Round(observers[..i], newState, previousState) + [Notification(observers[i], newState, previousState)];
        notified := notified + [Notification(observers[i], newState, previousState)];
      }
      assert observers[..|observers|] == observers;
    }

    /** `_emitChange(newState, previousState)`: only with a bus. */
    method EmitChange(newState: map<string, V>, previousState: map<string, V>)
      modifies this
      ensures emitted == old(emitted) + ChangeEvents(newState, previousState)
      ensures state == old(state) && observers == old(observers) && notified == old(notified)
    {
      if hasBus {
        emitted := emitted + [ChangeEvent(ChangeEventName(modelName), newState, previousState, modelName)];
      }
    }

    /** `clearObservers()`. */
    method ClearObservers()
      modifies this
      ensures observers == []
      ensures state == old(state) && notified == old(notified) && emitted == old(emitted)
    {
      observers := [];
    }
  }

  // Properties.

  /** The functions `subscribe` returns undo it: an observer subscribed once
      and then unsubscribed leaves the list as it was. */
  lemma SubscribeThenUnsubscribe(observers: seq<ObserverId>, o: ObserverId)
    requires o !in observers
    ensures RemoveFirst(observers + [o], o) == observers
  {
    RemoveFirstAppended(observers, o);
  }

  /** For an observer present at most once, a second unsubscribe is a no-op. */
  lemma UnsubscribeTwice(observers: seq<ObserverId>, o: ObserverId)
    requires multiset(observers)[o] <= 1
    ensures o !in RemoveFirst(observers, o)
    ensures RemoveFirst(RemoveFirst(observers, o), o) == RemoveFirst(observers, o)
  {
    var r := RemoveFirst(observers, o);
    assert multiset(r)[o] == 0;
  }

  /** With duplicates, each unsubscribe removes one occurrence only. */
  lemma UnsubscribeRemovesOne(observers: seq<ObserverId>, o: ObserverId)
    requires o in observers
    ensures multiset(RemoveFirst(observers, o))[o] == multiset(observers)[o] - 1
  {
  }

  /** A round notifies every observer exactly as often as it is subscribed. */
  lemma RoundCounts<V>(observers: seq<ObserverId>, o: ObserverId, n: map<string, V>, p: map<string, V>)
    ensures multiset(Round(observers, n, p))[Notification(o, n, p)] == multiset(observers)[o]
  {
    CountsAlike(observers, Round(observers, n, p), o, Notification(o, n, p));
  }

  /** Two `setState` calls merge as one with the later keys winning. */
  lemma MergeTwice<V>(s: map<string, V>, p: map<string, V>, q: map<string, V>)
    ensures Merge(Merge(s, p), q) == Merge(s, Merge(p, q))
  {
  }
}
