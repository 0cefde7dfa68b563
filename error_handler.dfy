/** The application error handler: an ordered list of handler functions,
    the unsubscribe functions `register` handed out, and an initialised
    flag. `handle` builds an error record from the error and a context,
    passes it to every handler in order, then emits it on the bus as
    `app:error`. Handlers are known by identity; a throwing handler is
    caught, so every later one is still called. The clock's timestamp and
    the error's stack are parameters. */
module ErrorHandling {
  import opened Js
  import opened Models
  import opened Listeners
  import opened Events

  type HandlerId = int
  type Info = map<string, Value>

  const AppError := "app:error"
  const NotAFunction := "ErrorHandler.register(): handler deve ser uma função"
  const BusRequired := "ErrorHandler: eventBus é obrigatório"

  /** An argument of `register`: a function, or any other value. */
  datatype HandlerArg = Function(id: HandlerId) | NotFunction(v: Value)

  /** An argument of `handle`: an `Error` object, or any other value. */
  datatype ErrorArg = ErrorObject(message: string, stack: Value, name: string) | Thrown(v: Value)

  /** One call `handler(errorInfo)`. */
  datatype HandlerCall = HandlerCall(handler: HandlerId, info: Info)

  /** `error instanceof Error ? error : new Error(String(error))`: the
      message, stack and name of the normalised error. */
  function Normalize(error: ErrorArg, newStack: Value): (r: ErrorArg)
    ensures r.ErrorObject?
    ensures error.ErrorObject? ==> r == error
    ensures error.Thrown? ==> r == ErrorObject(ToText(error.v), newStack, "Error")
  {
    match error
    case ErrorObject(_, _, _) => error
    case Thrown(v) => ErrorObject(ToText(v), newStack, "Error")
  }

  /** `{ message, stack, name, timestamp, ...context }`. */
  function ErrorInfo(error: ErrorArg, context: Info, newStack: Value, timestamp: string): (info: Info)
    ensures info.Keys == {"message", "stack", "name", "timestamp"} + context.Keys
    ensures forall k :: k in context ==> info[k] == context[k]
    ensures "message" !in context ==> info["message"] == Text(Normalize(error, newStack).message)
    ensures "name" !in context ==> info["name"] == Text(Normalize(error, newStack).name)
    ensures "stack" !in context ==> info["stack"] == Normalize(error, newStack).stack
    ensures "timestamp" !in context ==> info["timestamp"] == Text(timestamp)
  {
    var e := Normalize(error, newStack);
    Merge(map["message" := Text(e.message), "stack" := e.stack, "name" := Text(e.name), "timestamp" := Text(timestamp)], context)
  }

  /** The calls of one `_notifyHandlers` round: every handler, in order. */
  function Calls(handlers: seq<HandlerId>, info: Info): (r: seq<HandlerCall>)
    ensures |r| == |handlers|
    ensures forall k :: 0 <= k < |handlers| ==> r[k] == HandlerCall(handlers[k], info)
  {
    seq(|handlers|, k requires 0 <= k < |handlers| => HandlerCall(handlers[k], info))
  }

  class ErrorHandler {
    const bus: EventBus<Info>
    var handlers: seq<HandlerId>
    /** The handler each unsubscribe from `register` unregisters. */
    var unsubscribers: seq<HandlerId>
    var initialized: bool
    /** Every handler call made so far. */
    var called: seq<HandlerCall>

    /** `new ErrorHandler(eventBus)`, which throws without a bus. */
    static method Create(bus: EventBus?<Info>) returns (r: Result<ErrorHandler, string>)
      ensures bus == null ==> r == Err(BusRequired)
      ensures bus != null ==>
                r.Ok? && fresh(r.value) && r.value.bus == bus &&
                r.value.handlers == [] && r.value.unsubscribers == [] && !r.value.initialized && r.value.called == []
    {
      if bus == null {
        return Err(BusRequired);
      }
      var h := new ErrorHandler(bus);
      return Ok(h);
    }

    constructor(bus: EventBus<Info>)
      ensures this.bus == bus && handlers == [] && unsubscribers == [] && !initialized && called == []
    {
      this.bus := bus;
      handlers := [];
      unsubscribers := [];
      initialized := false;
      called := [];
    }

    /** `init()`: raise the flag once; the window listeners it installs are
        not part of this model. */
    method Init()
      modifies this
      ensures initialized
      ensures handlers == old(handlers) && unsubscribers == old(unsubscribers) && called == old(called)
    {
      if initialized {
        return;
      }
      initialized := true;
    }

    /** `register(handler)`: append the function and its unsubscribe; any
        other value throws. */
    method Register(handler: HandlerArg) returns (r: Result<(), string>)
      modifies this
      ensures initialized == old(initialized) && called == old(called)
      ensures handler.NotFunction? ==>
                r == Err(NotAFunction) && handlers == old(handlers) && unsubscribers == old(unsubscribers)
      ensures handler.Function? ==>
                r.Ok? && handlers == old(handlers) + [handler.id] && unsubscribers == old(unsubscribers) + [handler.id]
    {
      if handler.NotFunction? {
        return Err(NotAFunction);
      }
      handlers := handlers + [handler.id];
      unsubscribers := unsubscribers + [handler.id];
      return Ok(());
    }

    /** `unregister(handler)`, also what each unsubscribe calls: drop the
        first occurrence, if any. */
    method Unregister(handler: HandlerId)
      modifies this
      ensures handlers == RemoveFirst(old(handlers), handler)
      ensures unsubscribers == old(unsubscribers) && initialized == old(initialized) && called == old(called)
    {
      var index := IndexOf(handlers, handler);
      if index < |handlers| {
        handlers := handlers[..index] + handlers[index + 1..];
      }
    }

    /** `handle(error, context)`: build the record, call every handler with
        it, then emit it as `app:error`. */
    method Handle(error: ErrorArg, context: Info, newStack: Value, timestamp: string, reactions: map<ListenerId, Reaction>)
      modifies this, bus
      ensures handlers == old(handlers) && unsubscribers == old(unsubscribers) && initialized == old(initialized)
      ensures called == old(called) + Calls(handlers, ErrorInfo(error, context, newStack, timestamp))
      ensures AppError in old(bus.listeners) ==>
                bus.delivered == old(bus.delivered) + Deliveries(old(bus.listeners)[AppError], AppError, ErrorInfo(error, context, newStack, timestamp)) &&
                bus.listeners == Reacted(old(bus.listeners), old(bus.listeners)[AppError], reactions)
      ensures AppError !in old(bus.listeners) ==> bus.delivered == old(bus.delivered) && bus.listeners == old(bus.listeners)
    {
      var info := ErrorInfo(error, context, newStack, timestamp);
      NotifyHandlers(info);
      bus.Emit(AppError, info, reactions);
    }

    /** `_notifyHandlers(errorInfo)`: each handler in turn. */
    method NotifyHandlers(info: Info)
      modifies this
      ensures called == old(called) + Calls(handlers, info)
      ensures handlers == old(handlers) && unsubscribers == old(unsubscribers) && initialized == old(initialized)
    {
      for i := 0 to |handlers|
        invariant handlers == old(handlers) && unsubscribers == old(unsubscribers) && initialized == old(initialized)
        invariant called == old(called) + Calls(handlers[..i], info)
      {
        assert Calls(handlers[..i + 1], info) == Calls(handlers[..i], info) + [HandlerCall(handlers[i], info)];
        called := called + [HandlerCall(handlers[i], info)];
      }
      assert handlers[..|handlers|] == handlers;
    }

    /** `destroy()`: nothing before `init`; otherwise call every unsubscribe
        in order, then empty both lists and lower the flag. */
    method Destroy()
      modifies this
      ensures unchanged(this`called)
      ensures !old(initialized) ==>
                handlers == old(handlers) && unsubscribers == old(unsubscribers) && !initialized
      ensures old(initialized) ==> handlers == [] && unsubscribers == [] && !initialized
    {
      if initialized {
        CallUnsubscribers();
        handlers, unsubscribers, initialized := [], [], false;
      }
    }

    /** The `forEach` of `destroy`: each unsubscribe, in registration order. */
    method CallUnsubscribers()
      modifies this
      ensures handlers == RemoveUpTo(old(handlers), unsubscribers, |unsubscribers|)
      ensures unsubscribers == old(unsubscribers) && initialized == old(initialized) && called == old(called)
    {
      var us := unsubscribers;
      for i := 0 to |us|
        invariant unsubscribers == us && initialized == old(initialized) && called == old(called)
        invariant handlers == RemoveUpTo(old(handlers), us, i)
      {
        Unregister(us[i]);
      }
    }
  }

  /** The handler list after unregistering `hs[0]`, ..., `hs[i - 1]` in turn. */
  function RemoveUpTo(handlers: seq<HandlerId>, hs: seq<HandlerId>, i: nat): seq<HandlerId>
    requires i <= |hs|
  {
    if i == 0 then handlers else RemoveFirst(RemoveUpTo(handlers, hs, i - 1), hs[i - 1])
  }

  // Properties.

  /** Unregistering a handler registered once removes it, and a second
      unregister is a no-op. */
  lemma RegisterThenUnregister(handlers: seq<HandlerId>, h: HandlerId)
    requires h !in handlers
    ensures RemoveFirst(handlers + [h], h) == handlers
    ensures RemoveFirst(RemoveFirst(handlers + [h], h), h) == handlers
  {
    RemoveFirstAppended(handlers, h);
  }

  /** The unsubscribes `destroy` calls remove exactly what `register` added:
      unregistering the first `i` registered handlers in registration order
      leaves the later ones, so after all of them none is left. */
  lemma {:induction false} UnsubscribesUndoRegisters(hs: seq<HandlerId>, i: nat)
    requires i <= |hs|
    ensures RemoveUpTo(hs, hs, i) == hs[i..]
    ensures i == |hs| ==> RemoveUpTo(hs, hs, i) == []
    decreases i
  {
    if i > 0 {
      UnsubscribesUndoRegisters(hs, i - 1);
      UndoStep(RemoveUpTo(hs, hs, i - 1), hs, i);
    }
  }

  lemma UndoStep(prev: seq<HandlerId>, hs: seq<HandlerId>, i: nat)
    requires 0 < i <= |hs| && prev == hs[i - 1..]
    ensures RemoveFirst(prev, hs[i - 1]) == hs[i..]
  {
    RemoveFirstHead(prev);
    assert prev[1..] == hs[i..];
  }

  /** By default the record's message and name are the error's own; any
      context field replaces the default of the same name. */
  lemma ContextOverrides(error: ErrorArg, context: Info, newStack: Value, timestamp: string, k: string)
    requires k in context
    ensures ErrorInfo(error, context, newStack, timestamp)[k] == context[k]
  {
  }

  /** A handler registered twice is called twice in a round. */
  lemma CallsCount(handlers: seq<HandlerId>, h: HandlerId, info: Info)
    ensures multiset(Calls(handlers, info))[HandlerCall(h, info)] == multiset(handlers)[h]
  {
    CountsAlike(handlers, Calls(handlers, info), h, HandlerCall(h, info));
  }
}
