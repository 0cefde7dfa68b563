/** The hash router: it keeps the route table, follows the location hash, and
    moves from one controller to the next. A route change is split at its one
    `await`: `HandleRouteChange` runs up to the before-change event, the
    environment then runs the route's middleware (`AwaitPipeline`), and
    `Resume` does the rest. Other route changes may start in between, which is
    what the navigation token guards against. The browser's `hashchange` is
    the environment action `OnHashChange`; the event bus, the renderers and
    the controllers are represented by logs of what was asked of them. */
module Routing {
  import opened Js
  import HP = HashParser
  import RM = RouteMatchers
  import MP = MiddlewarePipeline
  import F = Factory

  /** An element of a route's `middleware` list. */
  datatype MiddlewareSlot = NotAFunctionSlot | FunctionSlot(id: nat)

  /** The configuration passed to `register`; `None` is a falsy field. */
  datatype RouteConfig = RouteConfig(
    controller: nat, view: nat, model: F.ModelSlot,
    modelState: Option<Pairs>, middleware: Option<seq<MiddlewareSlot>>)

  /** The stored descriptor, with `modelState` and `middleware` defaulted. */
  datatype Descriptor = Descriptor(
    controller: nat, view: nat, model: F.ModelSlot, modelState: Pairs, middleware: seq<MiddlewareSlot>)

  type Route = RM.RouteEntry<Descriptor>

  /** The context handed to the middleware: the route and the merged params. */
  datatype Context = Context(route: Route, params: map<string, string>)

  /** A route change suspended at its `await`. */
  datatype Transition = Transition(token: nat, route: Route, params: map<string, string>)

  /** Events published on the event bus. */
  datatype Event =
    | BeforeChange(from: Option<string>, to: string, params: map<string, string>)
    | AfterChange(route: string, params: map<string, string>, controller: nat)
    | NotFound(path: string)
    | MiddlewareError(message: string, routeConfig: Route, params: map<string, string>)
    | TransitionError(message: string, route: string, params: map<string, string>)

  /** A not-found page drawn by the custom handler or by the default renderer. */
  datatype Render = CustomNotFound(handler: nat, path: string) | DefaultNotFound(path: string)

  /** What was asked of models, views and controllers, in order. */
  datatype Life =
    | Destroyed(controller: nat)
    | ModelBuilt(model: F.ModelPlan)
    | ViewBuilt(view: F.ViewPlan)
    | ControllerBuilt(args: F.ControllerArgs)
    | Initialized(controller: nat)

  /** Where building the new screen can throw. */
  datatype Stage = ModelStage | ViewStage | ControllerStage | InitStage

  /** How building the new screen ends: with a controller whose `init`
      returned, or with an exception thrown at some stage. */
  datatype Build = Built(controller: nat) | BuildFailed(stage: Stage, error: Value)

  /** The entries of the cleanup list registered by `init`. */
  datatype Cleanup = RemoveHashListener | UnsubscribeNavigate

  /** A call to the error handler's `handle` with a navigation context. */
  datatype ErrorReport = ErrorReport(error: Value, route: string, params: map<string, string>)

  const DefaultTimeoutMs: nat := 5000
  const NotInitializedMessage := "Router não inicializado. Chame init() primeiro."
  const MiddlewareErrorDefault := "Erro em middleware do Router"
  const TransitionErrorDefault := "Erro durante transição de rota"

  // The pure parts.

  /** The descriptor `register` stores. */
  function MakeEntry(path: string, config: RouteConfig): (e: Route)
    requires '\\' !in path
    ensures e.path == path && e.isDynamic == RM.IsDynamicPath(path)
    ensures e.compiled == if e.isDynamic then RM.Compile(path) else None
    ensures e.config.modelState == (if config.modelState.Some? then config.modelState.value else [])
    ensures e.config.middleware == (if config.middleware.Some? then config.middleware.value else [])
  {
    var isDynamic := RM.IsDynamicPath(path);
    RM.RouteEntry(path, isDynamic, if isDynamic then RM.Compile(path) else None,
      Descriptor(config.controller, config.view, config.model,
        if config.modelState.Some? then config.modelState.value else [],
        if config.middleware.Some? then config.middleware.value else []))
  }

  /** `Map.prototype.set`: replace the entry with the same key where it is,
      or append. */
  function Upsert(table: seq<Route>, e: Route): (r: seq<Route>)
    ensures RM.KeyIndex(r, e.path) < |r| && r[RM.KeyIndex(r, e.path)] == e
    ensures |r| == if RM.KeyIndex(table, e.path) < |table| then |table| else |table| + 1
    ensures forall j :: 0 <= j < |table| && table[j].path != e.path ==> r[j] == table[j]
  {
    var i := RM.KeyIndex(table, e.path);
    var r := if i < |table| then table[i := e] else table + [e];
    assert r[i] == e;
    assert forall j :: 0 <= j < i ==> r[j] == table[j];
    assert RM.KeyIndex(r, e.path) == i;
    r
  }

  /** `Array.from(routes.keys())`. */
  function Keys(table: seq<Route>): (keys: seq<string>)
    ensures |keys| == |table|
    ensures forall i :: 0 <= i < |table| ==> keys[i] == table[i].path
  {
    seq(|table|, i requires 0 <= i < |table| => table[i].path)
  }

  /** A stored entry: its flag and matcher are derived from its key, and a
      dynamic key has a matcher. */
  predicate EntryValid(e: Route)
  {
    '\\' !in e.path && e.isDynamic == RM.IsDynamicPath(e.path) &&
    e.compiled == (if e.isDynamic then RM.Compile(e.path) else None) &&
    (e.isDynamic ==> e.compiled.Some?)
  }

  /** What the router keeps true of its table. */
  predicate TableValid(table: seq<Route>)
  {
    RM.UniqueKeys(table) && forall i {:trigger EntryValid(table[i])} :: 0 <= i < |table| ==> EntryValid(table[i])
  }

  /** Whether `register` succeeds: the `RegExp` constructor throws otherwise. */
  predicate Compiles(path: string)
    requires '\\' !in path
  {
    !RM.IsDynamicPath(path) || RM.Compile(path).Some?
  }

  /** `register(path, config)` for each entry in order, stopping at the first
      that throws: whether all succeeded, and the resulting table. */
  function RegisterEach(table: seq<Route>, configs: seq<(string, RouteConfig)>): (bool, seq<Route>)
    requires forall k :: 0 <= k < |configs| ==> '\\' !in configs[k].0
    decreases |configs|
  {
    if configs == [] then (true, table)
    else if !Compiles(configs[0].0) then (false, table)
    else RegisterEach(Upsert(table, MakeEntry(configs[0].0, configs[0].1)), configs[1..])
  }

  /** `new URLSearchParams(params).toString()` without percent-encoding. */
  function EncodeQuery(params: Pairs): (q: string)
    ensures params == [] ==> q == ""
    ensures params != [] ==> q == HP.Join(PairPieces(params), '&')
    decreases |params|
  {
    if params == [] then ""
    else if |params| == 1 then params[0].0 + "=" + params[0].1
    else
      assert PairPieces(params)[1..] == PairPieces(params[1..]);
      params[0].0 + "=" + params[0].1 + "&" + EncodeQuery(params[1..])
  }

  /** The hash `navigate(path, params)` writes. */
  function NavigateHash(path: string, params: Pairs): string
  {
    var query := EncodeQuery(params);
    if query == "" then "#" + path else "#" + path + "?" + query
  }

  /** `error?.message || fallback`, an exception being represented by its
      `message` property; a timeout's message names its delay. */
  function FailureMessage(f: MP.Failure, fallback: string): string
  {
    match f
    case Thrown(m) => if Truthy(m) then ToText(m) else fallback
    case Timeout(ms) => "Middleware timeout after " + NatToString(ms) + "ms"
  }

  /** The middleware list as the pipeline sees it: each function replies as
      `behaviour` says for its id and the context it is given. */
  function Entries(slots: seq<MiddlewareSlot>, ctx: Context, behaviour: (nat, Context) -> MP.Reply): (entries: seq<MP.Entry>)
    ensures |entries| == |slots|
    ensures forall i :: 0 <= i < |slots| ==> entries[i].NotAFunction? == slots[i].NotAFunctionSlot?
  {
    seq(|slots|, i requires 0 <= i < |slots| =>
      if slots[i].FunctionSlot? then MP.Function(behaviour(slots[i].id, ctx)) else MP.NotAFunction)
  }

  /** The hash after the first `n` of the pipeline's effects: the target of
      the last `navigate` among them, or the hash they started from. */
  function HashAfter(hash: string, effects: seq<MP.Effect<Context>>, n: nat): string
    requires n <= |effects|
    decreases n
  {
    if n == 0 then hash
    else if effects[n - 1].Navigated? then NavigateHash(ToText(effects[n - 1].target), effects[n - 1].params)
    else HashAfter(hash, effects, n - 1)
  }

  /** The events published by the `emitError` calls among the first `n`
      effects, in order. */
  function ErrorEvents(effects: seq<MP.Effect<Context>>, n: nat): seq<Event>
    requires n <= |effects|
    decreases n
  {
    if n == 0 then []
    else
      ErrorEvents(effects, n - 1) +
        if effects[n - 1].ErrorEmitted? then
          [MiddlewareError(FailureMessage(effects[n - 1].failure, MiddlewareErrorDefault),
                           effects[n - 1].context.route, effects[n - 1].context.params)]
        else []
  }

  /** The route the hash leads to. */
  function Destination(table: seq<Route>, hash: string): Option<RM.MatchResult<Descriptor>>
  {
    RM.Match(table, HP.PathOf(Some(hash)))
  }

  /** The hash `start` handles: an empty one becomes `#/`. */
  function StartHash(h: string): (r: string)
    ensures r != ""
    ensures h != "" ==> r == h
  {
    if h == "" then "#/" else h
  }

  /** The log entry for destroying the current controller, if there is one. */
  function DestroyedLog(current: Option<nat>): seq<Life>
  {
    if current.Some? then [Destroyed(current.value)] else []
  }

  /** The not-found page: the custom handler's when one is set. */
  function NotFoundRender(handler: Option<nat>, path: string): Render
  {
    if handler.Some? then CustomNotFound(handler.value, path) else DefaultNotFound(path)
  }

  /** The building steps that ran before the given stage threw. */
  function StepsBefore(stage: Stage, model: F.ModelPlan, view: F.ViewPlan, args: F.ControllerArgs): seq<Life>
  {
    match stage
    case ModelStage => []
    case ViewStage => [ModelBuilt(model)]
    case ControllerStage => [ModelBuilt(model), ViewBuilt(view)]
    case InitStage => [ModelBuilt(model), ViewBuilt(view), ControllerBuilt(args)]
  }

  /** The `forEach` of `destroy`: each cleanup entry is called in order;
      removing the listener and unsubscribing each switch one thing off. */
  method RunCleanup(list: seq<Cleanup>, listening: bool, subscribed: bool) returns (listening': bool, subscribed': bool)
    ensures listening' == (listening && RemoveHashListener !in list)
    ensures subscribed' == (subscribed && UnsubscribeNavigate !in list)
  {
    listening', subscribed' := listening, subscribed;
    for k := 0 to |list|
      invariant listening' == (listening && RemoveHashListener !in list[..k])
      invariant subscribed' == (subscribed && UnsubscribeNavigate !in list[..k])
    {
      assert list[..k + 1] == list[..k] + [list[k]];
      match list[k] {
        case RemoveHashListener => listening' := false;
        case UnsubscribeNavigate => subscribed' := false;
      }
    }
    assert list[..|list|] == list;
  }

  class Router {
    var routes: seq<Route>
    var currentController: Option<nat>
    var currentRoute: Option<string>
    var pending: Option<nat>
    /** The next navigation token to mint; every older one is spent. */
    var nextToken: nat
    var cleanup: seq<Cleanup>
    var isInitialized: bool
    /** Whether the `hashchange` listener is installed. */
    var hashListening: bool
    /** Whether the `ROUTER_NAVIGATE` subscription is live. */
    var navigateSubscribed: bool
    /** `window.location.hash`. */
    var hash: string
    var notFoundHandler: Option<nat>
    var events: seq<Event>
    var renders: seq<Render>
    var lifecycle: seq<Life>
    var errorReports: seq<ErrorReport>
    const hasErrorHandler: bool
    const rootElement: nat
    const self: nat
    const eventBus: nat
    const middlewareTimeoutMs: nat

    predicate Valid()
      reads this
    {
      TableValid(routes) &&
      (pending.Some? ==> pending.value < nextToken) &&
      (hashListening <==> RemoveHashListener in cleanup) &&
      (navigateSubscribed <==> UnsubscribeNavigate in cleanup) &&
      (!isInitialized ==> cleanup == [])
    }

    constructor(hash: string, hasErrorHandler: bool, rootElement: nat, self: nat, eventBus: nat)
      ensures Valid()
      ensures this.hash == hash && this.hasErrorHandler == hasErrorHandler
      ensures this.rootElement == rootElement && this.self == self && this.eventBus == eventBus
      ensures middlewareTimeoutMs == DefaultTimeoutMs
      ensures routes == [] && currentController.None? && currentRoute.None? && pending.None?
      ensures cleanup == [] && !isInitialized && !hashListening && !navigateSubscribed
      ensures notFoundHandler.None? && events == [] && renders == [] && lifecycle == [] && errorReports == []
    {
      this.hash := hash;
      this.hasErrorHandler := hasErrorHandler;
      this.rootElement := rootElement;
      this.self := self;
      this.eventBus := eventBus;
      middlewareTimeoutMs := DefaultTimeoutMs;
      routes := [];
      currentController := None;
      currentRoute := None;
      pending := None;
      nextToken := 0;
      cleanup := [];
      isInitialized := false;
      hashListening := false;
      navigateSubscribed := false;
      notFoundHandler := None;
      events := [];
      renders := [];
      lifecycle := [];
      errorReports := [];
    }

    /** `router.currentRoute`. */
    function CurrentRoute(): (r: Option<string>)
      reads this
      ensures r == currentRoute
    {
      currentRoute
    }

    /** `router.currentController`. */
    function CurrentController(): (c: Option<nat>)
      reads this
      ensures c == currentController
    {
      currentController
    }

    /** `router.routes`: the keys in first-insertion order. */
    function Routes(): (keys: seq<string>)
      reads this
      ensures keys == Keys(routes)
    {
      Keys(routes)
    }

    /** `init`: install the `hashchange` listener and the navigate
        subscription, once. */
    method Init()
      requires Valid()
      modifies this
      ensures Valid()
      ensures old(isInitialized) ==>
                (cleanup == old(cleanup) && hashListening == old(hashListening) &&
                 navigateSubscribed == old(navigateSubscribed))
      ensures !old(isInitialized) ==>
                (cleanup == [RemoveHashListener, UnsubscribeNavigate] && hashListening && navigateSubscribed)
      ensures isInitialized
      ensures routes == old(routes) && hash == old(hash) && pending == old(pending) && nextToken == old(nextToken)
      ensures currentController == old(currentController) && currentRoute == old(currentRoute)
      ensures notFoundHandler == old(notFoundHandler) && events == old(events) && renders == old(renders)
      ensures lifecycle == old(lifecycle) && errorReports == old(errorReports)
    {
      if isInitialized {
        return;
      }
      hashListening := true;
      cleanup := cleanup + [RemoveHashListener];
      navigateSubscribed := true;
      cleanup := cleanup + [UnsubscribeNavigate];
      isInitialized := true;
    }

    /** `destroy`: run every cleanup entry and forget the current screen. The
        table and the initialised flag are kept. */
    method Destroy()
      requires Valid()
      modifies this
      ensures Valid()
      ensures cleanup == [] && !hashListening && !navigateSubscribed
      ensures currentController.None? && currentRoute.None? && pending.None?
      ensures lifecycle == old(lifecycle) + DestroyedLog(old(currentController))
      ensures unchanged(this`routes, this`isInitialized, this`hash, this`nextToken, this`notFoundHandler)
      ensures unchanged(this`events, this`renders, this`errorReports)
    {
      var listening, subscribed := RunCleanup(cleanup, hashListening, navigateSubscribed);
      hashListening, navigateSubscribed, cleanup := listening, subscribed, [];
      DestroyCurrentController();
      currentRoute, pending := None, None;
    }

    /** `register(path, config)`. A dynamic path that the `RegExp`
        constructor rejects throws, and the table is left as it was. */
    method Register(path: string, config: RouteConfig) returns (ok: bool)
      requires Valid() && '\\' !in path
      modifies this
      ensures Valid()
      ensures ok == Compiles(path)
      ensures routes == if ok then Upsert(old(routes), MakeEntry(path, config)) else old(routes)
      ensures currentController == old(currentController) && currentRoute == old(currentRoute)
      ensures pending == old(pending) && nextToken == old(nextToken) && hash == old(hash)
      ensures cleanup == old(cleanup) && isInitialized == old(isInitialized)
      ensures hashListening == old(hashListening) && navigateSubscribed == old(navigateSubscribed)
      ensures notFoundHandler == old(notFoundHandler) && events == old(events) && renders == old(renders)
      ensures lifecycle == old(lifecycle) && errorReports == old(errorReports)
    {
      var isDynamic := RM.IsDynamicPath(path);
      var compiled := if isDynamic then RM.Compile(path) else None;
      if isDynamic && compiled.None? {
        return false;
      }
      var e := MakeEntry(path, config);
      UpsertValid(routes, e);
      routes := Upsert(routes, e);
      return true;
    }

    /** `registerAll(routesConfig)` over the object's entries, in order. */
    method RegisterAll(configs: seq<(string, RouteConfig)>) returns (ok: bool)
      requires Valid() && forall k :: 0 <= k < |configs| ==> '\\' !in configs[k].0
      modifies this
      ensures Valid()
      ensures (ok, routes) == RegisterEach(old(routes), configs)
      ensures currentController == old(currentController) && currentRoute == old(currentRoute)
      ensures pending == old(pending) && nextToken == old(nextToken) && hash == old(hash)
      ensures cleanup == old(cleanup) && isInitialized == old(isInitialized)
      ensures hashListening == old(hashListening) && navigateSubscribed == old(navigateSubscribed)
      ensures notFoundHandler == old(notFoundHandler) && events == old(events) && renders == old(renders)
      ensures lifecycle == old(lifecycle) && errorReports == old(errorReports)
    {
      var i := 0;
      while i < |configs|
        invariant 0 <= i <= |configs| && Valid()
        invariant RegisterEach(old(routes), configs) == RegisterEach(routes, configs[i..])
        invariant currentController == old(currentController) && currentRoute == old(currentRoute)
        invariant pending == old(pending) && nextToken == old(nextToken) && hash == old(hash)
        invariant cleanup == old(cleanup) && isInitialized == old(isInitialized)
        invariant hashListening == old(hashListening) && navigateSubscribed == old(navigateSubscribed)
        invariant notFoundHandler == old(notFoundHandler) && events == old(events) && renders == old(renders)
        invariant lifecycle == old(lifecycle) && errorReports == old(errorReports)
      {
        ghost var rest := configs[i..];
        assert rest[0] == configs[i] && rest[1..] == configs[i + 1..];
        ghost var before := routes;
        var done := Register(configs[i].0, configs[i].1);
        if !done {
          assert RegisterEach(before, rest) == (false, before);
          return false;
        }
        assert RegisterEach(before, rest) == RegisterEach(routes, configs[i + 1..]);
        i := i + 1;
      }
      assert configs[i..] == [];
      return true;
    }

    /** `setNotFoundHandler(handler)`. */
    method SetNotFoundHandler(handler: nat)
      requires Valid()
      modifies this
      ensures Valid() && notFoundHandler == Some(handler)
      ensures routes == old(routes) && hash == old(hash) && pending == old(pending) && nextToken == old(nextToken)
      ensures currentController == old(currentController) && currentRoute == old(currentRoute)
      ensures cleanup == old(cleanup) && isInitialized == old(isInitialized)
      ensures hashListening == old(hashListening) && navigateSubscribed == old(navigateSubscribed)
      ensures events == old(events) && renders == old(renders)
      ensures lifecycle == old(lifecycle) && errorReports == old(errorReports)
    {
      notFoundHandler := Some(handler);
    }

    /** `navigate(path, params)`: write the hash; the browser reports the
        change later through `OnHashChange`. */
    method Navigate(path: string, params: Pairs)
      requires Valid()
      modifies this
      ensures Valid() && hash == NavigateHash(path, params)
      ensures routes == old(routes) && pending == old(pending) && nextToken == old(nextToken)
      ensures currentController == old(currentController) && currentRoute == old(currentRoute)
      ensures cleanup == old(cleanup) && isInitialized == old(isInitialized)
      ensures hashListening == old(hashListening) && navigateSubscribed == old(navigateSubscribed)
      ensures notFoundHandler == old(notFoundHandler) && events == old(events) && renders == old(renders)
      ensures lifecycle == old(lifecycle) && errorReports == old(errorReports)
    {
      hash := NavigateHash(path, params);
    }

    /** `_destroyCurrentController`. */
    method DestroyCurrentController()
      requires Valid()
      modifies this
      ensures Valid() && currentController.None?
      ensures lifecycle == old(lifecycle) + DestroyedLog(old(currentController))
      ensures routes == old(routes) && hash == old(hash) && pending == old(pending) && nextToken == old(nextToken)
      ensures currentRoute == old(currentRoute)
      ensures cleanup == old(cleanup) && isInitialized == old(isInitialized)
      ensures hashListening == old(hashListening) && navigateSubscribed == old(navigateSubscribed)
      ensures notFoundHandler == old(notFoundHandler) && events == old(events) && renders == old(renders)
      ensures errorReports == old(errorReports)
    {
      if currentController.Some? {
        lifecycle := lifecycle + [Destroyed(currentController.value)];
        currentController := None;
      }
    }

    /** `_handleNotFound(path)`. */
    method HandleNotFound(path: string)
      requires Valid()
      modifies this
      ensures Valid() && currentController.None?
      ensures lifecycle == old(lifecycle) + DestroyedLog(old(currentController))
      ensures renders == old(renders) + [NotFoundRender(old(notFoundHandler), path)]
      ensures events == old(events) + [NotFound(path)]
      ensures routes == old(routes) && hash == old(hash) && pending == old(pending) && nextToken == old(nextToken)
      ensures currentRoute == old(currentRoute)
      ensures cleanup == old(cleanup) && isInitialized == old(isInitialized)
      ensures hashListening == old(hashListening) && navigateSubscribed == old(navigateSubscribed)
      ensures notFoundHandler == old(notFoundHandler) && errorReports == old(errorReports)
    {
      DestroyCurrentController();
      if notFoundHandler.Some? {
        renders := renders + [CustomNotFound(notFoundHandler.value, path)];
      } else {
        renders := renders + [DefaultNotFound(path)];
      }
      events := events + [NotFound(path)];
    }

    /** What `_handleRouteChange` does, up to its `await`, with the hash `h`:
        a token is minted; a hash that matches no route destroys the current
        controller, renders and announces not-found and clears the pending
        token; a matching one announces the change and suspends the
        transition with the route's params overridden by the query. */
    twostate predicate RouteChangeHandled(h: string, new t: Option<Transition>)
      reads this
    {
      nextToken == old(nextToken) + 1 &&
      (Destination(old(routes), h).None? ==>
         t.None? && pending.None? && currentController.None? &&
         lifecycle == old(lifecycle) + DestroyedLog(old(currentController)) &&
         renders == old(renders) + [NotFoundRender(old(notFoundHandler), HP.PathOf(Some(h)))] &&
         events == old(events) + [NotFound(HP.PathOf(Some(h)))]) &&
      (Destination(old(routes), h).Some? ==>
         t == Some(Transition(old(nextToken), Destination(old(routes), h).value.route,
                              Destination(old(routes), h).value.params + HP.QueryOf(Some(h)))) &&
         pending == Some(old(nextToken)) &&
         currentController == old(currentController) && lifecycle == old(lifecycle) && renders == old(renders) &&
         events == old(events) + [BeforeChange(old(currentRoute), t.value.route.path, t.value.params)])
    }

    /** `_handleRouteChange` up to the `await`: mint a token, parse and match
        the hash, and either handle not-found or announce the change. */
    method HandleRouteChange() returns (t: Option<Transition>)
      requires Valid()
      modifies this
      ensures Valid()
      ensures nextToken == old(nextToken) + 1
      ensures Destination(old(routes), old(hash)).None? ==>
                t.None? && pending.None? && currentController.None? &&
                lifecycle == old(lifecycle) + DestroyedLog(old(currentController)) &&
                renders == old(renders) + [NotFoundRender(old(notFoundHandler), HP.PathOf(Some(old(hash))))] &&
                events == old(events) + [NotFound(HP.PathOf(Some(old(hash))))]
      ensures Destination(old(routes), old(hash)).Some? ==>
                t == Some(Transition(old(nextToken), Destination(old(routes), old(hash)).value.route,
                                     Destination(old(routes), old(hash)).value.params + HP.QueryOf(Some(old(hash))))) &&
                pending == Some(old(nextToken)) &&
                currentController == old(currentController) && lifecycle == old(lifecycle) && renders == old(renders) &&
                events == old(events) + [BeforeChange(old(currentRoute), t.value.route.path, t.value.params)]
      ensures t.Some? ==> t.value.route in routes
      ensures routes == old(routes) && hash == old(hash) && currentRoute == old(currentRoute)
      ensures cleanup == old(cleanup) && isInitialized == old(isInitialized)
      ensures hashListening == old(hashListening) && navigateSubscribed == old(navigateSubscribed)
      ensures notFoundHandler == old(notFoundHandler) && errorReports == old(errorReports)
    {
      var token := nextToken;
      nextToken := nextToken + 1;
      pending := Some(token);
      var parsed := HP.ParseHash(Some(hash));
      var matched := RM.MatchRoute(routes, parsed.path);
      assert matched == Destination(routes, hash);
      MatchInTable(routes, parsed.path);
      t := Dispatch(token, parsed.path, parsed.query, matched);
    }

    /** The rest of `_handleRouteChange` once the hash is parsed and
        matched: not-found handling, or the before-change event and the
        suspended transition. */
    method Dispatch(token: nat, path: string, query: map<string, string>, matched: Option<RM.MatchResult<Descriptor>>)
      returns (t: Option<Transition>)
      requires Valid() && pending == Some(token)
      requires matched.Some? ==> matched.value.route in routes
      modifies this
      ensures Valid()
      ensures matched.None? ==>
                t.None? && pending.None? && currentController.None? &&
                lifecycle == old(lifecycle) + DestroyedLog(old(currentController)) &&
                renders == old(renders) + [NotFoundRender(old(notFoundHandler), path)] &&
                events == old(events) + [NotFound(path)]
      ensures matched.Some? ==>
                t == Some(Transition(token, matched.value.route, matched.value.params + query)) &&
                pending == old(pending) && currentController == old(currentController) &&
                lifecycle == old(lifecycle) && renders == old(renders) &&
                events == old(events) + [BeforeChange(old(currentRoute), matched.value.route.path, matched.value.params + query)]
      ensures routes == old(routes) && hash == old(hash) && currentRoute == old(currentRoute) && nextToken == old(nextToken)
      ensures cleanup == old(cleanup) && isInitialized == old(isInitialized)
      ensures hashListening == old(hashListening) && navigateSubscribed == old(navigateSubscribed)
      ensures notFoundHandler == old(notFoundHandler) && errorReports == old(errorReports)
    {
      if matched.None? {
        HandleNotFound(path);
        pending := None;
        return None;
      }
      var params := matched.value.params + query;
      events := events + [BeforeChange(currentRoute, matched.value.route.path, params)];
      return Some(Transition(token, matched.value.route, params));
    }

    /** The `await` on `runMiddleware`: the route's middleware run against the
        context `{route, params}`; a redirect writes the hash and an error is
        published as an application error. */
    method AwaitPipeline(t: Transition, behaviour: (nat, Context) -> MP.Reply) returns (outcome: MP.Outcome)
      requires Valid()
      modifies this
      ensures Valid()
      ensures var ctx := Context(t.route, t.params);
              var run := MP.RunFrom(Entries(t.route.config.middleware, ctx, behaviour), ctx, middlewareTimeoutMs, 0);
              outcome == run.outcome &&
              hash == HashAfter(old(hash), run.effects, |run.effects|) &&
              events == old(events) + ErrorEvents(run.effects, |run.effects|)
      ensures routes == old(routes) && pending == old(pending) && nextToken == old(nextToken)
      ensures currentController == old(currentController) && currentRoute == old(currentRoute)
      ensures cleanup == old(cleanup) && isInitialized == old(isInitialized)
      ensures hashListening == old(hashListening) && navigateSubscribed == old(navigateSubscribed)
      ensures notFoundHandler == old(notFoundHandler) && renders == old(renders)
      ensures lifecycle == old(lifecycle) && errorReports == old(errorReports)
    {
      var ctx := Context(t.route, t.params);
      var effects, invoked;
      outcome, effects, invoked := MP.RunMiddleware(Entries(t.route.config.middleware, ctx, behaviour), ctx, middlewareTimeoutMs);
      ApplyEffects(effects);
    }

    /** What the pipeline's actions did while it ran: each `navigate` wrote
        the hash and each `emitError` published a middleware error. */
    method ApplyEffects(effects: seq<MP.Effect<Context>>)
      requires Valid()
      modifies this
      ensures Valid()
      ensures hash == HashAfter(old(hash), effects, |effects|)
      ensures events == old(events) + ErrorEvents(effects, |effects|)
      ensures routes == old(routes) && pending == old(pending) && nextToken == old(nextToken)
      ensures currentController == old(currentController) && currentRoute == old(currentRoute)
      ensures cleanup == old(cleanup) && isInitialized == old(isInitialized)
      ensures hashListening == old(hashListening) && navigateSubscribed == old(navigateSubscribed)
      ensures notFoundHandler == old(notFoundHandler) && renders == old(renders)
      ensures lifecycle == old(lifecycle) && errorReports == old(errorReports)
    {
      var newHash, newEvents := hash, events;
      for k := 0 to |effects|
        invariant newHash == HashAfter(old(hash), effects, k)
        invariant newEvents == old(events) + ErrorEvents(effects, k)
      {
        match effects[k] {
          case Navigated(target, params) =>
            newHash := NavigateHash(ToText(target), params);
          case ErrorEmitted(failure, c) =>
            newEvents := newEvents + [MiddlewareError(FailureMessage(failure, MiddlewareErrorDefault), c.route, c.params)];
        }
      }
      hash, events := newHash, newEvents;
    }

    /** `_handleTransitionError`. */
    method HandleTransitionError(error: Value, route: string, params: map<string, string>)
      requires Valid()
      modifies this
      ensures Valid()
      ensures errorReports == old(errorReports) + if hasErrorHandler then [ErrorReport(error, route, params)] else []
      ensures events == old(events) + [TransitionError(FailureMessage(MP.Thrown(error), TransitionErrorDefault), route, params)]
      ensures routes == old(routes) && hash == old(hash) && pending == old(pending) && nextToken == old(nextToken)
      ensures currentController == old(currentController) && currentRoute == old(currentRoute)
      ensures cleanup == old(cleanup) && isInitialized == old(isInitialized)
      ensures hashListening == old(hashListening) && navigateSubscribed == old(navigateSubscribed)
      ensures notFoundHandler == old(notFoundHandler) && renders == old(renders) && lifecycle == old(lifecycle)
    {
      if hasErrorHandler {
        errorReports := errorReports + [ErrorReport(error, route, params)];
      }
      events := events + [TransitionError(FailureMessage(MP.Thrown(error), TransitionErrorDefault), route, params)];
    }

    /** `_transitionTo` after the `await`. A transition whose token is no
        longer pending changes nothing. A pipeline that did not pass clears
        the token and nothing else. Otherwise the current controller is
        destroyed before anything new is built; a build that throws is
        reported and leaves no controller and the old route; a build that
        completes installs the new controller and route. */
    method Resume(t: Transition, outcome: MP.Outcome, build: Build)
      requires Valid()
      modifies this
      ensures Valid()
      ensures old(pending) != Some(t.token) ==>
                pending == old(pending) && currentController == old(currentController) &&
                currentRoute == old(currentRoute) && events == old(events) &&
                lifecycle == old(lifecycle) && errorReports == old(errorReports)
      ensures old(pending) == Some(t.token) ==> pending.None?
      ensures old(pending) == Some(t.token) && !outcome.Passed? ==>
                currentController == old(currentController) && currentRoute == old(currentRoute) &&
                events == old(events) && lifecycle == old(lifecycle) && errorReports == old(errorReports)
      ensures old(pending) == Some(t.token) && outcome.Passed? ==>
                var d := t.route.config;
                var model := F.CreateModel(d.model, Some(d.modelState), t.params);
                var view := F.CreateView(d.view, rootElement);
                var args := F.CreateController(model, view, t.params, self, eventBus);
                var destroyed := DestroyedLog(old(currentController));
                match build
                case Built(c) =>
                  currentController == Some(c) && currentRoute == Some(t.route.path) &&
                  lifecycle == old(lifecycle) + destroyed + [ModelBuilt(model), ViewBuilt(view), ControllerBuilt(args), Initialized(c)] &&
                  events == old(events) + [AfterChange(t.route.path, t.params, c)] &&
                  errorReports == old(errorReports)
                case BuildFailed(stage, error) =>
                  currentController.None? && currentRoute == old(currentRoute) &&
                  lifecycle == old(lifecycle) + destroyed + StepsBefore(stage, model, view, args) &&
                  events == old(events) + [TransitionError(FailureMessage(MP.Thrown(error), TransitionErrorDefault), t.route.path, t.params)] &&
                  errorReports == old(errorReports) + (if hasErrorHandler then [ErrorReport(error, t.route.path, t.params)] else [])
      ensures routes == old(routes) && hash == old(hash) && nextToken == old(nextToken)
      ensures cleanup == old(cleanup) && isInitialized == old(isInitialized)
      ensures hashListening == old(hashListening) && navigateSubscribed == old(navigateSubscribed)
      ensures notFoundHandler == old(notFoundHandler) && renders == old(renders)
    {
      if pending != Some(t.token) {
        return;
      }
      if !outcome.Passed? {
        pending := None;
        return;
      }
      Enter(t, build);
    }

    /** `_transitionTo` once the pipeline has passed: destroy the current
        controller, then build the new screen or report the build failure. */
    method Enter(t: Transition, build: Build)
      requires Valid()
      modifies this
      ensures Valid() && pending.None?
      ensures var d := t.route.config;
              var model := F.CreateModel(d.model, Some(d.modelState), t.params);
              var view := F.CreateView(d.view, rootElement);
              var args := F.CreateController(model, view, t.params, self, eventBus);
              var destroyed := DestroyedLog(old(currentController));
              match build
              case Built(c) =>
                currentController == Some(c) && currentRoute == Some(t.route.path) &&
                lifecycle == old(lifecycle) + destroyed + [ModelBuilt(model), ViewBuilt(view), ControllerBuilt(args), Initialized(c)] &&
                events == old(events) + [AfterChange(t.route.path, t.params, c)] &&
                errorReports == old(errorReports)
              case BuildFailed(stage, error) =>
                currentController.None? && currentRoute == old(currentRoute) &&
                lifecycle == old(lifecycle) + destroyed + StepsBefore(stage, model, view, args) &&
                events == old(events) + [TransitionError(FailureMessage(MP.Thrown(error), TransitionErrorDefault), t.route.path, t.params)] &&
                errorReports == old(errorReports) + (if hasErrorHandler then [ErrorReport(error, t.route.path, t.params)] else [])
      ensures routes == old(routes) && hash == old(hash) && nextToken == old(nextToken)
      ensures cleanup == old(cleanup) && isInitialized == old(isInitialized)
      ensures hashListening == old(hashListening) && navigateSubscribed == old(navigateSubscribed)
      ensures notFoundHandler == old(notFoundHandler) && renders == old(renders)
    {
      DestroyCurrentController();
      Install(t, build);
    }

    /** The building steps of `_transitionTo` with no controller left: the
        model, the view and the controller in that order, then `init`; a
        step that throws is reported and ends the transition. */
    method Install(t: Transition, build: Build)
      requires Valid() && currentController.None?
      modifies this
      ensures Valid() && pending.None?
      ensures var d := t.route.config;
              var model := F.CreateModel(d.model, Some(d.modelState), t.params);
              var view := F.CreateView(d.view, rootElement);
              var args := F.CreateController(model, view, t.params, self, eventBus);
              match build
              case Built(c) =>
                currentController == Some(c) && currentRoute == Some(t.route.path) &&
                lifecycle == old(lifecycle) + [ModelBuilt(model), ViewBuilt(view), ControllerBuilt(args), Initialized(c)] &&
                events == old(events) + [AfterChange(t.route.path, t.params, c)] &&
                errorReports == old(errorReports)
              case BuildFailed(stage, error) =>
                currentController.None? && currentRoute == old(currentRoute) &&
                lifecycle == old(lifecycle) + StepsBefore(stage, model, view, args) &&
                events == old(events) + [TransitionError(FailureMessage(MP.Thrown(error), TransitionErrorDefault), t.route.path, t.params)] &&
                errorReports == old(errorReports) + (if hasErrorHandler then [ErrorReport(error, t.route.path, t.params)] else [])
      ensures routes == old(routes) && hash == old(hash) && nextToken == old(nextToken)
      ensures cleanup == old(cleanup) && isInitialized == old(isInitialized)
      ensures hashListening == old(hashListening) && navigateSubscribed == old(navigateSubscribed)
      ensures notFoundHandler == old(notFoundHandler) && renders == old(renders)
    {
      var d := t.route.config;
      var model := F.CreateModel(d.model, Some(d.modelState), t.params);
      var view := F.CreateView(d.view, rootElement);
      var args := F.CreateController(model, view, t.params, self, eventBus);
      match build {
        case BuildFailed(stage, error) =>
          lifecycle := lifecycle + StepsBefore(stage, model, view, args);
          HandleTransitionError(error, t.route.path, t.params);
        case Built(c) =>
          lifecycle := lifecycle + [ModelBuilt(model), ViewBuilt(view), ControllerBuilt(args), Initialized(c)];
          currentController := Some(c);
          currentRoute := Some(t.route.path);
          events := events + [AfterChange(t.route.path, t.params, c)];
      }
      pending := None;
    }

    /** `start()`: refuse before `init`; give an empty hash the value `#/`;
        then handle the current hash. */
    method Start() returns (r: Result<Option<Transition>, string>)
      requires Valid()
      modifies this
      ensures Valid()
      ensures !old(isInitialized) ==> r == Err(NotInitializedMessage) && unchanged(this)
      ensures old(isInitialized) ==>
                (r.Ok? && hash == StartHash(old(hash)) && RouteChangeHandled(StartHash(old(hash)), r.value))
      ensures r.Ok? && r.value.Some? ==> r.value.value.token == old(nextToken) && pending == Some(old(nextToken))
      ensures routes == old(routes) && cleanup == old(cleanup) && isInitialized == old(isInitialized)
      ensures currentRoute == old(currentRoute)
      ensures hashListening == old(hashListening) && navigateSubscribed == old(navigateSubscribed)
      ensures notFoundHandler == old(notFoundHandler) && errorReports == old(errorReports)
    {
      if !isInitialized {
        return Err(NotInitializedMessage);
      }
      if hash == "" {
        hash := "#/";
      }
      var t := HandleRouteChange();
      return Ok(t);
    }

    /** The browser's `hashchange` event: the listener, when installed,
        handles the route change. */
    method OnHashChange() returns (t: Option<Transition>)
      requires Valid()
      modifies this
      ensures Valid()
      ensures !old(hashListening) ==> t.None? && unchanged(this)
      ensures old(hashListening) ==> RouteChangeHandled(old(hash), t)
      ensures t.Some? ==> t.value.token == old(nextToken) && pending == Some(old(nextToken))
      ensures routes == old(routes) && hash == old(hash) && currentRoute == old(currentRoute)
      ensures cleanup == old(cleanup) && isInitialized == old(isInitialized)
      ensures hashListening == old(hashListening) && navigateSubscribed == old(navigateSubscribed)
      ensures notFoundHandler == old(notFoundHandler) && errorReports == old(errorReports)
    {
      if !hashListening {
        return None;
      }
      t := HandleRouteChange();
    }

    /** A `ROUTER_NAVIGATE` event, when the subscription is live. */
    method OnNavigateRequested(path: string, params: Pairs)
      requires Valid()
      modifies this
      ensures Valid()
      ensures hash == if old(navigateSubscribed) then NavigateHash(path, params) else old(hash)
      ensures routes == old(routes) && pending == old(pending) && nextToken == old(nextToken)
      ensures currentController == old(currentController) && currentRoute == old(currentRoute)
      ensures events == old(events) && lifecycle == old(lifecycle) && renders == old(renders)
      ensures errorReports == old(errorReports) && cleanup == old(cleanup) && isInitialized == old(isInitialized)
      ensures hashListening == old(hashListening) && navigateSubscribed == old(navigateSubscribed)
      ensures notFoundHandler == old(notFoundHandler)
      ensures !old(navigateSubscribed) ==> unchanged(this)
    {
      if navigateSubscribed {
        Navigate(path, params);
      }
    }
  }

  // The module-level `_routerInstance` and the checks of the constructor.

  const AlreadyCreatedMessage := "Router já instanciado. Use Router.getInstance()"
  const BusRequiredMessage := "Router: eventBus é obrigatório"
  const ContainerRequiredMessage := "Router: container é obrigatório"
  const OptionsAfterCreationMessage := "Router já criado; não passe opções após a primeira inicialização"
  const OptionsRequiredMessage := "Router.getInstance(): opções são obrigatórias na primeira chamada"

  function RootNotFoundMessage(selector: string): string
  {
    "[Router] Root element \"" + selector + "\" não encontrado no DOM"
  }

  /** The `rootElement` option: a selector with the element the document
      query finds for it, if any, or an element value that may be falsy. */
  datatype RootArg = Selector(selector: string, found: Option<nat>) | Element(element: Option<nat>)

  /** The options object; `None` is a falsy field. `self` names the new
      router and `hash` is the location hash at construction. */
  datatype RouterOptions = RouterOptions(
    eventBus: Option<nat>, container: Option<nat>, root: RootArg, hasErrorHandler: bool,
    hash: string, self: nat)

  /** The element the root option resolves to. */
  function RootOf(root: RootArg): Option<nat>
  {
    match root
    case Selector(_, found) => found
    case Element(element) => element
  }

  /** Why `new Router(options)` throws, checked in the constructor's order,
      or `None` when it does not. */
  function ConstructionError(existing: bool, options: RouterOptions): (r: Option<string>)
    ensures r.None? <==> !existing && options.eventBus.Some? && options.container.Some? && RootOf(options.root).Some?
    ensures existing ==> r == Some(AlreadyCreatedMessage)
  {
    if existing then Some(AlreadyCreatedMessage)
    else if options.eventBus.None? then Some(BusRequiredMessage)
    else if options.container.None? then Some(ContainerRequiredMessage)
    else if RootOf(options.root).None? then
      Some(RootNotFoundMessage(if options.root.Selector? then options.root.selector else "HTMLElement"))
    else None
  }

  class RouterSlot {
    var instance: Router?

    constructor()
      ensures instance == null
    {
      instance := null;
    }

    /** `new Router(options)`: refused while an instance exists, without a
        bus or container, or when the root element is missing; a router that
        is built fills the slot. */
    method NewRouter(options: RouterOptions) returns (r: Result<Router, string>)
      modifies this
      ensures var failure := ConstructionError(old(instance) != null, options);
              (failure.Some? ==> r == Err(failure.value) && instance == old(instance)) &&
              (failure.None? ==>
                 r.Ok? && fresh(r.value) && instance == r.value && r.value.Valid() &&
                 r.value.hash == options.hash && r.value.hasErrorHandler == options.hasErrorHandler &&
                 Some(r.value.rootElement) == RootOf(options.root) && r.value.self == options.self &&
                 Some(r.value.eventBus) == options.eventBus && r.value.middlewareTimeoutMs == DefaultTimeoutMs &&
                 r.value.routes == [] && r.value.currentController.None? && r.value.pending.None? &&
                 !r.value.isInitialized && r.value.events == [])
    {
      if instance != null {
        return Err(AlreadyCreatedMessage);
      }
      if options.eventBus.None? {
        return Err(BusRequiredMessage);
      }
      if options.container.None? {
        return Err(ContainerRequiredMessage);
      }
      var root := RootOf(options.root);
      if root.None? {
        var selector := if options.root.Selector? then options.root.selector else "HTMLElement";
        return Err(RootNotFoundMessage(selector));
      }
      var router := new Router(options.hash, options.hasErrorHandler, root.value, options.self, options.eventBus.value);
      instance := router;
      return Ok(router);
    }

    /** `Router.getInstance(options)`: the existing router when called
        without options, a new one when called with options the first time;
        options after creation, or none before it, throw. */
    method GetInstance(options: Option<RouterOptions>) returns (r: Result<Router, string>)
      modifies this
      ensures old(instance) != null && options.Some? ==> r == Err(OptionsAfterCreationMessage) && instance == old(instance)
      ensures old(instance) != null && options.None? ==> r == Ok(old(instance)) && instance == old(instance)
      ensures old(instance) == null && options.None? ==> r == Err(OptionsRequiredMessage) && instance == null
      ensures old(instance) == null && options.Some? ==>
                var failure := ConstructionError(false, options.value);
                (failure.Some? ==> r == Err(failure.value) && instance == null) &&
                (failure.None? ==> r.Ok? && fresh(r.value) && instance == r.value && r.value.Valid() && r.value.routes == [])
    {
      if instance != null {
        if options.Some? {
          return Err(OptionsAfterCreationMessage);
        }
        return Ok(instance);
      }
      if options.None? {
        return Err(OptionsRequiredMessage);
      }
      r := NewRouter(options.value);
    }

    /** `router.destroy()` as seen from the slot: the router's own teardown,
        then the slot is emptied, whichever router it held, so that a new
        router can be created. */
    method Destroy(router: Router)
      requires router.Valid()
      modifies this, router
      ensures instance == null && router.Valid()
      ensures router.cleanup == [] && !router.hashListening && !router.navigateSubscribed
      ensures router.currentController.None? && router.currentRoute.None? && router.pending.None?
      ensures router.lifecycle == old(router.lifecycle) + DestroyedLog(old(router.currentController))
      ensures router.routes == old(router.routes) && router.isInitialized == old(router.isInitialized)
    {
      router.Destroy();
      instance := null;
    }
  }

  // Lemmas about the table.

  /** A matched route is one of the table's entries. */
  lemma MatchInTable(table: seq<Route>, path: string)
    ensures RM.Match(table, path).Some? ==> RM.Match(table, path).value.route in table
  {
    RM.FirstDynamicSound(table, path);
  }

  /** Registering keeps the table's invariant. */
  lemma UpsertValid(table: seq<Route>, e: Route)
    requires TableValid(table) && EntryValid(e)
    ensures TableValid(Upsert(table, e))
  {
  }

  /** Registering a path that is present keeps every key where it is and
      replaces the descriptor; a new path is appended. */
  lemma UpsertKeys(table: seq<Route>, e: Route)
    requires RM.UniqueKeys(table)
    ensures e.path in Keys(table) ==> Keys(Upsert(table, e)) == Keys(table)
    ensures e.path !in Keys(table) ==> Keys(Upsert(table, e)) == Keys(table) + [e.path]
    ensures var t := Upsert(table, e); RM.KeyIndex(t, e.path) < |t| && t[RM.KeyIndex(t, e.path)] == e
  {
    var i := RM.KeyIndex(table, e.path);
    if e.path in Keys(table) {
      var j :| 0 <= j < |table| && Keys(table)[j] == e.path;
      assert i <= j;
    }
    var t := Upsert(table, e);
    assert t[i] == e;
  }

  /** Re-registering a path leaves the other entries alone. */
  lemma UpsertOthers(table: seq<Route>, e: Route, i: nat)
    requires RM.UniqueKeys(table) && i < |table| && table[i].path != e.path
    ensures i < |Upsert(table, e)| && Upsert(table, e)[i] == table[i]
  {
  }

  /** Query parameters override route parameters of the same name. */
  lemma QueryOverridesRouteParams(routeParams: map<string, string>, query: map<string, string>, k: string)
    ensures k in query ==> (routeParams + query)[k] == query[k]
    ensures k !in query && k in routeParams ==> (routeParams + query)[k] == routeParams[k]
    ensures k in routeParams + query <==> k in routeParams || k in query
  {
  }

  // Navigation and parsing.

  /** The `name=value` pieces of a parameter list. */
  function PairPieces(params: Pairs): (pieces: seq<string>)
    ensures |pieces| == |params|
    ensures forall i :: 0 <= i < |params| ==> pieces[i] == params[i].0 + "=" + params[i].1
  {
    seq(|params|, i requires 0 <= i < |params| => params[i].0 + "=" + params[i].1)
  }

  /** Parameters the fragment parser reads back unchanged. */
  predicate Plain(params: Pairs)
  {
    forall i :: 0 <= i < |params| ==>
      '&' !in params[i].0 && '?' !in params[i].0 && '=' !in params[i].0 &&
      '&' !in params[i].1 && '?' !in params[i].1
  }

  lemma {:induction false} JoinAvoids(pieces: seq<string>, sep: char, c: char)
    requires |pieces| >= 1 && c != sep
    requires forall k :: 0 <= k < |pieces| ==> c !in pieces[k]
    ensures c !in HP.Join(pieces, sep)
    decreases |pieces|
  {
    if |pieces| > 1 {
      JoinAvoids(pieces[1..], sep, c);
    }
  }

  lemma ParsePairPiece(k: string, v: string)
    requires '=' !in k
    ensures HP.ParsePair(k + "=" + v) == (k, v)
  {
    HP.IndexOfPrefix(k, '=', v);
    assert k + "=" + v == k + ['='] + v;
    assert (k + ['='] + v)[|k| + 1..] == v;
  }

  lemma {:induction false} PairsOfPairPieces(params: Pairs)
    requires Plain(params)
    ensures HP.PairsOfPieces(PairPieces(params)) == params
    decreases |params|
  {
    if params != [] {
      var pieces := PairPieces(params);
      assert pieces[0] != "" by { assert |pieces[0]| >= 1; }
      ParsePairPiece(params[0].0, params[0].1);
      assert pieces[1..] == PairPieces(params[1..]);
      PairsOfPairPieces(params[1..]);
    }
  }

  /** `navigate(path, params)` followed by the fragment parser gives back the
      path and the parameters, for a non-empty path without `?` and parameters
      free of the characters the parser splits on. Later duplicates win. */
  lemma NavigateThenParse(path: string, params: Pairs)
    requires path != "" && '?' !in path && Plain(params)
    ensures HP.PathOf(Some(NavigateHash(path, params))) == path
    ensures HP.QueryOf(Some(NavigateHash(path, params))) == HP.LastWins(params)
  {
    if params == [] {
      assert NavigateHash(path, params) == ['#'] + path;
      HP.ShapeWithoutQuery('#', path);
    } else {
      var q := EncodeQuery(params);
      var raw := Some(NavigateHash(path, params));
      QueryReadsBack(params);
      NavigateWithParams(path, params);
      assert raw.value == ['#'] + path + ['?'] + q;
      HP.ShapeWithQuery('#', path, q);
      assert HP.QueryPairs(raw) == HP.PairsOfPieces(HP.Split(q, '&'));
    }
  }

  /** The encoded query holds no `?`, is not empty, and splits back into the
      parameters. */
  lemma QueryReadsBack(params: Pairs)
    requires params != [] && Plain(params)
    ensures '?' !in EncodeQuery(params) && EncodeQuery(params) != ""
    ensures HP.PairsOfPieces(HP.Split(EncodeQuery(params), '&')) == params
  {
    var pieces := PairPieces(params);
    forall k | 0 <= k < |pieces| ensures '?' !in pieces[k] && '&' !in pieces[k] {
      assert pieces[k] == params[k].0 + ['='] + params[k].1;
    }
    JoinAvoids(pieces, '&', '?');
    assert |EncodeQuery(params)| >= 1;
    HP.SplitJoin(pieces, '&');
    PairsOfPairPieces(params);
  }

  /** `navigate(path, {})` writes exactly `#` followed by the path. */
  lemma NavigateWithoutParams(path: string)
    ensures NavigateHash(path, []) == "#" + path
  {
  }

  /** A parameter list that encodes to something is appended after a `?`. */
  lemma NavigateWithParams(path: string, params: Pairs)
    requires params != []
    ensures NavigateHash(path, params) == "#" + path + "?" + EncodeQuery(params)
  {
    assert |EncodeQuery(params)| >= 1;
  }

  // What the pipeline does to the router.

  /** A run leaves the hash and the event log as its outcome says: passing
      or blocking changes neither, a redirect writes the target's hash and
      publishes nothing, and a failure keeps the hash and publishes one
      middleware error carrying the route and params of the context. */
  lemma PipelineOnRouter(list: seq<MP.Entry>, ctx: Context, timeoutMs: nat, hash: string)
    ensures var run := MP.RunFrom(list, ctx, timeoutMs, 0);
      var n := |run.effects|;
      (run.outcome.Passed? || run.outcome.Blocked? ==> HashAfter(hash, run.effects, n) == hash && ErrorEvents(run.effects, n) == []) &&
      (run.outcome.Redirected? ==>
         n == 1 && run.effects[0].Navigated? && HashAfter(hash, run.effects, n) == NavigateHash(ToText(run.effects[0].target), run.effects[0].params) &&
         ErrorEvents(run.effects, n) == []) &&
      (run.outcome.Failed? ==>
         n == 1 && run.effects[0].ErrorEmitted? && HashAfter(hash, run.effects, n) == hash &&
         ErrorEvents(run.effects, n) == [MiddlewareError(FailureMessage(run.effects[0].failure, MiddlewareErrorDefault), ctx.route, ctx.params)])
  {
    MP.EffectsOfOutcome(list, ctx, timeoutMs, 0);
    var run := MP.RunFrom(list, ctx, timeoutMs, 0);
    if |run.effects| == 1 {
      assert ErrorEvents(run.effects, 0) == [];
    }
  }

  // A navigation overtaken by a newer one.

  /** Two route changes in a row: the first one's resume is stale whatever
      its pipeline and build did, and the second still completes. */
  method SupersededNavigation(r: Router, outcome: MP.Outcome, build: Build, c: nat)
    requires r.Valid() && Destination(r.routes, r.hash).Some?
    modifies r
    ensures r.Valid() && r.pending.None? && r.nextToken == old(r.nextToken) + 2
    ensures r.currentController == Some(c)
    ensures r.currentRoute == Some(Destination(old(r.routes), old(r.hash)).value.route.path)
    ensures (var d := Destination(old(r.routes), old(r.hash)).value;
             var params := d.params + HP.QueryOf(Some(old(r.hash)));
             r.events == old(r.events) + [BeforeChange(old(r.currentRoute), d.route.path, params),
                                          BeforeChange(old(r.currentRoute), d.route.path, params),
                                          AfterChange(d.route.path, params, c)])
    ensures r.renders == old(r.renders) && r.errorReports == old(r.errorReports)
  {
    var first := r.HandleRouteChange();
    var second := r.HandleRouteChange();
    if first.Some? && second.Some? {
      var before := r.currentController;
      var beforeEvents := r.events;
      r.Resume(first.value, outcome, build);
      assert r.currentController == before && r.events == beforeEvents;
      assert r.pending == Some(second.value.token);
      r.Resume(second.value, MP.Passed, Built(c));
      assert r.currentController == Some(c) && r.pending.None?;
    }
  }
}
