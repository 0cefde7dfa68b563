# A hash-routing MVC framework, modelled in Dafny

This project models the core of a small single-page MVC framework for the
browser, together with its two demo screens: a counter and a todo list.
Navigation happens through the location hash:

- `parseHash` splits the hash into a path and a query map.
- The route matchers pick an exact route first, then a dynamic one.
- An ordered middleware pipeline can let a navigation through, block it or
  redirect it.
- The router destroys the old controller before it builds the model, view
  and controller of the new screen. Each navigation carries a fresh token,
  and a navigation that has been overtaken by a newer one is dropped.

Below the router sit these pieces:

- an observable base model and a controller lifecycle;
- an event bus that calls its listeners over a snapshot of their list;
- a dependency container with singleton and factory entries;
- an application error handler;
- for the demo screens: a `Counter` and a `Todo` value object, a todo
  filter, a todo service, and a local-storage repository that falls back to
  memory.

One Dafny module models each source file:

- Pure code becomes datatypes, functions and lemmas. This covers the value
  objects, the filter, the matchers, the factory and the path split of the
  hash parser.
- Code that updates objects becomes classes whose fields the methods
  change. The router, bus, models, controller, container, repository,
  service and error handler are modelled this way, and the loops of the
  source (the middleware loop, the query `forEach`, the dynamic scan, the
  `forEach` of every `destroy`) become `while`/`for` loops with invariants.
- Each such method is proved against a specification function, such as
  `RunFrom`, `FirstDynamic`, `LastWins`, `Reacted`, `Resolved`, `Derive`,
  `Upsert`/`Without` or `RemoveUpTo`. The properties the source promises are
  then proved about those functions as lemmas.

The browser is modelled through state and parameters:

- The location hash is a string field of the router.
- The browser's `hashchange` event is the method `OnHashChange`.
- The `await` in `_transitionTo` splits the navigation into two steps:
  `HandleRouteChange` (mint the token, up to the before-change event) and
  `Resume` (the stale check and everything after it).
- The middleware's behaviour, the outcome of building the screen, the id
  generator, the clock, the storage faults and what listeners do when called
  are all parameters.

The files:

- `js.dfy`: JavaScript values, truthiness, `String(v)`, `indexOf`, `splice`.
- `hash_parser.dfy`: `parseHash`.
- `route_matchers.dfy`: `isDynamicPath`, `compileRoute`, `match`.
- `middleware.dfy`: `runMiddleware`, `classifyResult`.
- `factory.dfy`: the model, view and controller factory.
- `router.dfy`: the router class and its module-level singleton slot.
- `counter.dfy` and `todo.dfy`: the `Counter` and `Todo` value objects.
- `todo_filter.dfy`: the todo filter.
- `counter_model.dfy` and `todo_model.dfy`: the counter and todo models.
- `todo_service.dfy`: the todo service.
- `repository.dfy`: the local-storage repository.
- `container.dfy`: the dependency container.
- `event_bus.dfy`: the event bus.
- `base_model.dfy`: the base model.
- `base_controller.dfy`: the base controller.
- `error_handler.dfy`: the error handler.

## Model

| member | source | states |
|---|---|---|
| Js.RemoveFirst | core/EventBus.js:36-44 | dropping a callback removes nothing when it is absent, and otherwise exactly one occurrence (the length drops by one and the multiset loses one copy) |
| Js.Truthy | core/router/MiddlewarePipeline.js:46-47 | a value is falsy exactly when it is `undefined`, `null`, `false`, `0` or the empty string |
| HashParser.Split | core/router/HashParser.js:3 | `split` gives at least one piece, and no piece contains the separator |
| HashParser.JoinSplit | core/router/HashParser.js:3 | joining the pieces of a split with the separator gives the text back |
| HashParser.SplitJoin | core/router/HashParser.js:3 | splitting the join of separator-free pieces gives the pieces back |
| HashParser.LastWinsLookup | core/router/HashParser.js:7-9 | a key other than `__proto__` is in the query map exactly when some pair carries it, and it maps to the value of its last occurrence; `__proto__` never enters the map, because assigning a string to it on `{}` creates no own property |
| HashParser.CollectParams | core/router/HashParser.js:5-10 | the `forEach` loop that assigns the pairs into a fresh object builds the last-wins map of the pairs, skipping the pairs keyed `__proto__` |
| HashParser.ParseHash | core/router/HashParser.js:1-16 | the parsed path and query are the path and query source of the fragment |
| HashParser.EmptyFragment | core/router/HashParser.js:2-13 | a missing, empty or one-character hash (such as `#`) gives path `/` and an empty query |
| HashParser.FirstCharIgnored | core/router/HashParser.js:2 | the first character is dropped whatever it is: hashes differing only in it parse alike |
| HashParser.PathBeforeFirstQuestionMark | core/router/HashParser.js:2-13 | the path is the body's text before the first `?`, or `/` when that text is empty; it is never empty and never contains `?` |
| HashParser.QueryBetweenQuestionMarks | core/router/HashParser.js:3 | the query source is exactly the text between the first and the second `?`, and is absent without a `?` |
| HashParser.TailAfterSecondQuestionMarkIgnored | core/router/HashParser.js:3 | text after a second `?` never changes the query |
| HashParser.SameLeadingPieces | core/router/HashParser.js:2-10 | two hashes whose bodies agree on the first two `?`-pieces give the same path and query |
| HashParser.NoQueryNoParams | core/router/HashParser.js:6 | no `?`, or an empty query part, gives the empty query map |
| HashParser.RepeatedKeyLastWins | core/router/HashParser.js:7-9 | for a repeated key other than `__proto__`, the value of its last occurrence is kept; `__proto__` is never a key of the query map |
| HashParser.ShapeWithQuery | core/router/HashParser.js:2-13 | a hash of the form `c path ? q`, with a non-empty `?`-free path, has that path and the query source `q` |
| HashParser.ShapeWithoutQuery | core/router/HashParser.js:2-13 | a hash of the form `c path`, with no `?`, has that path and no query source |
| HashParser.TodosExample | core/router/HashParser.js:1-16 | `#/todos/42?x=1` gives path `/todos/42` and the query `{x: "1"}` |
| RouteMatchers.RewritesNeverFire | core/router/RouteMatchers.js:16-18 | for a pattern without a backslash, the wildcard and named-segment rewrites leave the escaped source unchanged, because the escape never puts `*` or `:` after a backslash |
| RouteMatchers.ParseEscaped | core/router/RouteMatchers.js:16-19 | the regular expression built from the escaped source is the pattern's own characters, each one literal or starred |
| RouteMatchers.IsDynamicPath | core/router/RouteMatchers.js:9-11 | a path is dynamic when it holds `:` or `*`; a static, backslash-free path compiles to the literal atoms of its own text |
| RouteMatchers.Compile | core/router/RouteMatchers.js:13-20 | the compiled matcher of a backslash-free pattern is the atom list read off its characters, and it is missing (the constructor throws) exactly when that reading fails |
| RouteMatchers.Literal | core/router/RouteMatchers.js:13-20 | the atoms spelling a text are unstarred, one per character |
| RouteMatchers.PatternAtomsOfLiteral | core/router/RouteMatchers.js:13-20 | a pattern with no `*` reads as the literal atoms of its own text |
| RouteMatchers.LiteralAccepts | core/router/RouteMatchers.js:19 | a chain of literal atoms accepts a path exactly when the path spells those atoms |
| RouteMatchers.LiteralPatternMatchesItself | core/router/RouteMatchers.js:13-20 | a pattern with no `*` and no backslash compiles, and accepts a path exactly when the path equals the pattern |
| RouteMatchers.NamedSegmentIsLiteral | core/router/RouteMatchers.js:13-20 | `/todos/:id` compiles, accepts `/todos/:id` and rejects `/todos/42`: the named segment is literal text |
| RouteMatchers.LeadingStarThrows | core/router/RouteMatchers.js:19 | a pattern starting with `*` does not compile ("nothing to repeat") |
| RouteMatchers.DoubleStarFails | core/router/RouteMatchers.js:19 | two adjacent stars make the reading of the pattern fail from that point on |
| RouteMatchers.DoubleStarThrows | core/router/RouteMatchers.js:19 | a pattern containing `**` does not compile |
| RouteMatchers.StarAcceptsRun | core/router/RouteMatchers.js:17-19 | a starred final atom accepts any run of its character, including the empty one |
| RouteMatchers.LiteralThenAccepts | core/router/RouteMatchers.js:19 | a literal prefix followed by more atoms accepts exactly that prefix followed by what the rest accepts |
| RouteMatchers.TrailingStarExample | core/router/RouteMatchers.js:13-20 | `/a/` followed by a star compiles to `/`, `a` and a starred `/`, and accepts `/a` followed by any number of slashes |
| RouteMatchers.TrailingStarCompiles | core/router/RouteMatchers.js:13-20 | `/a/` followed by `*` compiles to the literal atoms of `/a` followed by a starred `/`: the star repeats the slash before it |
| RouteMatchers.KeyIndex | core/router/RouteMatchers.js:22-31 | the position of the entry with a given key: every earlier key differs, and the entry at it has that key |
| RouteMatchers.Match | core/router/RouteMatchers.js:1-42 | no match exactly when there is no static entry under the path and no entry is a dynamic hit; a match has `{}` as params and is an entry of the table that is either the static entry under the path or a dynamic hit |
| RouteMatchers.MatchDynamicRoute | core/router/RouteMatchers.js:33-42 | the scan loop with its early return finds the first entry, in insertion order, that is dynamic, compiled and accepts the path, with `{}` as its params; `null` when there is none |
| RouteMatchers.MatchRoute | core/router/RouteMatchers.js:1-7 | `match` gives the exact result when there is one, and the dynamic scan's result otherwise |
| RouteMatchers.ExactRouteWins | core/router/RouteMatchers.js:1-31 | a static route registered under the path wins, with `{}` as params, wherever it sits in insertion order |
| RouteMatchers.DynamicKeyNotExact | core/router/RouteMatchers.js:22-31 | exact lookup fails for a key that is itself dynamic |
| RouteMatchers.FirstDynamicIsFirstHit | core/router/RouteMatchers.js:33-42 | when entry `i` is a hit and no earlier entry is, the dynamic scan returns entry `i` with `{}` as params |
| RouteMatchers.FirstDynamicSound | core/router/RouteMatchers.js:33-42 | whatever the dynamic scan returns is the first hit of the table, and it finds nothing exactly when no entry is a hit |
| MiddlewarePipeline.RunMiddleware | core/router/MiddlewarePipeline.js:3-42 | the loop with early returns produces the outcome, the `navigate`/`emitError` calls in order, and the positions invoked, as the specification run `RunFrom` from position 0 |
| MiddlewarePipeline.Classify | core/router/MiddlewarePipeline.js:44-49 | the result redirects exactly when it is an object with a truthy `redirect`; it blocks exactly when it is strict `false` or an object with a falsy `redirect` and a truthy `block`; everything else continues |
| MiddlewarePipeline.PrimitiveClassification | core/router/MiddlewarePipeline.js:44-49 | strict `false` blocks; every other primitive (`null`, `true`, `0`, a string) continues |
| MiddlewarePipeline.ObjectClassification | core/router/MiddlewarePipeline.js:44-49 | a truthy `redirect` beats a truthy `block`; an object with a falsy `block` and no redirect continues |
| MiddlewarePipeline.PassedIffNoStop | core/router/MiddlewarePipeline.js:18-41 | a run passes exactly when no entry stops it (the empty list too); it then calls neither callback and invokes every function, skipping non-functions |
| MiddlewarePipeline.FirstStopDecides | core/router/MiddlewarePipeline.js:18-41 | the first entry that stops the run decides the outcome and the callbacks, and only the functions up to it are invoked |
| MiddlewarePipeline.OnlyFunctionsInvoked | core/router/MiddlewarePipeline.js:19 | every invoked position lies in the list, at or after the start, and holds a function entry: non-functions are skipped |
| MiddlewarePipeline.EffectsOfOutcome | core/router/MiddlewarePipeline.js:11-29 | a redirect calls `navigate(redirect, params \|\| {})` exactly once; a throw or timeout calls `emitError` exactly once with the caller's context; passing or blocking calls neither |
| MiddlewarePipeline.BlockReason | core/router/MiddlewarePipeline.js:15-47 | a blocking object reports its `reason`; a blocking `false` reports `undefined` |
| MiddlewarePipeline.EmptyListPasses | core/router/MiddlewarePipeline.js:3-41 | the empty list passes with no callback and nothing invoked |
| Factory.CreateModel | core/router/Factory.js:1-23 | a falsy slot (the empty string included) gives no model; a non-empty string resolves through the container with `modelState \|\| {}`; a function with a prototype is constructed with the raw state and params, other functions are called with `modelState \|\| {}` and params; any other value is returned as is |
| Factory.CreateView | core/router/Factory.js:25-27 | the view is the view class constructed with exactly the root element |
| Factory.CreateController | core/router/Factory.js:29-37 | the controller receives exactly `{model, view, params, router, eventBus}` |
| Factory.MissingStateDefaults | core/router/Factory.js:7-22 | with no model state, a container lookup and a plain call receive `{}`, while a `new` call receives the missing value itself |
| Factory.ParamsOnlyToFunctions | core/router/Factory.js:1-15 | route params reach the model only through a function slot |
| Routing.MakeEntry | core/Router.js:96-110 | the stored descriptor keeps the path; `isDynamic` is the dynamic test of the path, and `compiled` is its compiled pattern exactly when it is dynamic; `modelState` defaults to `{}` and `middleware` to `[]` |
| Routing.Keys | core/Router.js:295-297 | the route keys, one per entry, in table order |
| Routing.Entries | core/Router.js:183-191 | the middleware list as the pipeline sees it: one entry per slot, a non-function exactly where the slot is not a function |
| Routing.RunCleanup | core/Router.js:82-84 | running the cleanup list removes the hash listener exactly when its remover is in the list, and unsubscribes from navigate requests exactly when its unsubscriber is |
| Routing.Router.constructor | core/Router.js:12-48 | a new router has an empty table, no controller, route or pending token, no cleanup entry, is not initialised, and has a 5000 ms middleware timeout |
| Routing.Router.CurrentRoute | core/Router.js:287-289 | the getter returns the current route |
| Routing.Router.CurrentController | core/Router.js:291-293 | the getter returns the current controller |
| Routing.Router.Routes | core/Router.js:295-297 | the getter lists the keys in first-insertion order |
| Routing.Router.Init | core/Router.js:63-79 | the first call installs exactly the hash listener and the navigate subscription, in that order; a second call adds nothing; nothing else changes |
| Routing.Router.Destroy | core/Router.js:81-92 | every cleanup runs and the list empties; the current controller is destroyed once; controller, route and pending token are cleared; the table and the initialised flag are kept |
| Routing.Router.Register | core/Router.js:96-110 | a path the `RegExp` constructor accepts is upserted into the table, replacing an existing descriptor in place; a rejected dynamic path throws and leaves the table as it was |
| Routing.Router.RegisterAll | core/Router.js:112-117 | the entries are registered in order, stopping at the first that throws, as `RegisterEach` says |
| Routing.Upsert | core/Router.js:99-108 | afterwards the key lookup finds the new descriptor; the table grows by one exactly when the key was absent; every entry under another key stays where it was |
| Routing.Router.SetNotFoundHandler | core/Router.js:119-122 | sets the custom not-found handler and changes nothing else |
| Routing.Router.Navigate | core/Router.js:124-133 | writes `#path`, followed by `?query` when the encoded params are non-empty; nothing else changes |
| Routing.Router.DestroyCurrentController | core/Router.js:268-273 | the current controller, if any, is destroyed once and cleared; nothing else changes |
| Routing.Router.HandleNotFound | core/Router.js:275-285 | destroys the current controller, renders with the custom handler when one is set and with the default otherwise, emits the not-found event with the path, and keeps the current route |
| Routing.Router.HandleRouteChange | core/Router.js:147-182 | mints a fresh token and makes it pending; an unmatched path is handled as not found and clears the token; a matched one emits before-change `{from, to, params}` (query params overriding route params) and returns the suspended transition |
| Routing.Router.Dispatch | core/Router.js:155-181 | after matching: the not-found branch with the token cleared, or the before-change event and the transition carrying the merged params |
| Routing.Router.AwaitPipeline | core/Router.js:183-266 | runs the route's middleware against `{route, params}` with the router's timeout; the outcome is the pipeline's, every redirect writes the hash, every error is emitted as a middleware application error |
| Routing.Router.ApplyEffects | core/Router.js:188-266 | each `navigate` effect in turn writes its target into the hash, and each `emitError` effect publishes one middleware error event, in order; nothing else changes |
| Routing.Router.HandleTransitionError | core/Router.js:227-251 | the error goes to the error handler when there is one, and an application error with the message (or the default message), route and params is emitted |
| Routing.Router.Resume | core/Router.js:193-224 | a stale token changes no controller, route, pending token, event or lifecycle entry; a pipeline that did not pass only clears the token; otherwise the old controller is destroyed before the model, view and controller are built, and either the new controller and route are set and after-change is emitted, or a failed build is reported and leaves no controller and the old route |
| Routing.Router.Enter | core/Router.js:201-219 | destroy the current controller, then build the new screen or report the failure, and clear the token |
| Routing.Router.Install | core/Router.js:204-224 | with no current controller: model, view, controller, then `init`; the controller and route are set and after-change emitted; a step that throws is reported, the steps before it stand, and the old route is kept |
| Routing.StartHash | core/Router.js:140-142 | the hash `start` handles is never empty: an empty one becomes `#/` and any other is kept |
| Routing.Router.Start | core/Router.js:135-145 | throws before `init` and changes nothing; afterwards an empty hash becomes `#/`, any other hash is kept, and the route change is handled on that hash as `_handleRouteChange` does: a fresh token, then not-found (controller destroyed, not-found rendered and announced, token cleared) or the before-change event and the suspended transition with query params overriding route params |
| Routing.Router.OnHashChange | core/Router.js:68-70 | the installed hash listener handles the route change on the current hash as `_handleRouteChange` does (fresh token, then not-found or before-change and the suspended transition); without it nothing changes |
| Routing.Router.OnNavigateRequested | core/Router.js:72-74 | a live navigate subscription writes the hash as `navigate` does and changes nothing else; without it nothing changes |
| Routing.ConstructionError | core/Router.js:12-48 | construction is refused exactly when an instance exists, the bus or the container is missing, or the root element is not found; an existing instance gives the already-created message |
| Routing.RouterSlot.constructor | core/Router.js:8 | the slot starts empty |
| Routing.RouterSlot.NewRouter | core/Router.js:12-48 | a refused construction leaves the slot alone; otherwise a fresh router with the given bus, root, handler and hash fills the slot |
| Routing.RouterSlot.GetInstance | core/Router.js:50-61 | the existing router when called without options; a new one the first time with options; options after creation, or none before it, throw |
| Routing.RouterSlot.Destroy | core/Router.js:81-94 | the router's teardown, then the slot is emptied so that a new router can be built; table and initialised flag are kept |
| Routing.MatchInTable | core/Router.js:171-173 | a matched route is one of the table's entries |
| Routing.UpsertValid | core/Router.js:99-108 | registering keeps every stored entry consistent with its key (flag and matcher derived from the path, unique keys) |
| Routing.UpsertKeys | core/Router.js:96-110 | re-registering a present path keeps every key where it is and replaces the descriptor; a new path is appended at the end of the keys |
| Routing.UpsertOthers | core/Router.js:99 | re-registering a path leaves every other entry alone |
| Routing.QueryOverridesRouteParams | core/Router.js:166 | a query parameter overrides a route parameter of the same name, and the others are kept |
| Routing.EncodeQuery | core/Router.js:127 | no parameters give the empty query; otherwise the query is the `&`-join of the `name=value` pieces, in order |
| Routing.PairPieces | core/Router.js:127 | one `name=value` piece per parameter, in order |
| Routing.NavigateThenParse | core/Router.js:124-133 | `navigate(path, params)` followed by `parseHash` gives back the path and the parameters (later duplicates winning), for a non-empty `?`-free path, names free of `?`, `&` and `=`, and values free of `?` and `&` |
| Routing.QueryReadsBack | core/Router.js:127 | a non-empty encoded query holds no `?` and splits back into the parameters |
| Routing.NavigateWithoutParams | core/Router.js:125-130 | `navigate(path, {})` writes exactly `#` followed by the path |
| Routing.NavigateWithParams | core/Router.js:125-130 | parameters that encode to something are appended after a `?` |
| Routing.PipelineOnRouter | core/Router.js:183-266 | passing or blocking changes neither the hash nor the events; a redirect writes the target's hash and publishes nothing; a failure keeps the hash and publishes one middleware error with the context's route and params |
| Routing.SupersededNavigation | core/Router.js:147-224 | two route changes and then both resumes: the first resume is stale and adds nothing, whatever its pipeline and build did. The events are exactly the two before-change events and the second navigation's after-change, with no render and no error report, and the router ends with the second navigation's controller and route and no pending token |
| CounterEntity.Clamp | domain/entities/Counter.js:106-108 | with ordered bounds the result lies within them and a value inside is kept; with reversed bounds the result is the minimum |
| CounterEntity.Defaulted | domain/entities/Counter.js:13-15 | the destructuring default turns `undefined` into 1 and keeps every other step as given |
| CounterEntity.ValidateStep | domain/entities/Counter.js:90-104 | a non-number (`undefined` included) fails with the type message; below 1 with the too-low message; above 100 with the too-high message; otherwise the step is floored into 1..100 |
| CounterEntity.Make | domain/entities/Counter.js:13-26 | construction fails exactly when the validation of the defaulted step fails, with its message, so an `undefined` step always gives step 1; otherwise the counter has the floored step, the bounds, and the clamped value |
| CounterEntity.Default | domain/entities/Counter.js:13-18 | the default counter is value 0, step 1 and the widest safe-integer bounds |
| CounterEntity.WithValue | domain/entities/Counter.js:44-71 | rebuilding around a new value is what the constructor makes of it with the same step and bounds |
| CounterEntity.Increment | domain/entities/Counter.js:44-53 | the value moves up by the step and is clamped into the bounds; step and bounds are kept and the counter stays valid |
| CounterEntity.Decrement | domain/entities/Counter.js:55-62 | the value moves down by the step and is clamped into the bounds; step and bounds are kept and the counter stays valid |
| CounterEntity.Reset | domain/entities/Counter.js:64-71 | the new value, clamped, with the same step and bounds |
| CounterEntity.WithStep | domain/entities/Counter.js:73-80 | succeeds exactly when the defaulted step validates, failing with the validation's message otherwise; a new counter keeps the bounds and the clamped value and takes the validated step |
| CounterEntity.IsAtMin | domain/entities/Counter.js:82-84 | on a counter with ordered bounds, true exactly at the minimum |
| CounterEntity.IsAtMax | domain/entities/Counter.js:86-88 | on a counter with ordered bounds, true exactly at the maximum |
| CounterEntity.ToJson | domain/entities/Counter.js:110-117 | the JSON form is exactly `{value, step, min, max}` |
| CounterEntity.ClampIdempotent | domain/entities/Counter.js:106-108 | clamping twice is clamping once |
| CounterEntity.ValueInBounds | domain/entities/Counter.js:106-108 | a counter's value lies within ordered bounds, and is the minimum when they are reversed |
| CounterEntity.IncrementMonotone | domain/entities/Counter.js:44-62 | with ordered bounds, an increment never lowers the value and a decrement never raises it; at the maximum (minimum) they change nothing; below the maximum an increment raises the value |
| CounterEntity.WithStepKeepsValue | domain/entities/Counter.js:73-80 | `withStep` succeeds exactly when the step, with `undefined` taken as 1, validates; it keeps value and bounds, and `withStep(undefined)` sets the step to 1 |
| CounterEntity.ToJsonInjective | domain/entities/Counter.js:110-117 | the JSON form determines the counter |
| TodoEntity.SpaceEnd | domain/entities/Todo.js:89 | the first character at or after `i` that is not white space, with only white space before it |
| TodoEntity.SpaceStart | domain/entities/Todo.js:89 | the point after the last non-white character before `j`, with only white space after it |
| TodoEntity.Trim | domain/entities/Todo.js:88 | the trimmed text is no longer than the text, neither of its ends is white space, and it is empty exactly when the text is all white space |
| TodoEntity.Utf16Length | domain/entities/Todo.js:90-96 | the `length` of a string in UTF-16 code units lies between its number of characters and twice that, and equals it when no character lies outside the Basic Multilingual Plane |
| TodoEntity.ValidateText | domain/entities/Todo.js:83-99 | a non-string or a trimmed text shorter than the minimum fails with the empty-text message; one longer than the maximum fails with the too-long message, lengths counted in UTF-16 code units; otherwise the trimmed text is returned |
| TodoEntity.Make | domain/entities/Todo.js:14-24 | construction fails exactly when the text is rejected, whatever the id generator and clock say; otherwise the todo has the trimmed text, the given or generated id, the boolean of `completed`, and the given or current stamp |
| TodoEntity.EditText | domain/entities/Todo.js:72-81 | an edit fails exactly when the new text is rejected; otherwise it keeps id, flag and stamp and stores the trimmed text |
| TodoEntity.Complete | domain/entities/Todo.js:42-53 | the result is completed with the same id, text and stamp; a completed todo is returned as it is |
| TodoEntity.Uncomplete | domain/entities/Todo.js:55-66 | the result is active with the same id, text and stamp; an active todo is returned as it is |
| TodoEntity.Toggle | domain/entities/Todo.js:68-70 | the flag flips; id, text and stamp stay |
| TodoEntity.ToJson | domain/entities/Todo.js:101-108 | the JSON form has a string text and a boolean flag and decodes back to the todo |
| TodoEntity.FromJson | domain/entities/Todo.js:110-117 | succeeds exactly when the text validates, failing with its message; a truthy id and stamp are taken from the JSON; a valid JSON form is read back exactly, without the id generator or the clock |
| TodoEntity.TrimShape | domain/entities/Todo.js:89 | a text splits into leading white space, the trimmed text, and trailing white space, and the trimmed text starts and ends with a non-white character |
| TodoEntity.TrimUnique | domain/entities/Todo.js:89 | trimming white space, then a text with non-white ends, then white space gives back that middle text |
| TodoEntity.TrimTwice | domain/entities/Todo.js:89 | trimming is idempotent |
| TodoEntity.RebuildKeeps | domain/entities/Todo.js:14-24 | a valid todo passed back through the constructor with any flag keeps id, text and stamp |
| TodoEntity.CompleteUncomplete | domain/entities/Todo.js:42-66 | `complete` on a completed todo, and `uncomplete` on an active one, return the todo itself; otherwise the result is what the constructor builds from the same id, text and stamp with the new flag; `complete` always leaves the todo completed and `uncomplete` active |
| TodoEntity.ToggleFlips | domain/entities/Todo.js:68-70 | `toggle` flips the flag, keeps id, text and stamp, keeps the todo valid, and toggling twice restores it |
| TodoEntity.EditKeepsValid | domain/entities/Todo.js:72-81 | an accepted edit gives a valid todo |
| TodoEntity.TrimmedStaysValid | domain/entities/Todo.js:83-99 | an accepted text, once trimmed, is accepted again unchanged |
| TodoEntity.JsonRoundTrip | domain/entities/Todo.js:101-117 | `fromJSON(t.toJSON())` reproduces all four fields of a valid todo |
| TodoEntity.ToJsonValid | domain/entities/Todo.js:101-108 | a valid todo's JSON form is valid and decodes to the todo |
| TodoEntity.FromValidJson | domain/entities/Todo.js:101-117 | `fromJSON` of a valid JSON form is its decoding, and `toJSON` of that gives the form back |
| TodoEntity.RejectedTextIgnoresGenerator | domain/entities/Todo.js:16-18 | the text is validated before an id is generated: a rejected text fails the same way whatever the id generator and clock |
| TodoEntity.CompletedCoerced | domain/entities/Todo.js:20 | the stored flag is the truthiness of `completed` |
| TodoFilter.ValidStrings | core/enums/TodoFilter.js:3-9 | a string passes `isValid` exactly when it is `all`, `active` or `completed` |
| TodoFilter.NonStringsRejected | core/enums/TodoFilter.js:7-9 | no primitive other than those strings passes |
| TodoFilter.FunctionItselfAccepted | core/enums/TodoFilter.js:7-9 | the `isValid` function is one of the object's values, so it passes its own test |
| TodoFilter.ValuesDistinct | core/enums/TodoFilter.js:3-5 | the three filter values are pairwise distinct |
| TodoFilter.IsValid | core/enums/TodoFilter.js:7-9 | a filter passes exactly when it is `all`, `active`, `completed` or the `isValid` function itself |
| CounterModels.Construct | app/models/CounterModel.js:8-12 | the model's counter is the one `new Counter(initialState)` builds, with the constructor's defaults for the missing fields |
| CounterModels.StateOf | app/models/CounterModel.js:55-62 | the state has exactly the keys `value`, `step`, `min`, `max`, `isAtMin` and `isAtMax` |
| CounterModels.CounterModel.constructor | app/models/CounterModel.js:8-20 | the model starts from the constructed counter, with the state synced from it and no observer |
| CounterModels.CounterModel.SyncState | app/models/CounterModel.js:55-62 | the whole state is set again from the counter; every observer is notified once with the new and the previous state, and `counter:change` is emitted when there is a bus |
| CounterModels.CounterModel.Increment | app/models/CounterModel.js:22-25 | the counter is replaced by its increment and the state synced. The sync notifies every observer once with the new and the previous state and emits `counter:change` when there is a bus. |
| CounterModels.CounterModel.Decrement | app/models/CounterModel.js:27-30 | the counter is replaced by its decrement and the state synced. The sync notifies every observer once with the new and the previous state and emits `counter:change` when there is a bus. |
| CounterModels.CounterModel.Reset | app/models/CounterModel.js:32-39 | the counter is reset to the clamped value (0 by default) and the state synced. The sync notifies every observer once with the new and the previous state and emits `counter:change` when there is a bus. |
| CounterModels.CounterModel.SetStep | app/models/CounterModel.js:41-53 | a step `withStep` accepts (`undefined` among them, taken as 1) replaces the counter and syncs, notifying every observer and emitting `counter:change` when there is a bus; a refused one leaves counter, state, notifications and change events unchanged and emits the step error `{step, error}`, which throws without a bus |
| CounterModels.CounterModel.Value | app/models/CounterModel.js:64-66 | the `value` getter returns what the state holds under `value` |
| CounterModels.StateDeterminesCounter | app/models/CounterModel.js:55-62 | the state determines the counter |
| CounterModels.StateFlags | app/models/CounterModel.js:59-60 | with ordered bounds, the state's flags say whether the value sits on a bound |
| CounterModels.DefaultInit | app/models/CounterModel.js:8-12 | with no initial state the counter is value 0 and step 1 |
| CounterModels.SetStepOutcome | app/models/CounterModel.js:41-53 | `undefined` or a step between 1 and 100 is accepted, `undefined` as 1 and a number floored, with the value kept; any other step is refused |
| TodoModels.Derive | app/models/TodoModel.js:134-147 | recomputing keeps the state's keys and adds `filteredTodos` and `stats` |
| TodoModels.ReplaceId | app/models/TodoModel.js:55-57 | every entry with the id is replaced by the updated todo, in place; the others stay |
| TodoModels.TodoModel.Create | app/models/TodoModel.js:7-23 | without a service, the service-required error is thrown and nothing is built; with one, a new model whose state is the defaults overridden by the initial state, with `todos` replaced by the service's list and the derived fields recomputed; a readable store is left exactly as it was |
| TodoModels.TodoModel.constructor | app/models/TodoModel.js:7-28 | the state is the defaults overridden by the initial state, with `todos` replaced by the service's list, and the derived fields recomputed; no observer is notified yet, and one `todo:change` is emitted when there is a bus; a readable store is left exactly as it was |
| TodoModels.TodoModel.LoadFromService | app/models/TodoModel.js:25-28 | `todos` becomes the service's list, with the derived fields recomputed, in one `setState` that notifies and emits; a readable store is left exactly as it was |
| TodoModels.TodoModel.SetStateWithDerived | app/models/TodoModel.js:134-139 | the partial state is merged and the derived fields recomputed, so that they agree with the todos and the filter; one `setState` notifies every observer and emits `todo:change` when there is a bus |
| TodoModels.TodoModel.AddTodo | app/models/TodoModel.js:30-41 | a rejected text returns `null` and leaves the state and the store unchanged; an accepted text on a working store is saved, the store updated with its JSON form, and that form appended at the end of `todos` and returned. Each `setState` notifies every observer once with the new and the previous state and emits `todo:change` when there is a bus; where no `setState` runs, neither log changes. |
| TodoModels.TodoModel.RemoveTodo | app/models/TodoModel.js:43-50 | a failed delete leaves the state unchanged; on a working store the entries with the id leave the list exactly when the store held the id, and otherwise the state is unchanged; on a working store the fault flags stay and the stored list loses exactly the entries with the id. Each `setState` notifies every observer once with the new and the previous state and emits `todo:change` when there is a bus; where no `setState` runs, neither log changes. |
| TodoModels.TodoModel.ToggleTodo | app/models/TodoModel.js:52-61 | on success, the matching entries are replaced in place by the saved todo; without a saved todo the state is unchanged. On a working store the fault flags stay; the stored list is untouched when it has no entry with the id, and otherwise its first entry with the id is replaced by its toggled form. Each `setState` notifies every observer once with the new and the previous state and emits `todo:change` when there is a bus; where no `setState` runs, neither log changes. |
| TodoModels.TodoModel.EditTodo | app/models/TodoModel.js:63-81 | on a working store, a saved edit replaces the entries with the id and clears `editingId`; a `null` result only clears `editingId` and leaves the list as it was, because the second `removeTodo` finds nothing to delete; a failed edit changes nothing. On a working store the fault flags stay and the stored list is the edit's list: the edited entry upserted, the entries with the id dropped for a blank text, otherwise unchanged. Each `setState` notifies every observer once with the new and the previous state and emits `todo:change` when there is a bus; where no `setState` runs, neither log changes. |
| TodoModels.TodoModel.EditTodoCorrected | app/models/TodoModel.js:63-81 | as `EditTodo`, but a blank edit that the service already deleted drops the entry from the list; the store ends as in `EditTodo`. Each `setState` notifies every observer once with the new and the previous state and emits `todo:change` when there is a bus; where no `setState` runs, neither log changes. |
| TodoModels.TodoModel.SetTodosClearEditing | app/models/TodoModel.js:71-74 | `todos` replaced, `editingId` cleared, derived fields recomputed. Each `setState` notifies every observer once with the new and the previous state and emits `todo:change` when there is a bus; where no `setState` runs, neither log changes. |
| TodoModels.TodoModel.SetEditing | app/models/TodoModel.js:83-85 | only `editingId` changes: the derived fields are not recomputed. Each `setState` notifies every observer once with the new and the previous state and emits `todo:change` when there is a bus; where no `setState` runs, neither log changes. |
| TodoModels.TodoModel.SetFilter | app/models/TodoModel.js:87-91 | an invalid filter changes nothing; a valid one is set and the derived fields recomputed. Each `setState` notifies every observer once with the new and the previous state and emits `todo:change` when there is a bus; where no `setState` runs, neither log changes. |
| TodoModels.TodoModel.ToggleAll | app/models/TodoModel.js:93-97 | on success `todos` becomes the flagged list the service returns; a working store always succeeds, keeps its fault flags and stores every entry with its flag set to the given value, in place. Each `setState` notifies every observer once with the new and the previous state and emits `todo:change` when there is a bus; where no `setState` runs, neither log changes. |
| TodoModels.TodoModel.ClearCompleted | app/models/TodoModel.js:99-106 | the active todos are kept only when the service removed more than zero; otherwise the state is unchanged. On a working store the fault flags stay and every completed entry leaves the stored list. Each `setState` notifies every observer once with the new and the previous state and emits `todo:change` when there is a bus; where no `setState` runs, neither log changes. |
| TodoModels.TodoModel.GetFilteredTodos | app/models/TodoModel.js:108-120 | returns the state's `filteredTodos`, which the model keeps equal to the filter applied to the todos |
| TodoModels.DeriveIsDerived | app/models/TodoModel.js:134-147 | after recomputing, `filteredTodos` and `stats` agree with the todos and the filter |
| TodoModels.DeriveSkipsEditing | app/models/TodoModel.js:134-139 | changing `editingId` commutes with recomputing the derived fields |
| TodoModels.BlankEditLeavesNoId | app/services/TodoService.js:51-65 | whenever the service's edit returns `null` (a blank text, or an unknown id), the store holds no entry with the id |
| TodoModels.BlankEditLeavesStaleEntry | app/models/TodoModel.js:63-81 | a blank edit of a stored todo returns `null` and removes the id from the store, so the model's following `removeTodo` finds nothing and, by `EditTodo`'s contract, the model's list keeps the entry |
| TodoModels.CorrectedEditMirrorsStore | app/models/TodoModel.js:63-81 | when the edit returns `null`, the store's new list is exactly the old list without the id, which is what the corrected model writes into its state |
| TodoModels.FilterMeaning | app/models/TodoModel.js:122-132 | `active` keeps exactly the todos that are not completed, `completed` keeps exactly the completed ones, and any other filter keeps them all |
| TodoModels.StatsMeaning | app/models/TodoModel.js:141-147 | `total` is the number of todos, `completed` the number of completed ones, `active` the number of the others, and `active = total - completed` |
| TodoModels.ActiveMembers | app/models/TodoModel.js:127 | a todo is in the active list exactly when it is in the list and not completed |
| TodoModels.CompletedMembers | app/models/TodoModel.js:129 | a todo is in the completed list exactly when it is in the list and completed |
| Services.CompletedOf | app/services/TodoService.js:80-90 | every entry kept is in the list and completed, and there are no more of them than entries |
| Services.ActiveOf | app/services/TodoService.js:91 | every entry kept is in the list and not completed, and there are no more of them than entries |
| Services.StatsOf | app/services/TodoService.js:87-94 | the total, completed and active counts, with active + completed = total |
| Services.Flagged | app/services/TodoService.js:67-76 | every entry with its flag set, ids and order kept |
| Services.Drop | app/services/TodoService.js:78-85 | an entry is kept exactly when it is in the list and its id is not in the set |
| Services.Entities | app/services/TodoService.js:27-30 | `fromJSON` over every valid JSON form, one entity per entry |
| Services.TodoService.Create | app/services/TodoService.js:6-12 | without a repository, the repository-required error is thrown; with one, a new service wrapping it |
| Services.TodoService.constructor | app/services/TodoService.js:6-12 | the service wraps the given repository |
| Services.TodoService.SaveEntry | app/services/TodoService.js:18-74 | on a working store the form is upserted into the stored list and returned; a failed save reports the save error |
| Services.TodoService.CreateTodo | app/services/TodoService.js:14-21 | the text is validated by `Todo` before anything is saved: a rejected text fails with its message and writes nothing; an accepted one gives a valid todo, which a working store upserts |
| Services.TodoService.GetAllTodos | app/services/TodoService.js:23-25 | the repository's readable list |
| Services.TodoService.GetTodoByIdAsEntity | app/services/TodoService.js:32-35 | the entity of the first entry with that id, or `null` |
| Services.TodoService.RemoveTodo | app/services/TodoService.js:37-39 | on a working store, reports whether the id was stored and leaves the list without it; a `false` changes nothing |
| Services.TodoService.ToggleTodo | app/services/TodoService.js:41-49 | an unknown id returns `null` without writing; otherwise the toggled todo is saved and its saved form returned |
| Services.TodoService.EditTodo | app/services/TodoService.js:51-65 | an unknown id returns `null` without writing; a blank text (after trim, or `null`/`undefined`) deletes the todo and returns `null`; otherwise the trimmed text is validated and saved |
| Services.EditOf | app/services/TodoService.js:51-65 | an unknown id gives `null` and the list unchanged; a failure leaves the list unchanged; a saved edit has the id, differs from the stored entry only in its text and is upserted; a `null` for a stored id leaves no entry with the id |
| Services.TodoService.GetAllTodosAsEntities | app/services/TodoService.js:27-30 | every stored form as an entity |
| Services.TodoService.ToggleAll | app/services/TodoService.js:67-76 | every todo gets the flag, each is saved in turn, and the flagged forms are returned with ids and order kept |
| Services.TodoService.SaveEach | app/services/TodoService.js:74 | saving each form in turn on a working store writes the upsert of each, in order |
| Services.TodoService.ClearCompleted | app/services/TodoService.js:78-85 | every completed todo is deleted by id, in order, and their number is returned |
| Services.TodoService.GetStats | app/services/TodoService.js:87-94 | the counts of the readable list |
| Services.CompletedPlusActive | app/services/TodoService.js:87-94 | `active + completed = total` |
| Services.FlagThroughEntity | app/services/TodoService.js:44-74 | completing or uncompleting a valid form through its entity sets its flag and keeps the other fields |
| Services.EditInPlace | app/services/TodoService.js:51-65 | a successful edit rewrites the text of the first entry with the id, in place, to the trimmed text; id, flag, stamp and all other entries stay |
| Services.BlankEditDeletes | app/services/TodoService.js:57-60 | a blank edit of a stored id deletes every entry with that id and returns `null` |
| Services.UnknownIdUnchanged | app/services/TodoService.js:52-55 | an edit of an id no entry has returns `null` and leaves the list as it was |
| Services.ToggleTwiceRestores | app/services/TodoService.js:41-49 | toggling the same id twice restores the stored list |
| Services.UpsertFlaggedPrefix | app/services/TodoService.js:70-74 | with unique ids, saving the flagged entries one by one replaces each entry in place |
| Services.ToggleAllStoresFlagged | app/services/TodoService.js:67-76 | with unique ids, `toggleAll` stores exactly the list it returns |
| Services.WithoutAllIsDrop | app/services/TodoService.js:80-84 | deleting a list of entries by id, one after the other, keeps exactly the entries whose id none of them has |
| Services.DropCompletedIsActive | app/services/TodoService.js:78-85 | with unique ids, dropping the completed entries' ids keeps exactly the active ones |
| Services.ClearCompletedKeepsActive | app/services/TodoService.js:78-85 | with unique ids, `clearCompleted` leaves exactly the active todos |
| Services.ClearCompletedDropsIds | app/services/TodoService.js:78-85 | in general `clearCompleted` drops every entry sharing an id with a completed one, active or not |
| Storage.MemoryStore | infrastructure/repositories/LocalStorageRepository.js:4-11 | the memory adapter starts empty (`getItem` of the key is `null`) and never fails |
| Storage.FindIndex | infrastructure/repositories/LocalStorageRepository.js:131 | the first position with the id, or the length when none has it |
| Storage.Without | infrastructure/repositories/LocalStorageRepository.js:156 | no entry kept has the id, and the result is no longer than the list |
| Storage.Upsert | infrastructure/repositories/LocalStorageRepository.js:131-137 | afterwards the entity is found under its id; the list grows by one exactly when the id was absent (the entity is appended); otherwise the first entry with the id is replaced in place; every other position is unchanged |
| Storage.Repository.constructor | infrastructure/repositories/LocalStorageRepository.js:14-36 | the repository starts on the given store with the given fallback flag and no switch made |
| Storage.Repository.SwitchToFallback | infrastructure/repositories/LocalStorageRepository.js:57-64 | the first switch moves to a fresh memory store; once on the fallback it does nothing, so there is at most one switch |
| Storage.Repository.SafeGetItem | infrastructure/repositories/LocalStorageRepository.js:66-73 | a read that works returns the stored list (or `null`) and changes nothing; a failed read returns `null` and switches to the fallback unless already on it |
| Storage.Repository.SafeSetItem | infrastructure/repositories/LocalStorageRepository.js:75-89 | a write that works stores the value; a failed write switches to the fallback and is retried exactly once there |
| Storage.Repository.SafeRemoveItem | infrastructure/repositories/LocalStorageRepository.js:91-105 | as a write, with the key removed |
| Storage.Repository.GetAll | infrastructure/repositories/LocalStorageRepository.js:107-117 | the stored list, or `[]` when nothing is stored or the read fails |
| Storage.Repository.GetById | infrastructure/repositories/LocalStorageRepository.js:119-122 | the first readable entry with the id, or `null` |
| Storage.Repository.Save | infrastructure/repositories/LocalStorageRepository.js:124-149 | an entity without a truthy id throws; otherwise the list is upserted and written; after a successful save the entity is found under its id; a write failing on the fallback too throws |
| Storage.Repository.Delete | infrastructure/repositories/LocalStorageRepository.js:151-171 | every entry with the id is dropped and `true` returned; when none has it, `false` is returned and nothing is written |
| Storage.Repository.Clear | infrastructure/repositories/LocalStorageRepository.js:173-175 | the key is removed; a failure is swallowed after the switch |
| Storage.WithoutKeepsLength | infrastructure/repositories/LocalStorageRepository.js:156-159 | filtering keeps the length exactly when no entry has the id |
| Storage.WithoutAbsent | infrastructure/repositories/LocalStorageRepository.js:156-159 | filtering for an id no entry has changes nothing |
| Storage.WithoutKeepsOthers | infrastructure/repositories/LocalStorageRepository.js:156 | an entry with another id is kept as often as it occurs |
| Storage.WithoutMembers | infrastructure/repositories/LocalStorageRepository.js:156 | every entry kept was in the list |
| Storage.FindByIdIn | infrastructure/repositories/LocalStorageRepository.js:119-122 | a found entry is in the list and has the id |
| Storage.UpsertMembers | infrastructure/repositories/LocalStorageRepository.js:131-137 | an upsert holds only old entries and the entity |
| Storage.UpsertKeepsUnique | infrastructure/repositories/LocalStorageRepository.js:131-137 | with unique ids, an upsert keeps them unique |
| Containers.Resolved | core/Container.js:22-40 | the factory is called exactly when the name has one and no cached instance applies, and its product is then the result; without a call the maps stay as they were; the only error is the not-registered one; factories and singleton flags never change |
| Containers.Container.constructor | core/Container.js:2-6 | the three maps start empty |
| Containers.Container.RegisterInstance | core/Container.js:8-10 | stores the instance under the name |
| Containers.Container.RegisterSingleton | core/Container.js:12-15 | stores the factory and marks the name as cached |
| Containers.Container.RegisterFactory | core/Container.js:17-20 | stores the factory and marks the name as not cached |
| Containers.Container.Resolve | core/Container.js:22-40 | the maps, the result and the factory call (with the container followed by the forwarded args) are those of `Resolved` |
| Containers.UnknownNameFails | core/Container.js:24-31 | a name with neither an instance nor a factory throws and changes nothing |
| Containers.InstanceResolves | core/Container.js:8-26 | a name registered only as an instance resolves to it without a factory call |
| Containers.SingletonOnce | core/Container.js:12-37 | a singleton's factory runs on the first resolve only; the second resolve returns the first result and calls nothing |
| Containers.SingletonCalledAtMostOnce | core/Container.js:12-37 | over any number of resolves, a singleton's factory is called at most once: once when nothing was cached, never when something was |
| Containers.FactoryEveryTime | core/Container.js:17-35 | a factory name calls its factory on every resolve and caches nothing, even over an earlier instance |
| Containers.SingletonKeepsCache | core/Container.js:12-26 | re-registering a singleton over a cached instance keeps that instance |
| Listeners.OnMap | core/EventBus.js:26-34 | the callback is appended at the end of its event's list, which is created when missing; duplicates are kept; other lists stay |
| Listeners.OffMap | core/EventBus.js:36-44 | an unknown event changes nothing; otherwise the first occurrence leaves its list, the list stays in the map, and other lists stay |
| Listeners.Deliveries | core/EventBus.js:46-57 | one call per listener of the snapshot, in order, each with the event's data |
| Listeners.React | core/EventBus.js:26-44 | one listener call never drops an event's list, and adds a list only for the event it subscribes to |
| Listeners.Reacted | core/EventBus.js:50-56 | after a round no event has lost its list, and every new list belongs to an event some listener of the snapshot subscribed to |
| Listeners.OnThenOff | core/EventBus.js:26-44 | subscribing a callback not yet in the list and then calling the returned unsubscribe leaves the list as it was (an empty list remains for a new event) |
| Listeners.OffRemovesOne | core/EventBus.js:36-44 | with duplicates, `off` removes one occurrence at a time |
| Listeners.DeliveriesCount | core/EventBus.js:49-56 | a round calls each listener as often as it is in the snapshot |
| Listeners.ReactedKeepsOthers | core/EventBus.js:46-57 | listener reactions change only the lists they name |
| Events.EventBus.constructor | core/EventBus.js:5-12 | a new bus has no listeners |
| Events.EventBus.On | core/EventBus.js:26-34 | the listener map becomes `OnMap` of the old one |
| Events.EventBus.Off | core/EventBus.js:36-44 | the listener map becomes `OffMap` of the old one |
| Events.EventBus.Emit | core/EventBus.js:46-57 | an event nobody subscribed to is a no-op; otherwise every listener of the list as it was before the first call is called in order, whatever the earlier ones did (a thrown error included), and their subscribe/unsubscribe reactions apply to the map afterwards |
| Events.EventBus.ClearAll | core/EventBus.js:59-61 | every list is removed |
| Events.BusSlot.constructor | core/EventBus.js:1-3 | the slot starts empty |
| Events.BusSlot.NewBus | core/EventBus.js:5-12 | construction throws while an instance exists; otherwise a fresh empty bus fills the slot |
| Events.BusSlot.GetInstance | core/EventBus.js:14-16 | the existing instance, or a new one that fills the slot |
| Events.BusSlot.ResetInstance | core/EventBus.js:18-24 | the instance's lists are cleared and the slot emptied, so that a new bus can be built |
| Events.BusSlot.Destroy | core/EventBus.js:63-66 | the bus's lists are cleared and the slot emptied |
| Models.Round | core/BaseModel.js:43-51 | one call per observer, in order, each with the new and the previous state |
| Models.Merge | core/BaseModel.js:16-18 | the keys of both, with the partial state's values winning and other values kept |
| Models.BaseModel.constructor | core/BaseModel.js:5-10 | the state is the initial state, with no observers |
| Models.BaseModel.SetState | core/BaseModel.js:16-22 | the state becomes the merge; every observer is notified once, in order, with the new and previous state; the change event is emitted only with a bus |
| Models.BaseModel.ResetState | core/BaseModel.js:24-30 | the state is replaced as a whole, then observers and the bus are notified as by `setState` |
| Models.BaseModel.Subscribe | core/BaseModel.js:32-41 | the observer is appended |
| Models.BaseModel.Unsubscribe | core/BaseModel.js:35-40 | the observer's first occurrence is dropped, if any |
| Models.BaseModel.NotifyObservers | core/BaseModel.js:43-51 | each observer is called once in order, a throwing one not stopping the rest |
| Models.BaseModel.EmitChange | core/BaseModel.js:53-61 | `<modelName>:change` with the new and previous state is emitted exactly when there is a bus |
| Models.BaseModel.ClearObservers | core/BaseModel.js:63-65 | the observer list is emptied |
| Models.SubscribeThenUnsubscribe | core/BaseModel.js:32-41 | an observer subscribed once and then unsubscribed leaves the list as it was |
| Models.UnsubscribeTwice | core/BaseModel.js:35-40 | for an observer subscribed at most once, one unsubscribe removes it and a second is a no-op |
| Models.UnsubscribeRemovesOne | core/BaseModel.js:35-40 | with duplicates, each unsubscribe removes one occurrence |
| Models.RoundCounts | core/BaseModel.js:43-51 | a round notifies each observer as often as it is subscribed |
| Models.MergeTwice | core/BaseModel.js:16-18 | two `setState` calls merge as one, the later keys winning |
| Controllers.OffAll | core/BaseController.js:82-84 | calling the unsubscribers keeps the event names of the listener map |
| Controllers.BaseController.constructor | core/BaseController.js:4-10 | no unsubscribers, not initialised |
| Controllers.BaseController.Init | core/BaseController.js:20-31 | a second call does nothing; otherwise: subscribe to the model if any, set up the view callbacks, render the state if there is both a model and a view, raise the flag, call `onInit`, in that order; the model's state, notifications and change events are untouched |
| Controllers.BaseController.SubscribeToModel | core/BaseController.js:37-44 | with a model, its observer is subscribed and its unsubscribe recorded; without one nothing happens |
| Controllers.BaseController.InitialRender | core/BaseController.js:59-63 | the view is updated with the model's state only when both exist |
| Controllers.BaseController.SubscribeToEvent | core/BaseController.js:65-72 | without a bus nothing happens; otherwise the bound handler is subscribed and its unsubscribe recorded |
| Controllers.BaseController.EmitEvent | core/BaseController.js:74-79 | emits on the bus as the bus's `emit` does; without a bus nothing happens |
| Controllers.BaseController.Destroy | core/BaseController.js:81-96 | calls `onDestroy`, every unsubscriber once in order and empties the list, destroys the view if any, clears the model's observers if any, and lowers the flag; the model's state, notifications and change events are untouched |
| Controllers.BaseController.CallUnsubscribers | core/BaseController.js:82-84 | the bus's listener map becomes `OffAll` of the recorded unsubscribers; the model's state is untouched |
| Controllers.OneListenerUndone | core/BaseController.js:65-84 | the only listener subscribed to an event, once unsubscribed, leaves that event's list empty and every other list alone |
| Controllers.ModelUnsubscribersSkipBus | core/BaseController.js:82-84 | model unsubscribers leave the bus's listener map alone |
| ErrorHandling.Normalize | core/ErrorHandler.js:87-89 | an `Error` is kept; any other value becomes an `Error` whose message is `String(value)` |
| ErrorHandling.ErrorInfo | core/ErrorHandler.js:91-97 | the record has `message`, `stack`, `name`, `timestamp` and the context's keys; a context field overrides the default of the same name |
| ErrorHandling.Calls | core/ErrorHandler.js:119-128 | one call per handler, in order, each with the record |
| ErrorHandling.ErrorHandler.Create | core/ErrorHandler.js:6-17 | construction throws without a bus; otherwise the lists are empty and the handler not initialised |
| ErrorHandling.ErrorHandler.constructor | core/ErrorHandler.js:6-17 | empty lists, not initialised |
| ErrorHandling.ErrorHandler.Init | core/ErrorHandler.js:19-26 | raises the flag; a second call changes nothing |
| ErrorHandling.ErrorHandler.Register | core/ErrorHandler.js:67-76 | a function is appended to both lists, its unsubscribe being `unregister` of it; any other value throws and changes nothing |
| ErrorHandling.ErrorHandler.Unregister | core/ErrorHandler.js:78-83 | the handler's first occurrence is removed, if any |
| ErrorHandling.ErrorHandler.Handle | core/ErrorHandler.js:85-104 | every handler is called once with the record, in order, then the record is emitted as `app:error` |
| ErrorHandling.ErrorHandler.NotifyHandlers | core/ErrorHandler.js:119-128 | each handler is called once in turn, a throwing one not stopping the rest |
| ErrorHandling.ErrorHandler.Destroy | core/ErrorHandler.js:138-160 | before `init` nothing changes; afterwards both lists are empty and the flag is down |
| ErrorHandling.ErrorHandler.CallUnsubscribers | core/ErrorHandler.js:153-155 | calling every recorded unsubscribe in order unregisters the recorded handlers in turn |
| ErrorHandling.RegisterThenUnregister | core/ErrorHandler.js:67-83 | unregistering a handler registered once restores the list, and a second unregister is a no-op |
| ErrorHandling.UnsubscribesUndoRegisters | core/ErrorHandler.js:138-160 | the recorded unsubscribes, called in registration order, remove exactly what `register` added |
| ErrorHandling.ContextOverrides | core/ErrorHandler.js:91-97 | any context field replaces the record's default of the same name |
| ErrorHandling.CallsCount | core/ErrorHandler.js:119-128 | a handler registered twice is called twice in a round |

## Left out

- Browser plumbing is not part of this model: `window.addEventListener`/`removeEventListener`, the real `window.location.hash`, `document.querySelector`, the views and the not-found HTML renderers. The hash is a string field, the root element lookup is an option value carrying what the query found, and rendering is a logged call.
- The `async`/`await` in `_handleRouteChange` and `_transitionTo` is two explicit steps, `HandleRouteChange` and `Resume`, and not concurrency. Interleavings are modelled by calling them in any order (see `SupersededNavigation`).
- `withTimeout`, `setTimeout` and `clearTimeout` are left out: a timeout is one kind of middleware reply, reported as the timeout error with the delay in its message.
- `URLSearchParams` percent-encoding and `+`-as-space are left out: queries split on `&` and `=` only, and `navigate` joins `name=value` pieces with `&`.
- Route patterns containing a backslash are excluded by the `requires` of `Router.Register` and `Router.RegisterAll`. Only for those could the wildcard and named-segment rewrites fire, so named capture groups never arise and matched params are always `{}`.
- JSON serialisation in the repository is the identity. The storage probe of `_resolveStorageAdapter` and the constructor's option parsing are left out: the constructor takes the resolved store and fallback flag. Storage faults are fixed flags of a store, so each failure mode persists.
- `generateId`, `Date.now`, `Math.random` and `new Date().toISOString()` are parameters (`freshId`, `now`, `timestamp`).
- JavaScript numbers are unbounded integers, and a step is a real floored by the validation. NaN, infinities and non-integer values are left out.
- `ErrorHandler._setupGlobalHandlers`, the window error listeners, and the listener removal in `destroy` are left out; all `console` logging is left out too.
- ErrorHandling.ErrorHandler.Handle: `_logError` is left out, and with it the `TypeError` that `errorInfo.stack.split` throws when the record's `stack` (from the error or from `context`) is truthy but not a string. The source throws before any handler runs, while the contract says every handler is called.
- Reentrancy is left out: an observer or error handler that subscribes or unsubscribes while `_notifyObservers` or `_notifyHandlers` iterates the live array. The event bus's snapshot behaviour is modelled, with listener reactions as a parameter of `emit`.
- What observers, view callbacks, controller hooks (`onInit`, `onDestroy`, `onModelChange`) and error handlers do when called is left out; the model records that they are called, in order.
- `setFilter` with the `isValid` function passed as the filter is accepted by the source (`TodoFilter.FunctionItselfAccepted`), but `TodoModel.SetFilter` takes a primitive value only.
- The `try`/`catch` around the `emit` calls of `_handleTransitionError` and `_emitMiddlewareError` never fires in the model, because the bus catches every listener error. The error record passed to the error handler omits the `type` and `timestamp` fields.
- Routing.Router.HandleTransitionError and Routing.Router.ApplyEffects: the `app:error` events they publish carry the message, route and params only. The source adds the error's `stack` and a `new Date().toISOString()` timestamp; neither is part of the model's event.
- Services.TodoService.constructor: the service is built only over a repository whose stored forms all pass `Todo.fromJSON`, and every method keeps that invariant, because each form it writes is the `toJSON` of a constructed todo. Data placed in the storage key by anything else is not modelled.
- Services.TodoService.GetAllTodosAsEntities: because of that invariant, the `TodoError` that `Todo.fromJSON` throws for a stored form it rejects is left out. The same holds for `getTodoByIdAsEntity`, `toggleTodo`, `editTodo` and `toggleAll`.
- Routing.Router.Enter: a `destroy()` of the old controller that throws is left out. The source then keeps `_currentController` set and goes to the transition catch.
- Routing.Router.HandleNotFound: a custom not-found handler that throws is left out. The source then leaves `_handleRouteChange` with the pending token still set and no not-found event.
- Routing.EncodeQuery: the query parameters are a list of pairs, in the order given. A JavaScript object puts integer-like keys first and holds each key once; the model keeps neither rule.
- The Router constructor's `TypeError` when called without an options object is left out: options are always a record.
- The comment at core/router/RouteMatchers.js:14 promises named segments and a `.*` wildcard. The model follows the code, which escapes neither `*` nor `:`, so `/todos/:id` matches only itself and a `*` repeats the character before it.
- The controllers, `app/routes.js`, `main.js`, `core/index.js`, `core/repositories/Repository.js` and `core/BaseView.js` are not part of this model. The enum files are used as constants.
- Routing.RouterSlot.Destroy: states the router's teardown through the fields it names (cleanup, controller, route, token, lifecycle, table, flag) rather than every field of the router.
- Storage.Repository.Save and Storage.Repository.Delete: on a store that fails to write, the contracts say only that the stored list is the old one, the updated one, or empty after a switch, rather than which one.
- Storage.Repository.constructor: the `Error` the source throws for a falsy `storageKey` is left out; a `Store` holds the contents under the repository's one key, and the key itself is not modelled.
- Containers.Container.Resolve: the factory's outcome is the parameter `produced`, so a factory that throws is left out. In the source the exception leaves `resolve` before the singleton cache is written, and the next `resolve` calls the factory again.
- Services.TodoService.ToggleAll and TodoModels.TodoModel.ToggleAll: `completed` is a `bool`. The source accepts any value and reads it by truthiness (`completed ? todo.complete() : todo.uncomplete()`), so passing any other value means passing its truthiness.
- RouteMatchers.Compile: a character is one code point. The source's `RegExp` has no `u` flag and reads a character outside the Basic Multilingual Plane as two UTF-16 code units, so a `*` after such a character repeats only its low surrogate; the model repeats the whole character.

## Findings

| source | as written | input that shows it | evidently intended | confidence | as-written member | corrected member |
|---|---|---|---|---|---|---|
| app/models/TodoModel.js:75 | after `TodoService.editTodo` returns a falsy result for a blank text, the model calls `removeTodo(id)` and only filters its list when that delete reports `true` | a stored todo with id `a`, edited to the text `"  "`: the service already deleted `a` (app/services/TodoService.js:57-60), so the second delete returns `false` (infrastructure/repositories/LocalStorageRepository.js:157-159) and the model's `todos` still holds `a` | the model's list drops the entry the store no longer holds | not executed | TodoModels.TodoModel.EditTodo, TodoModels.BlankEditLeavesStaleEntry | TodoModels.TodoModel.EditTodoCorrected, TodoModels.CorrectedEditMirrorsStore |
