/** How a route's configuration is turned into a model, a view and a
    controller. The collaborators (the container, the model, view and
    controller classes) are outside the model; what is decided here is which
    of them is consulted and with which arguments, written as a plan. */
module Factory {
  import opened Js

  /** The `model` field of a route configuration. A falsy value (absent,
      `null`, `false`, `0`) is `Falsy`; the empty string is falsy too and is
      written `Named("")`. A function is told apart by whether it has a
      prototype (a class or ordinary function) or not (an arrow function). */
  datatype ModelSlot =
    | Falsy
    | Named(key: string)
    | Func(fn: nat, hasPrototype: bool)
    | Given(obj: nat)

  /** What `createModel` does: nothing, a container lookup, a `new` call, a
      plain call, or returning the configured object itself. */
  datatype ModelPlan =
    | NoModel
    | Resolve(key: string, state: Pairs)
    | Construct(fn: nat, rawState: Option<Pairs>, params: map<string, string>)
    | Call(fn: nat, state: Pairs, params: map<string, string>)
    | Literal(obj: nat)

  /** `new View(rootElement)`. */
  datatype ViewPlan = ViewPlan(viewClass: nat, root: nat)

  /** The single options object handed to `new Controller(...)`. */
  datatype ControllerArgs = ControllerArgs(
    model: ModelPlan, view: ViewPlan, params: map<string, string>, router: nat, eventBus: nat)

  /** `modelState || {}`. */
  function StateOrEmpty(state: Option<Pairs>): Pairs
  {
    if state.Some? then state.value else []
  }

  /** `createModel` with `createModelFromFunction`. */
  function CreateModel(slot: ModelSlot, state: Option<Pairs>, params: map<string, string>): (plan: ModelPlan)
    ensures plan.NoModel? <==> slot.Falsy? || slot == Named("")
    ensures slot.Named? && slot.key != "" ==> plan == Resolve(slot.key, StateOrEmpty(state))
    ensures slot.Func? && slot.hasPrototype ==> plan == Construct(slot.fn, state, params)
    ensures slot.Func? && !slot.hasPrototype ==> plan == Call(slot.fn, StateOrEmpty(state), params)
    ensures slot.Given? ==> plan == Literal(slot.obj)
  {
    match slot
    case Falsy => NoModel
    case Named(key) => if key == "" then NoModel else Resolve(key, StateOrEmpty(state))
    case Func(fn, hasPrototype) =>
      if hasPrototype then Construct(fn, state, params) else Call(fn, StateOrEmpty(state), params)
    case Given(obj) => Literal(obj)
  }

  /** `createView`. */
  function CreateView(viewClass: nat, root: nat): (v: ViewPlan)
    ensures v.viewClass == viewClass && v.root == root
  {
    ViewPlan(viewClass, root)
  }

  /** `createController`. */
  function CreateController(model: ModelPlan, view: ViewPlan, params: map<string, string>, router: nat, eventBus: nat): (args: ControllerArgs)
    ensures args.model == model && args.view == view && args.params == params
    ensures args.router == router && args.eventBus == eventBus
  {
    ControllerArgs(model, view, params, router, eventBus)
  }

  /** With no model state, a container lookup and a plain call receive `{}`,
      while a `new` call receives the missing value itself. */
  lemma MissingStateDefaults(slot: ModelSlot, params: map<string, string>)
    ensures CreateModel(slot, None, params).Resolve? ==> CreateModel(slot, None, params).state == []
    ensures CreateModel(slot, None, params).Call? ==> CreateModel(slot, None, params).state == []
    ensures CreateModel(slot, None, params).Construct? ==> CreateModel(slot, None, params).rawState == None
  {
  }

  /** Route params reach the model only through a function slot. */
  lemma ParamsOnlyToFunctions(slot: ModelSlot, state: Option<Pairs>, p1: map<string, string>, p2: map<string, string>)
    requires !slot.Func?
    ensures CreateModel(slot, state, p1) == CreateModel(slot, state, p2)
  {
  }
}
