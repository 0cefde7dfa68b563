/** The counter model: a base model named `counter` whose state is always
    the counter's JSON form plus its two bound flags. Operations replace the
    immutable counter and then set the whole state again; an invalid step is
    reported on the bus as `counter:stepError`. */
module CounterModels {
  import opened Js
  import C = CounterEntity
  import opened Models

  const ModelName := "counter"
  const CounterStepError := "counter:stepError"
  /** What `this._eventBus.emit` throws when the model has no bus. */
  const NoBusError := "Cannot read properties of null (reading 'emit')"

  /** The `initialState` object; a missing key takes the counter's default. */
  datatype Init = Init(value: Option<int>, step: Option<C.StepArg>, min: Option<int>, max: Option<int>)

  /** One `emit(COUNTER_STEP_ERROR, { step, error })`. */
  datatype StepErrorEvent = StepErrorEvent(eventName: string, step: C.StepArg, error: string)

  function OrElse<T>(o: Option<T>, d: T): T
  {
    if o.Some? then o.value else d
  }

  /** `new Counter(initialState)` with the constructor's defaults. */
  function Construct(init: Init): (r: Result<C.Counter, string>)
    ensures r == C.Make(OrElse(init.value, 0), OrElse(init.step, C.Num(1.0)),
                        OrElse(init.min, C.ValueMin), OrElse(init.max, C.ValueMax))
  {
    C.Make(OrElse(init.value, 0), OrElse(init.step, C.Num(1.0)), OrElse(init.min, C.ValueMin), OrElse(init.max, C.ValueMax))
  }

  /** `toJSON()` with `isAtMin` and `isAtMax` added. */
  function StateOf(c: C.Counter): (st: map<string, Value>)
    ensures st.Keys == {"value", "step", "min", "max", "isAtMin", "isAtMax"}
  {
    var j := C.ToJson(c);
    map["value" := Number(j.value), "step" := Number(j.step), "min" := Number(j.min), "max" := Number(j.max),
        "isAtMin" := Bool(C.IsAtMin(c)), "isAtMax" := Bool(C.IsAtMax(c))]
  }

  class CounterModel {
    const base: BaseModel<Value>
    var counter: C.Counter
    /** Every step error emitted so far. */
    var stepErrors: seq<StepErrorEvent>

    predicate Valid()
      reads this, base
    {
      C.Valid(counter) && base.state == StateOf(counter) && base.modelName == ModelName
    }

    /** `new CounterModel({ eventBus, initialState })`, for an initial state
        the counter accepts; the counter's error propagates otherwise. */
    constructor(hasBus: bool, init: Init)
      requires Construct(init).Ok?
      ensures Valid() && fresh(base) && counter == Construct(init).value
      ensures base.hasBus == hasBus && base.observers == [] && stepErrors == []
    {
      counter := Construct(init).value;
      base := new BaseModel(StateOf(Construct(init).value), ModelName, hasBus);
      stepErrors := [];
    }

    /** `_syncState()`: the whole state set again from the counter. */
    method SyncState()
      requires C.Valid(counter) && base.state.Keys == StateOf(counter).Keys && base.modelName == ModelName
      modifies base
      ensures Valid() && base.observers == old(base.observers)
      ensures base.notified == old(base.notified) + Round(base.observers, StateOf(counter), old(base.state))
      ensures base.emitted == old(base.emitted) + base.ChangeEvents(StateOf(counter), old(base.state))
    {
      base.SetState(StateOf(counter));
      assert base.state == StateOf(counter);
    }

    method Increment()
      requires Valid()
      modifies this, base
      ensures Valid() && base.observers == old(base.observers) && stepErrors == old(stepErrors)
      ensures counter == C.Increment(old(counter))
      ensures base.notified == old(base.notified) + Round(base.observers, StateOf(counter), old(base.state))
      ensures base.emitted == old(base.emitted) + base.ChangeEvents(StateOf(counter), old(base.state))
    {
      counter := C.Increment(counter);
      SyncState();
    }

    method Decrement()
      requires Valid()
      modifies this, base
      ensures Valid() && base.observers == old(base.observers) && stepErrors == old(stepErrors)
      ensures counter == C.Decrement(old(counter))
      ensures base.notified == old(base.notified) + Round(base.observers, StateOf(counter), old(base.state))
      ensures base.emitted == old(base.emitted) + base.ChangeEvents(StateOf(counter), old(base.state))
    {
      counter := C.Decrement(counter);
      SyncState();
    }

    /** `reset(value = 0)`: rebuilding around an integer never throws, so the
        `catch` is never taken. */
    method Reset(value: int := 0)
      requires Valid()
      modifies this, base
      ensures Valid() && base.observers == old(base.observers) && stepErrors == old(stepErrors)
      ensures counter == C.Reset(old(counter), value)
      ensures base.notified == old(base.notified) + Round(base.observers, StateOf(counter), old(base.state))
      ensures base.emitted == old(base.emitted) + base.ChangeEvents(StateOf(counter), old(base.state))
    {
      counter := C.Reset(counter, value);
      SyncState();
    }

    /** `setStep(step)`: a valid step replaces the counter; an invalid one
        leaves counter and state alone and is emitted with its message,
        which throws when there is no bus. */
    method SetStep(step: C.StepArg) returns (r: Result<(), string>)
      requires Valid()
      modifies this, base
      ensures Valid() && base.observers == old(base.observers)
      ensures C.WithStep(old(counter), step).Ok? ==>
                r.Ok? && counter == C.WithStep(old(counter), step).value && stepErrors == old(stepErrors) &&
                base.notified == old(base.notified) + Round(base.observers, StateOf(counter), old(base.state)) &&
                base.emitted == old(base.emitted) + base.ChangeEvents(StateOf(counter), old(base.state))
      ensures C.WithStep(old(counter), step).Err? ==>
                counter == old(counter) && base.state == old(base.state) && base.notified == old(base.notified) &&
                base.emitted == old(base.emitted) &&
                (base.hasBus ==> r.Ok? && stepErrors == old(stepErrors) + [StepErrorEvent(CounterStepError, step, C.WithStep(old(counter), step).error)]) &&
                (!base.hasBus ==> r == Err(NoBusError) && stepErrors == old(stepErrors))
    {
      var next := C.WithStep(counter, step);
      if next.Ok? {
        counter := next.value;
        SyncState();
        return Ok(());
      }
      if !base.hasBus {
        return Err(NoBusError);
      }
      stepErrors := stepErrors + [StepErrorEvent(CounterStepError, step, next.error)];
      return Ok(());
    }

    /** The `value` getter, which the state's `value` agrees with. */
    function Value(): (v: int)
      reads this, base
      requires Valid()
      ensures base.state["value"] == Number(v)
    {
      counter.value
    }
  }

  // Properties.

  /** The state determines the counter. */
  lemma StateDeterminesCounter(c: C.Counter, d: C.Counter)
    requires StateOf(c) == StateOf(d)
    ensures c == d
  {
    assert StateOf(c)["value"] == StateOf(d)["value"] && StateOf(c)["step"] == StateOf(d)["step"];
    assert StateOf(c)["min"] == StateOf(d)["min"] && StateOf(c)["max"] == StateOf(d)["max"];
    C.ToJsonInjective(c, d);
  }

  /** The flags in the state say whether the value sits on a bound. */
  lemma StateFlags(c: C.Counter)
    requires C.Valid(c) && c.min <= c.max
    ensures StateOf(c)["isAtMin"] == Bool(c.value == c.min)
    ensures StateOf(c)["isAtMax"] == Bool(c.value == c.max)
  {
  }

  /** With no initial state the model starts at zero with step one. */
  lemma DefaultInit()
    ensures Construct(Init(None, None, None, None)) == Ok(C.Default())
  {
    assert C.ValidateStep(C.Num(1.0)) == Ok(1);
  }

  /** A step between the limits is taken floored and `undefined` is taken as
      1; any other is refused without touching the value. */
  lemma SetStepOutcome(c: C.Counter, step: C.StepArg)
    requires C.Valid(c)
    ensures C.WithStep(c, step).Ok? <==>
              step.Absent? || (step.Num? && C.StepMin as real <= step.x <= C.StepMax as real)
    ensures step.Absent? ==> C.WithStep(c, step) == Ok(c.(step := 1))
    ensures C.WithStep(c, step).Ok? && step.Num? ==>
              C.WithStep(c, step).value == c.(step := step.x.Floor)
  {
    if C.WithStep(c, step).Ok? {
      C.WithStepKeepsValue(c, step);
    }
  }
}
