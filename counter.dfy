/** The counter value object: an integer value kept between a minimum and a
    maximum, moved by a validated step. Every operation returns a new counter. */
module CounterEntity {
  import opened Js

  const StepMin: int := 1
  const StepMax: int := 100
  /** `Number.MIN_SAFE_INTEGER` and `Number.MAX_SAFE_INTEGER`, the default bounds. */
  const ValueMin: int := -9007199254740991
  const ValueMax: int := 9007199254740991

  const InvalidStepType := "Step deve ser um número"
  const StepTooLow := "Step deve ser no mínimo 1"
  const StepTooHigh := "Step não pode ser maior que 100"

  /** A step as passed in: a number, `undefined`, or anything else (another
      non-number, or NaN). */
  datatype StepArg = Num(x: real) | Absent | NotANumber

  datatype Counter = Counter(value: int, step: int, min: int, max: int)

  /** `toJSON()`: the four fields, nothing else. */
  datatype CounterJson = CounterJson(value: int, step: int, min: int, max: int)

  /** `Math.max(min, Math.min(max, value))`. */
  function Clamp(min: int, max: int, v: int): (r: int)
    ensures min <= max ==> min <= r <= max
    ensures min <= max && min <= v <= max ==> r == v
    ensures min > max ==> r == min
  {
    var upper := if max < v then max else v;
    if min > upper then min else upper
  }

  /** The destructuring default `step = 1`, which replaces `undefined` only. */
  function Defaulted(arg: StepArg): (r: StepArg)
    ensures !r.Absent?
    ensures arg.Absent? ==> r == Num(1.0)
    ensures !arg.Absent? ==> r == arg
  {
    if arg.Absent? then Num(1.0) else arg
  }

  /** `_validateStep`: the type check, then the lower limit, then the upper
      limit; a valid step is floored. */
  function ValidateStep(arg: StepArg): (r: Result<int, string>)
    ensures !arg.Num? ==> r == Err(InvalidStepType)
    ensures arg.Num? && arg.x < StepMin as real ==> r == Err(StepTooLow)
    ensures arg.Num? && StepMin as real <= arg.x && arg.x > StepMax as real ==> r == Err(StepTooHigh)
    ensures r.Ok? <==> arg.Num? && StepMin as real <= arg.x <= StepMax as real
    ensures r.Ok? ==> StepMin <= r.value <= StepMax && r.value as real <= arg.x < r.value as real + 1.0
  {
    match arg
    case Absent => Err(InvalidStepType)
    case NotANumber => Err(InvalidStepType)
    case Num(x) =>
      if x < StepMin as real then Err(StepTooLow)
      else if x > StepMax as real then Err(StepTooHigh)
      else Ok(x.Floor)
  }

  /** What every constructed counter satisfies. */
  predicate Valid(c: Counter)
  {
    StepMin <= c.step <= StepMax && c.value == Clamp(c.min, c.max, c.value)
  }

  /** `new Counter({value, step, min, max})`: an `undefined` step takes the
      default 1 before it is validated. */
  function Make(value: int, step: StepArg, min: int, max: int): (r: Result<Counter, string>)
    ensures r.Ok? <==> ValidateStep(Defaulted(step)).Ok?
    ensures r.Err? ==> r.error == ValidateStep(Defaulted(step)).error
    ensures r.Ok? ==> Valid(r.value) && r.value.min == min && r.value.max == max &&
                      r.value.step == ValidateStep(Defaulted(step)).value && r.value.value == Clamp(min, max, value)
    ensures step.Absent? ==> r.Ok? && r.value.step == 1
  {
    var s := ValidateStep(Defaulted(step));
    if s.Err? then Err(s.error)
    else
      ClampIdempotent(min, max, value);
      Ok(Counter(Clamp(min, max, value), s.value, min, max))
  }

  /** `new Counter()`: value 0, step 1 and the widest bounds. */
  function Default(): (c: Counter)
    ensures Valid(c) && c == Counter(0, 1, ValueMin, ValueMax)
  {
    assert ValidateStep(Num(1.0)) == Ok(1);
    Make(0, Num(1.0), ValueMin, ValueMax).value
  }

  /** Rebuild a counter with the same step and bounds around a new value. */
  function WithValue(c: Counter, v: int): (r: Counter)
    requires Valid(c)
    ensures Make(v, Num(c.step as real), c.min, c.max) == Ok(r)
  {
    assert (c.step as real).Floor == c.step;
    Make(v, Num(c.step as real), c.min, c.max).value
  }

  /** `increment()`: the value moves up by the step, clamped; the step and
      the bounds are kept and the result is again a valid counter. */
  function Increment(c: Counter): (r: Counter)
    requires Valid(c)
    ensures Valid(r) && r == Counter(Clamp(c.min, c.max, c.value + c.step), c.step, c.min, c.max)
  {
    ClampIdempotent(c.min, c.max, c.value + c.step);
    WithValue(c, Clamp(c.min, c.max, c.value + c.step))
  }

  /** `decrement()`: the value moves down by the step, clamped. */
  function Decrement(c: Counter): (r: Counter)
    requires Valid(c)
    ensures Valid(r) && r == Counter(Clamp(c.min, c.max, c.value - c.step), c.step, c.min, c.max)
  {
    ClampIdempotent(c.min, c.max, c.value - c.step);
    WithValue(c, Clamp(c.min, c.max, c.value - c.step))
  }

  /** `reset(newValue = 0)`: the clamped new value with the same step and
      bounds. */
  function Reset(c: Counter, v: int): (r: Counter)
    requires Valid(c)
    ensures Valid(r) && r == Counter(Clamp(c.min, c.max, v), c.step, c.min, c.max)
  {
    WithValue(c, v)
  }

  /** `withStep(newStep)`: revalidate the step around the same value; the
      bounds are kept and the value is clamped into them. */
  function WithStep(c: Counter, step: StepArg): (r: Result<Counter, string>)
    ensures r.Ok? <==> ValidateStep(Defaulted(step)).Ok?
    ensures r.Err? ==> r.error == ValidateStep(Defaulted(step)).error
    ensures r.Ok? ==> Valid(r.value) && r.value.min == c.min && r.value.max == c.max &&
                      r.value.step == ValidateStep(Defaulted(step)).value && r.value.value == Clamp(c.min, c.max, c.value)
  {
    Make(c.value, step, c.min, c.max)
  }

  /** `isAtMin()`; on a counter with ordered bounds it holds exactly at the
      minimum. */
  function IsAtMin(c: Counter): (b: bool)
    ensures Valid(c) && c.min <= c.max ==> (b <==> c.value == c.min)
  {
    c.value <= c.min
  }

  /** `isAtMax()`; on a counter with ordered bounds it holds exactly at the
      maximum. */
  function IsAtMax(c: Counter): (b: bool)
    ensures Valid(c) && c.min <= c.max ==> (b <==> c.value == c.max)
  {
    c.value >= c.max
  }

  function ToJson(c: Counter): (j: CounterJson)
    ensures j.value == c.value && j.step == c.step && j.min == c.min && j.max == c.max
  {
    CounterJson(c.value, c.step, c.min, c.max)
  }

  // Properties.

  lemma ClampIdempotent(min: int, max: int, v: int)
    ensures Clamp(min, max, Clamp(min, max, v)) == Clamp(min, max, v)
  {
  }

  /** A constructed counter's value lies within its bounds when they are
      ordered, and is the minimum when they are not. */
  lemma ValueInBounds(c: Counter)
    requires Valid(c)
    ensures c.min <= c.max ==> c.min <= c.value <= c.max
    ensures c.min > c.max ==> c.value == c.min
  {
  }

  /** With ordered bounds, an increment never lowers the value and a
      decrement never raises it; at the maximum an increment changes nothing. */
  lemma IncrementMonotone(c: Counter)
    requires Valid(c) && c.min <= c.max
    ensures Increment(c).value >= c.value && Decrement(c).value <= c.value
    ensures IsAtMax(c) ==> Increment(c) == c
    ensures IsAtMin(c) ==> Decrement(c) == c
    ensures !IsAtMax(c) ==> Increment(c).value > c.value
  {
  }

  /** `withStep` keeps the value and bounds of a constructed counter and
      rejects exactly the steps the validation rejects once the default has
      replaced `undefined`; `withStep(undefined)` sets the step to 1. */
  lemma WithStepKeepsValue(c: Counter, step: StepArg)
    requires Valid(c)
    ensures WithStep(c, step).Ok? <==> ValidateStep(Defaulted(step)).Ok?
    ensures WithStep(c, step).Ok? ==>
              WithStep(c, step).value == Counter(c.value, ValidateStep(Defaulted(step)).value, c.min, c.max)
    ensures step.Absent? ==> WithStep(c, step) == Ok(c.(step := 1))
  {
  }

  /** The JSON form determines the counter. */
  lemma ToJsonInjective(c: Counter, d: Counter)
    requires ToJson(c) == ToJson(d)
    ensures c == d
  {
  }
}
