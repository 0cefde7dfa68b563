/** The guard pipeline a route runs before its transition: an ordered list of
    middleware, each of which may let the navigation continue, block it, or
    redirect it elsewhere. A middleware's own behaviour is not modelled; what it
    does when invoked (returns a value, throws, or outlasts the timeout) is part
    of its entry. */
module MiddlewarePipeline {
  import opened Js

  /** The timeout applied when the caller passes none, in milliseconds. */
  const DefaultTimeoutMs: nat := 5000

  /** What a middleware may return: a primitive, or an object whose
      `redirect`, `params`, `block` and `reason` properties are read (an absent
      property is `Undefined`; falsy `params` is `None`). */
  datatype GuardValue =
    | Primitive(v: Value)
    | Object(redirect: Value, params: Option<Pairs>, block: Value, reason: Value)

  /** What happens when a middleware is invoked. */
  datatype Reply = Returned(value: GuardValue) | Threw(error: Value) | TimedOut

  /** An element of the middleware list: something that is not a function, or
      a function together with its reply. */
  datatype Entry = NotAFunction | Function(reply: Reply)

  datatype Kind = Continue | Block | Redirect

  /** The pipeline's answer: `{ok: true}`, `{ok: false, redirected: true}`,
      `{ok: false, reason}` or `{ok: false}`. */
  datatype Outcome = Passed | Redirected | Blocked(reason: Value) | Failed

  /** The error handed to `emitError`: the middleware's own exception, or the
      timeout error raised after `ms` milliseconds. */
  datatype Failure = Thrown(error: Value) | Timeout(ms: nat)

  /** A call made on one of the caller's callbacks. */
  datatype Effect<Ctx> = Navigated(target: Value, params: Pairs) | ErrorEmitted(failure: Failure, context: Ctx)

  /** A whole run: the outcome, the callbacks in the order they were called,
      and the positions of the middleware invoked. */
  datatype Run<Ctx> = Run(outcome: Outcome, effects: seq<Effect<Ctx>>, invoked: seq<nat>)

  /** `classifyResult`. */
  function Classify(g: GuardValue): (k: Kind)
    ensures k == Redirect <==> g.Object? && Truthy(g.redirect)
    ensures k == Block <==> g == Primitive(Bool(false)) || (g.Object? && !Truthy(g.redirect) && Truthy(g.block))
  {
    match g
    case Primitive(v) => if v == Bool(false) then Block else Continue
    case Object(redirect, _, block, _) =>
      if Truthy(redirect) then Redirect else if Truthy(block) then Block else Continue
  }

  /** Whether invoking this entry ends the run. */
  predicate Stops(e: Entry)
  {
    e.Function? && (e.reply.Returned? ==> Classify(e.reply.value) != Continue)
  }

  /** `result.params || {}`. */
  function RedirectParams(g: GuardValue): Pairs
  {
    if g.Object? && g.params.Some? then g.params.value else []
  }

  /** `result?.reason`: a primitive has no `reason`. */
  function ReasonOf(g: GuardValue): Value
  {
    if g.Object? then g.reason else Undefined
  }

  /** What a stopping entry makes the run end with. */
  function StopRun<Ctx>(e: Entry, context: Ctx, timeoutMs: nat, i: nat): Run<Ctx>
    requires Stops(e)
  {
    match e.reply
    case Threw(err) => Run(Failed, [ErrorEmitted(Thrown(err), context)], [i])
    case TimedOut => Run(Failed, [ErrorEmitted(Timeout(timeoutMs), context)], [i])
    case Returned(g) =>
      if Classify(g) == Redirect then Run(Redirected, [Navigated(g.redirect, RedirectParams(g))], [i])
      else Run(Blocked(ReasonOf(g)), [], [i])
  }

  /** The run of the list from position `i` on, as a specification. */
  function RunFrom<Ctx>(list: seq<Entry>, context: Ctx, timeoutMs: nat, i: nat): Run<Ctx>
    decreases |list| - i
  {
    if i >= |list| then Run(Passed, [], [])
    else if list[i].NotAFunction? then RunFrom(list, context, timeoutMs, i + 1)
    else if Stops(list[i]) then StopRun(list[i], context, timeoutMs, i)
    else
      var rest := RunFrom(list, context, timeoutMs, i + 1);
      Run(rest.outcome, rest.effects, [i] + rest.invoked)
  }

  /** The positions in [lo, hi) that hold functions, in order. */
  function FunctionsIn(list: seq<Entry>, lo: nat, hi: nat): seq<nat>
    requires lo <= hi <= |list|
    decreases hi - lo
  {
    if lo == hi then []
    else if list[lo].Function? then [lo] + FunctionsIn(list, lo + 1, hi)
    else FunctionsIn(list, lo + 1, hi)
  }

  /** `runMiddleware`: the loop with its early returns. Each middleware is
      given a copy of the context, so the context it reports to `emitError` is
      the one the caller passed. */
  method RunMiddleware<Ctx>(list: seq<Entry>, context: Ctx, timeoutMs: nat)
    returns (outcome: Outcome, effects: seq<Effect<Ctx>>, invoked: seq<nat>)
    ensures Run(outcome, effects, invoked) == RunFrom(list, context, timeoutMs, 0)
  {
    invoked := [];
    ghost var spec := RunFrom(list, context, timeoutMs, 0);
    var i := 0;
    while i < |list|
      invariant 0 <= i <= |list|
      invariant var r := RunFrom(list, context, timeoutMs, i);
                spec == Run(r.outcome, r.effects, invoked + r.invoked)
    {
      var entry := list[i];
      ghost var here := RunFrom(list, context, timeoutMs, i);
      if entry.NotAFunction? {
        assert here == RunFrom(list, context, timeoutMs, i + 1);
        i := i + 1;
        continue;
      }
      ghost var before := invoked;
      invoked := invoked + [i];
      match entry.reply {
        case Threw(err) =>
          assert here == StopRun(entry, context, timeoutMs, i);
          return Failed, [ErrorEmitted(Thrown(err), context)], invoked;
        case TimedOut =>
          assert here == StopRun(entry, context, timeoutMs, i);
          return Failed, [ErrorEmitted(Timeout(timeoutMs), context)], invoked;
        case Returned(g) =>
          var kind := Classify(g);
          if kind == Continue {
            ghost var rest := RunFrom(list, context, timeoutMs, i + 1);
            assert here == Run(rest.outcome, rest.effects, [i] + rest.invoked);
            assert before + ([i] + rest.invoked) == invoked + rest.invoked;
            i := i + 1;
            continue;
          }
          assert here == StopRun(entry, context, timeoutMs, i);
          if kind == Redirect {
            return Redirected, [Navigated(g.redirect, RedirectParams(g))], invoked;
          }
          return Blocked(ReasonOf(g)), [], invoked;
      }
    }
    assert RunFrom(list, context, timeoutMs, i) == Run(Passed, [], []);
    assert invoked + [] == invoked;
    return Passed, [], invoked;
  }

  // Classification.

  /** Strict `false` blocks; every other primitive (null, true, 0, a string)
      continues. */
  lemma PrimitiveClassification(v: Value)
    ensures Classify(Primitive(v)) == Block <==> v == Bool(false)
    ensures Classify(Primitive(v)) != Redirect
  {
  }

  /** A truthy `redirect` wins over a truthy `block`; a falsy `block` with no
      redirect continues. */
  lemma ObjectClassification(redirect: Value, params: Option<Pairs>, block: Value, reason: Value)
    ensures Truthy(redirect) ==> Classify(Object(redirect, params, block, reason)) == Redirect
    ensures !Truthy(redirect) ==> (Classify(Object(redirect, params, block, reason)) == Block <==> Truthy(block))
  {
  }

  // Properties of a run.

  /** The run passes exactly when no entry stops it; it then calls neither
      callback and has invoked every function in the list. */
  lemma {:induction false} PassedIffNoStop<Ctx>(list: seq<Entry>, context: Ctx, timeoutMs: nat, i: nat)
    requires i <= |list|
    ensures RunFrom(list, context, timeoutMs, i).outcome == Passed <==> forall k :: i <= k < |list| ==> !Stops(list[k])
    ensures RunFrom(list, context, timeoutMs, i).outcome == Passed ==>
              RunFrom(list, context, timeoutMs, i).effects == [] &&
              RunFrom(list, context, timeoutMs, i).invoked == FunctionsIn(list, i, |list|)
    decreases |list| - i
  {
    if i < |list| {
      PassedIffNoStop(list, context, timeoutMs, i + 1);
    }
  }

  /** The first entry that stops the run decides it: the outcome and the
      callbacks are that entry's, and exactly the functions up to it were
      invoked, so nothing after it is. */
  lemma {:induction false} FirstStopDecides<Ctx>(list: seq<Entry>, context: Ctx, timeoutMs: nat, i: nat, k: nat)
    requires i <= k < |list| && Stops(list[k])
    requires forall j :: i <= j < k ==> !Stops(list[j])
    ensures RunFrom(list, context, timeoutMs, i).outcome == StopRun(list[k], context, timeoutMs, k).outcome
    ensures RunFrom(list, context, timeoutMs, i).effects == StopRun(list[k], context, timeoutMs, k).effects
    ensures RunFrom(list, context, timeoutMs, i).invoked == FunctionsIn(list, i, k + 1)
    decreases k - i
  {
    if i < k {
      FirstStopDecides(list, context, timeoutMs, i + 1, k);
    } else {
      assert FunctionsIn(list, k + 1, k + 1) == [];
    }
  }

  /** Only functions are invoked; a list of non-functions does nothing. */
  lemma {:induction false} OnlyFunctionsInvoked<Ctx>(list: seq<Entry>, context: Ctx, timeoutMs: nat, i: nat)
    ensures forall j :: 0 <= j < |RunFrom(list, context, timeoutMs, i).invoked| ==>
              i <= RunFrom(list, context, timeoutMs, i).invoked[j] < |list| &&
              list[RunFrom(list, context, timeoutMs, i).invoked[j]].Function?
    decreases |list| - i
  {
    if i < |list| {
      OnlyFunctionsInvoked(list, context, timeoutMs, i + 1);
    }
  }

  /** Each outcome comes with its callbacks: a redirect calls `navigate` once
      with the redirect target and its params, a failure calls `emitError` once
      with the caller's context, and passing or blocking calls neither. */
  lemma {:induction false} EffectsOfOutcome<Ctx>(list: seq<Entry>, context: Ctx, timeoutMs: nat, i: nat)
    ensures var r := RunFrom(list, context, timeoutMs, i);
      (r.outcome.Passed? || r.outcome.Blocked? ==> r.effects == []) &&
      (r.outcome.Redirected? ==>
         |r.effects| == 1 && r.effects[0].Navigated? &&
         exists k :: i <= k < |list| && list[k].Function? && list[k].reply.Returned? &&
                     Classify(list[k].reply.value) == Redirect &&
                     r.effects[0] == Navigated(list[k].reply.value.redirect, RedirectParams(list[k].reply.value))) &&
      (r.outcome.Failed? ==> |r.effects| == 1 && r.effects[0].ErrorEmitted? && r.effects[0].context == context)
    decreases |list| - i
  {
    if i < |list| && !Stops(list[i]) {
      EffectsOfOutcome(list, context, timeoutMs, i + 1);
    }
  }

  /** A blocking object reports its `reason`; a blocking `false` reports none. */
  lemma BlockReason<Ctx>(g: GuardValue, context: Ctx, timeoutMs: nat, i: nat)
    requires Classify(g) == Block
    ensures StopRun(Function(Returned(g)), context, timeoutMs, i).outcome ==
              Blocked(if g.Object? then g.reason else Undefined)
  {
  }

  /** An empty list passes. */
  lemma EmptyListPasses<Ctx>(context: Ctx, timeoutMs: nat)
    ensures RunFrom([], context, timeoutMs, 0) == Run(Passed, [], [])
  {
  }
}
