/** The dependency container: instances by name, factories by name, and
    for each name whether its factory's result is cached. Instances and
    factories are known by identity; what a factory builds is a parameter of
    `resolve`, and each factory call is logged with the container it
    receives first and the arguments forwarded after it. */
module Containers {
  import opened Js

  type Instance = int
  type FactoryId = int

  /** The three maps of the container. */
  datatype Registry = Registry(services: map<string, Instance>, factories: map<string, FactoryId>, singletons: map<string, bool>)

  /** What one `resolve` does: the maps afterwards, the outcome, and the
      factory it called, if any. */
  datatype Resolution = Resolution(registry: Registry, result: Result<Instance, string>, called: Option<FactoryId>)

  function NotRegistered(name: string): string
  {
    "Container: Serviço \"" + name + "\" não registrado"
  }

  /** `this._singletons.get(name) !== false`: a name without an entry
      counts as cached. */
  predicate Caches(reg: Registry, name: string)
  {
    !(name in reg.singletons && !reg.singletons[name])
  }

  function WithInstance(reg: Registry, name: string, instance: Instance): Registry
  {
    reg.(services := reg.services[name := instance])
  }

  function WithSingleton(reg: Registry, name: string, factory: FactoryId): Registry
  {
    reg.(factories := reg.factories[name := factory], singletons := reg.singletons[name := true])
  }

  function WithFactory(reg: Registry, name: string, factory: FactoryId): Registry
  {
    reg.(factories := reg.factories[name := factory], singletons := reg.singletons[name := false])
  }

  /** `resolve(name, ...args)` when the factory would return `produced`: the
      cached instance if caching applies and one exists; otherwise an error
      without a factory; otherwise the factory's result, cached when
      caching applies. */
  function Resolved(reg: Registry, name: string, produced: Instance): (r: Resolution)
    ensures r.result.Ok? || r.result == Err(NotRegistered(name))
    ensures r.called.Some? <==> !(Caches(reg, name) && name in reg.services) && name in reg.factories
    ensures r.called.Some? ==> r.called.value == reg.factories[name] && r.result == Ok(produced)
    ensures r.called.None? ==> r.registry == reg
    ensures r.registry.factories == reg.factories && r.registry.singletons == reg.singletons
  {
    if Caches(reg, name) && name in reg.services then Resolution(reg, Ok(reg.services[name]), None)
    else if name !in reg.factories then Resolution(reg, Err(NotRegistered(name)), None)
    else if Caches(reg, name) then Resolution(reg.(services := reg.services[name := produced]), Ok(produced), Some(reg.factories[name]))
    else Resolution(reg, Ok(produced), Some(reg.factories[name]))
  }

  /** One call `factory(container, ...args)`. */
  datatype FactoryCall = FactoryCall(factory: FactoryId, container: Container, args: seq<Value>)

  class Container {
    var services: map<string, Instance>
    var factories: map<string, FactoryId>
    var singletons: map<string, bool>
    /** Every factory call made so far. */
    var calls: seq<FactoryCall>

    function Maps(): Registry
      reads this
    {
      Registry(services, factories, singletons)
    }

    constructor()
      ensures Maps() == Registry(map[], map[], map[]) && calls == []
    {
      services := map[];
      factories := map[];
      singletons := map[];
      calls := [];
    }

    method RegisterInstance(name: string, instance: Instance)
      modifies this
      ensures Maps() == WithInstance(old(Maps()), name, instance) && calls == old(calls)
    {
      services := services[name := instance];
    }

    method RegisterSingleton(name: string, factory: FactoryId)
      modifies this
      ensures Maps() == WithSingleton(old(Maps()), name, factory) && calls == old(calls)
    {
      factories := factories[name := factory];
      singletons := singletons[name := true];
    }

    method RegisterFactory(name: string, factory: FactoryId)
      modifies this
      ensures Maps() == WithFactory(old(Maps()), name, factory) && calls == old(calls)
    {
      factories := factories[name := factory];
      singletons := singletons[name := false];
    }

    method Resolve(name: string, args: seq<Value>, produced: Instance) returns (r: Result<Instance, string>)
      modifies this
      ensures var res := Resolved(old(Maps()), name, produced);
              Maps() == res.registry && r == res.result &&
              calls == old(calls) + if res.called.Some? then [FactoryCall(res.called.value, this, args)] else []
    {
      if (name !in singletons || singletons[name]) && name in services {
        return Ok(services[name]);
      }
      if name !in factories {
        return Err(NotRegistered(name));
      }
      calls := calls + [FactoryCall(factories[name], this, args)];
      if name !in singletons || singletons[name] {
        services := services[name := produced];
      }
      return Ok(produced);
    }
  }

  // Properties.

  /** Resolving a name that has neither an instance nor a factory fails. */
  lemma UnknownNameFails(reg: Registry, name: string, produced: Instance)
    requires name !in reg.services && name !in reg.factories
    ensures Resolved(reg, name, produced) == Resolution(reg, Err(NotRegistered(name)), None)
  {
  }

  /** A name registered only as an instance resolves to it without any
      factory call. */
  lemma InstanceResolves(reg: Registry, name: string, instance: Instance, produced: Instance)
    requires name !in reg.singletons
    ensures Resolved(WithInstance(reg, name, instance), name, produced) ==
            Resolution(WithInstance(reg, name, instance), Ok(instance), None)
  {
  }

  /** A singleton's factory runs on the first resolve only: the second
      resolve calls nothing and returns the first result, whatever its own
      factory result would have been. */
  lemma SingletonOnce(reg: Registry, name: string, factory: FactoryId, first: Instance, second: Instance)
    requires name !in reg.services
    ensures var once := Resolved(WithSingleton(reg, name, factory), name, first);
            once.called == Some(factory) && once.result == Ok(first) &&
            Resolved(once.registry, name, second) == Resolution(once.registry, Ok(first), None)
  {
  }

  /** A factory name calls its factory on every resolve, caches nothing and
      ignores an earlier instance of that name. */
  lemma FactoryEveryTime(reg: Registry, name: string, factory: FactoryId, produced: Instance)
    ensures var reg' := WithFactory(reg, name, factory);
            Resolved(reg', name, produced) == Resolution(reg', Ok(produced), Some(factory))
  {
  }

  /** After resolves of a singleton, its factory has been called at most
      once, whatever the factory results offered. */
  lemma {:induction false} SingletonCalledAtMostOnce(reg: Registry, name: string, produced: seq<Instance>)
    requires name in reg.factories && name in reg.singletons && reg.singletons[name]
    ensures CallsOf(reg, name, produced) <= 1
    ensures name !in reg.services && |produced| > 0 ==> CallsOf(reg, name, produced) == 1
    ensures name in reg.services ==> CallsOf(reg, name, produced) == 0
    decreases |produced|
  {
    if produced != [] {
      var res := Resolved(reg, name, produced[0]);
      SingletonCalledAtMostOnce(res.registry, name, produced[1..]);
      assert name in res.registry.services;
    }
  }

  /** The number of factory calls made by resolving `name` once per element
      of `produced`. */
  function CallsOf(reg: Registry, name: string, produced: seq<Instance>): nat
    decreases |produced|
  {
    if produced == [] then 0
    else
      var res := Resolved(reg, name, produced[0]);
      (if res.called.Some? then 1 else 0) + CallsOf(res.registry, name, produced[1..])
  }

  /** Re-registering a singleton over a cached instance keeps that
      instance. */
  lemma SingletonKeepsCache(reg: Registry, name: string, factory: FactoryId, produced: Instance)
    requires name in reg.services
    ensures var reg' := WithSingleton(reg, name, factory);
            Resolved(reg', name, produced) == Resolution(reg', Ok(reg.services[name]), None)
  {
  }
}
