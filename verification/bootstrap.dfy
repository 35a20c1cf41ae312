/** ConfigLoader's plugin bootstrap: each step is a pure function from the
    process-wide registry to an outcome, the next registry and the plugin calls
    it made, in order. */
module Bootstrap {
  import opened Optional
  import opened JavaText
  import opened Reflection

  /** The process-wide state the bootstrap steps write. */
  datatype Registry = Registry(
    driver: Option<Obj>,        // the implementation handed to DataAccessDriver.init
    authenticator: Option<Obj>, // the object stored under LOGIN_AUTHENTICATOR_INSTANCE
    cache: Option<Obj>,         // ConfigLoader's static `cache` field
    wired: map<Obj, Obj>,       // each cacheable that accepted setCacheEngine, with the engine it got
    nextSerial: nat)            // serial of the next object a provider constructs

  /** Calls a step makes into plugin code, recorded in order. */
  datatype Effect =
    | InstallDriver(driver: Obj)                  // DataAccessDriver.init(d)
    | Init(engine: Obj)                           // cache.init()
    | SetCacheEngine(cacheable: Obj, engine: Obj) // cacheable.setCacheEngine(cache)
    | Stop(engine: Obj)                           // cache.stop()

  /** What an exception was caused by. */
  datatype Cause = Reflective(error: ReflectError) | Plugin(receiver: Obj, call: Method)

  /** The exceptions a step lets escape. */
  datatype Failure =
    | ForumException(message: string, cause: Cause)
    | CacheEngineStartupException(message: string, cause: Cause)
    | PluginException(receiver: Obj, call: Method)  // thrown by a plugin and not wrapped

  datatype Outcome = Returned | Threw(failure: Failure)

  datatype Step = Step(outcome: Outcome, registry: Registry, trace: seq<Effect>)

  const DaoErrorPrefix := "Error while trying to create DAO implementation ("
  const LoginErrorPrefix := "Error while trying to create a login.authenticator instance ("
  const CacheErrorMessage := "Error while starting the cache engine"

  /** The message of the ForumException both wrapping steps build:
      prefix, configured class name, then the cause's own message. */
  function WrapMessage(prefix: string, className: string, e: ReflectError): (m: string)
    ensures Mentions(m, className)
    ensures Mentions(m, Message(e))
  {
    var head := prefix + className + "): ";
    var m := head + Message(e);
    assert m == prefix + className + ("): " + Message(e));
    MentionsMiddle(prefix, className, "): " + Message(e));
    assert m == head + Message(e) + "";
    MentionsMiddle(head, Message(e), "");
    m
  }

  // ---------------------------------------------------------------- DAO driver

  /** `loadDaoImplementation`: resolve the configured driver and hand it to
      DataAccessDriver.init; any failure becomes a ForumException naming the driver
      class, and then nothing is installed. */
  function LoadDaoImplementation(u: Universe, p: Provider, reg: Registry, driverName: string): (s: Step)
    ensures var res := Resolve(p, u, driverName, DataAccessDriver, reg.nextSerial);
            && (s.outcome.Returned? <==> res.Resolved?)
            && (res.Resolved? ==>
                  && DataAccessDriver in res.obj.capabilities
                  && s.trace == [InstallDriver(res.obj)]
                  && s.registry == reg.(driver := Some(res.obj), nextSerial := reg.nextSerial + 1))
            && (res.Failed? ==>
                  && s.outcome.Threw? && s.outcome.failure.ForumException?
                  && s.outcome.failure.cause == Reflective(res.error)
                  && Mentions(s.outcome.failure.message, driverName)
                  && s.registry == reg
                  && s.trace == [])
  {
    match Resolve(p, u, driverName, DataAccessDriver, reg.nextSerial)
    case Failed(e) =>
      Step(Threw(ForumException(WrapMessage(DaoErrorPrefix, driverName, e), Reflective(e))), reg, [])
    case Resolved(d) =>
      Step(Returned, reg.(driver := Some(d), nextSerial := reg.nextSerial + 1), [InstallDriver(d)])
  }

  // ------------------------------------------------------ login authenticator

  /** `createLoginAuthenticator`: the new instance goes into the
      LOGIN_AUTHENTICATOR_INSTANCE slot only on success; a failure is a
      ForumException naming the class and leaves the slot as it was. */
  function CreateLoginAuthenticator(u: Universe, p: Provider, reg: Registry, className: string): (s: Step)
    ensures var res := Resolve(p, u, className, LoginAuthenticator, reg.nextSerial);
            && (s.outcome.Returned? <==> res.Resolved?)
            && s.trace == []
            && (res.Resolved? ==>
                  && LoginAuthenticator in res.obj.capabilities
                  && s.registry == reg.(authenticator := Some(res.obj), nextSerial := reg.nextSerial + 1))
            && (res.Failed? ==>
                  && s.outcome.Threw? && s.outcome.failure.ForumException?
                  && s.outcome.failure.cause == Reflective(res.error)
                  && Mentions(s.outcome.failure.message, className)
                  && s.registry == reg)
  {
    match Resolve(p, u, className, LoginAuthenticator, reg.nextSerial)
    case Failed(e) =>
      Step(Threw(ForumException(WrapMessage(LoginErrorPrefix, className, e), Reflective(e))), reg, [])
    case Resolved(a) =>
      Step(Returned, reg.(authenticator := Some(a), nextSerial := reg.nextSerial + 1), [])
  }

  // -------------------------------------------------------------- cache engine

  /** The body of the `try` in `startCacheEngine` before it is wrapped: the
      exception that left it, if any, plus the state and calls so far. */
  datatype Attempt = Attempt(error: Option<Cause>, registry: Registry, trace: seq<Effect>)

  /** How the cacheable loop resolves one entry, from the entry as listed and the
      serial the next construction takes. */
  type Lookup = (string, nat) -> Resolution

  /** The lookup of `startCacheEngine`: the entry is trimmed and resolved as a
      Cacheable through the installed provider. */
  function CacheableLookup(u: Universe, p: Provider): (look: Lookup)
  {
    (name: string, serial: nat) => Resolve(p, u, Trim(name), Cacheable, serial)
  }

  /** The entry resolves (constructed with `serial`) to an object that accepts its
      engine. */
  predicate Wireable(look: Lookup, serial: nat, name: string) {
    var r := look(name, serial);
    r.Resolved? && SetCacheEngineMethod !in r.obj.throwing
  }

  /** Every entry of `names` is wireable, the i-th one with serial `serial + i`:
      what each would get if all before it were constructed. */
  predicate AllWireable(look: Lookup, serial: nat, names: seq<string>) {
    forall i :: 0 <= i < |names| ==> Wireable(look, serial + i, names[i])
  }

  /** Every call in `trace` hands `engine` to a cacheable. */
  predicate HandsEngine(trace: seq<Effect>, engine: Obj) {
    forall i :: 0 <= i < |trace| ==> trace[i].SetCacheEngine? && trace[i].engine == engine
  }

  /** The cacheable a wireable entry produces. */
  function WiredObj(look: Lookup, serial: nat, name: string): (c: Obj)
    requires Wireable(look, serial, name)
  {
    look(name, serial).obj
  }

  /** One iteration of the cacheable loop: trim the entry, resolve it as a
      Cacheable and hand it `engine`, the object `cache` holds while the loop runs. */
  function WireOne(look: Lookup, engine: Obj, reg: Registry, name: string): (a: Attempt)
    ensures a.registry == reg.(wired := a.registry.wired, nextSerial := a.registry.nextSerial)
    ensures a.error.None? <==> Wireable(look, reg.nextSerial, name)
    ensures a.error.None? ==>
              var c := WiredObj(look, reg.nextSerial, name);
              && a.trace == [SetCacheEngine(c, engine)]
              && a.registry == reg.(nextSerial := reg.nextSerial + 1, wired := reg.wired[c := engine])
    ensures a.error.Some? ==> a.registry.wired == reg.wired && a.registry.nextSerial <= reg.nextSerial + 1
    ensures |a.trace| <= 1
    ensures |a.trace| == 1 ==> a.trace[0].SetCacheEngine? && a.trace[0].engine == engine
    ensures look(name, reg.nextSerial).Failed? ==>
              a == Attempt(Some(Reflective(look(name, reg.nextSerial).error)), reg, [])
    ensures look(name, reg.nextSerial).Resolved? ==>
              var c := look(name, reg.nextSerial).obj;
              && a.trace == [SetCacheEngine(c, engine)]
              && a.registry.nextSerial == reg.nextSerial + 1
              && (SetCacheEngineMethod in c.throwing ==> a.error == Some(Plugin(c, SetCacheEngineMethod)))
  {
    match look(name, reg.nextSerial)
    case Failed(e) => Attempt(Some(Reflective(e)), reg, [])
    case Resolved(c) =>
      var created := reg.(nextSerial := reg.nextSerial + 1);
      if SetCacheEngineMethod in c.throwing then
        Attempt(Some(Plugin(c, SetCacheEngineMethod)), created, [SetCacheEngine(c, engine)])
      else
        Attempt(None, created.(wired := created.wired[c := engine]), [SetCacheEngine(c, engine)])
  }

  /** The cacheable loop: the entries in order; the first failure ends it. Only
      `wired` and the serial counter change. */
  function WireCacheables(look: Lookup, engine: Obj, reg: Registry, names: seq<string>): (a: Attempt)
    ensures a.registry == reg.(wired := a.registry.wired, nextSerial := a.registry.nextSerial)
    decreases |names|
  {
    if |names| == 0 then Attempt(None, reg, [])
    else
      var first := WireOne(look, engine, reg, names[0]);
      if first.error.Some? then first
      else
        var rest := WireCacheables(look, engine, first.registry, names[1..]);
        Attempt(rest.error, rest.registry, first.trace + rest.trace)
  }

  /** `startCacheEngine`: resolve the engine and store it in `cache`, call its
      `init()`, then wire the cacheables listed in the configuration; a null or
      blank list ends the step normally. Every failure is reported as one
      CacheEngineStartupException. */
  function StartCacheEngine(u: Universe, p: Provider, reg: Registry, engineName: string, cacheables: Option<string>): (s: Step)
    ensures s.outcome.Threw? ==>
              s.outcome.failure.CacheEngineStartupException? && s.outcome.failure.message == CacheErrorMessage
    ensures s.registry.driver == reg.driver && s.registry.authenticator == reg.authenticator
  {
    var res := Resolve(p, u, engineName, CacheEngine, reg.nextSerial);
    if res.Failed? then
      Step(Threw(CacheEngineStartupException(CacheErrorMessage, Reflective(res.error))), reg, [])
    else
      var engine := res.obj;
      var started := reg.(cache := Some(engine), nextSerial := reg.nextSerial + 1);
      var a :=
        if InitMethod in engine.throwing then Attempt(Some(Plugin(engine, InitMethod)), started, [])
        else if cacheables.None? || Trim(cacheables.value) == "" then Attempt(None, started, [])
        else WireCacheables(CacheableLookup(u, p), engine, started, Split(cacheables.value, ','));
      var outcome := match a.error
        case None => Returned
        case Some(cause) => Threw(CacheEngineStartupException(CacheErrorMessage, cause));
      Step(outcome, a.registry, [Init(engine)] + a.trace)
  }

  /** `stopCacheEngine`: calls `stop()` on the current engine, if there is one, and
      leaves `cache` set. An exception from `stop()` is not caught. */
  function StopCacheEngine(reg: Registry): (s: Step)
    ensures s.registry == reg
    ensures reg.cache.None? ==> s.outcome == Returned && s.trace == []
    ensures reg.cache.Some? ==> s.trace == [Stop(reg.cache.value)]
    ensures s.outcome.Threw? <==> reg.cache.Some? && StopMethod in reg.cache.value.throwing
    ensures s.outcome.Threw? ==> s.outcome.failure == PluginException(reg.cache.value, StopMethod)
  {
    match reg.cache
    case None => Step(Returned, reg, [])
    case Some(engine) =>
      var outcome := if StopMethod in engine.throwing then Threw(PluginException(engine, StopMethod)) else Returned;
      Step(outcome, reg, [Stop(engine)])
  }
}
