/** Properties of the bootstrap steps that relate several calls or whole
    configurations: the order in which cacheables are wired, where the loop stops,
    which engine they receive, and what a stop call reaches afterwards. */
module BootstrapProperties {
  import opened Optional
  import opened JavaText
  import opened Reflection
  import opened Bootstrap

  // ------------------------------------------------------- the cacheable loop

  /** A loop over `a + b` whose part over `a` finished without an exception goes on
      over `b` from the registry `a` left, after the calls made for `a`. */
  lemma {:induction false} WireAppend(look: Lookup, engine: Obj, reg: Registry, a: seq<string>, b: seq<string>)
    requires WireCacheables(look, engine, reg, a).error.None?
    ensures var first := WireCacheables(look, engine, reg, a);
            var rest := WireCacheables(look, engine, first.registry, b);
            WireCacheables(look, engine, reg, a + b) == Attempt(rest.error, rest.registry, first.trace + rest.trace)
    decreases |a|
  {
    if |a| == 0 {
      assert a + b == b;
    } else {
      var ab := a + b;
      assert ab[0] == a[0];
      assert ab[1..] == a[1..] + b;
      var one := WireOne(look, engine, reg, a[0]);
      var mid := WireCacheables(look, engine, one.registry, a[1..]);
      assert WireCacheables(look, engine, reg, a) == Attempt(mid.error, mid.registry, one.trace + mid.trace);
      WireAppend(look, engine, one.registry, a[1..], b);
      var rest := WireCacheables(look, engine, mid.registry, b);
      var both := WireCacheables(look, engine, one.registry, a[1..] + b);
      assert both == Attempt(rest.error, rest.registry, mid.trace + rest.trace);
      assert WireCacheables(look, engine, reg, ab) == Attempt(both.error, both.registry, one.trace + both.trace);
      assert one.trace + (mid.trace + rest.trace) == (one.trace + mid.trace) + rest.trace;
    }
  }

  /** The loop constructs at most one object and makes at most one
      `setCacheEngine` call per entry; a loop that finishes does both for every
      entry. */
  lemma {:induction false} WireCounts(look: Lookup, engine: Obj, reg: Registry, names: seq<string>)
    ensures var a := WireCacheables(look, engine, reg, names);
            && reg.nextSerial <= a.registry.nextSerial <= reg.nextSerial + |names|
            && |a.trace| <= |names|
            && (a.error.None? ==> |a.trace| == |names| && a.registry.nextSerial == reg.nextSerial + |names|)
    decreases |names|
  {
    if |names| > 0 {
      var one := WireOne(look, engine, reg, names[0]);
      if one.error.None? {
        WireCounts(look, engine, one.registry, names[1..]);
      }
    }
  }

  /** Once an entry fails, the entries after it are never attempted: the loop over
      the whole list ends exactly as the loop over the list up to the failure. */
  lemma {:induction false} LaterEntriesNeverAttempted(look: Lookup, engine: Obj, reg: Registry, names: seq<string>, k: nat)
    requires k <= |names|
    requires WireCacheables(look, engine, reg, names[..k]).error.Some?
    ensures WireCacheables(look, engine, reg, names) == WireCacheables(look, engine, reg, names[..k])
    decreases k
  {
    var prefix := names[..k];
    assert prefix[0] == names[0];
    var one := WireOne(look, engine, reg, names[0]);
    if one.error.None? {
      assert prefix[1..] == names[1..][..k - 1];
      LaterEntriesNeverAttempted(look, engine, one.registry, names[1..], k - 1);
    }
  }

  /** Every `setCacheEngine` call the loop makes passes the engine in `cache`. */
  lemma {:induction false} WireHandsEngine(look: Lookup, engine: Obj, reg: Registry, names: seq<string>)
    ensures HandsEngine(WireCacheables(look, engine, reg, names).trace, engine)
    decreases |names|
  {
    if |names| > 0 {
      var one := WireOne(look, engine, reg, names[0]);
      if one.error.None? {
        WireHandsEngine(look, engine, one.registry, names[1..]);
        var rest := WireCacheables(look, engine, one.registry, names[1..]);
        var t := one.trace + rest.trace;
        forall i | 1 <= i < |t|
          ensures t[i].SetCacheEngine? && t[i].engine == engine
        {
          assert t[i] == rest.trace[i - 1];
        }
      }
    }
  }

  /** The loop finishes without an exception exactly when every entry, trimmed, is
      wireable with the serial its position gives it. */
  lemma {:induction false} WireSucceedsIff(look: Lookup, engine: Obj, reg: Registry, names: seq<string>)
    ensures WireCacheables(look, engine, reg, names).error.None? <==>
              AllWireable(look, reg.nextSerial, names)
    decreases |names|
  {
    if |names| > 0 {
      AllWireableCons(look, reg.nextSerial, names);
      var one := WireOne(look, engine, reg, names[0]);
      if one.error.None? {
        WireSucceedsIff(look, engine, one.registry, names[1..]);
      }
    }
  }

  /** A list is all wireable when its head is and its tail is, from the next serial. */
  lemma AllWireableCons(look: Lookup, serial: nat, names: seq<string>)
    requires |names| > 0
    ensures AllWireable(look, serial, names) <==>
              Wireable(look, serial, names[0]) && AllWireable(look, serial + 1, names[1..])
  {
    if Wireable(look, serial, names[0]) && AllWireable(look, serial + 1, names[1..]) {
      forall i | 1 <= i < |names|
        ensures Wireable(look, serial + i, names[i])
      {
        assert names[1..][i - 1] == names[i];
      }
    }
  }

  /** After a loop that finished without an exception, the i-th entry was created
      with the i-th serial and handed the engine in `cache`, in list order. */
  lemma {:induction false} WireTraceInOrder(look: Lookup, engine: Obj, reg: Registry, names: seq<string>)
    requires AllWireable(look, reg.nextSerial, names)
    ensures var a := WireCacheables(look, engine, reg, names);
            && |a.trace| == |names|
            && forall i :: 0 <= i < |names| ==>
                 a.trace[i] == SetCacheEngine(WiredObj(look, reg.nextSerial + i, names[i]), engine)
    decreases |names|
  {
    if |names| > 0 {
      var a := WireCacheables(look, engine, reg, names);
      AllWireableCons(look, reg.nextSerial, names);
      var one := WireOne(look, engine, reg, names[0]);
      var next := one.registry;
      WireTraceInOrder(look, engine, next, names[1..]);
      var rest := WireCacheables(look, engine, next, names[1..]);
      forall i | 0 <= i < |names|
        ensures a.trace[i] == SetCacheEngine(WiredObj(look, reg.nextSerial + i, names[i]), engine)
      {
        if i > 0 {
          assert names[1..][i - 1] == names[i];
          assert a.trace[i] == rest.trace[i - 1];
        }
      }
    }
  }

  /** A cacheable already wired to the engine in `cache` stays wired to it. */
  lemma {:induction false} WireKeepsEngineEntries(look: Lookup, engine: Obj, reg: Registry, names: seq<string>, c: Obj)
    requires c in reg.wired && reg.wired[c] == engine
    ensures var w := WireCacheables(look, engine, reg, names).registry.wired;
            c in w && w[c] == engine
    decreases |names|
  {
    if |names| > 0 {
      var one := WireOne(look, engine, reg, names[0]);
      if one.error.None? {
        WireKeepsEngineEntries(look, engine, one.registry, names[1..], c);
      }
    }
  }

  /** After a loop that finished without an exception, every cacheable it created is
      recorded as wired to the engine in `cache`. */
  lemma {:induction false} WireRecordsEachCacheable(look: Lookup, engine: Obj, reg: Registry, names: seq<string>)
    requires WireCacheables(look, engine, reg, names).error.None?
    ensures var a := WireCacheables(look, engine, reg, names);
            forall i :: 0 <= i < |names| ==>
              && Wireable(look, reg.nextSerial + i, names[i])
              && WiredObj(look, reg.nextSerial + i, names[i]) in a.registry.wired
              && a.registry.wired[WiredObj(look, reg.nextSerial + i, names[i])] == engine
    decreases |names|
  {
    WireSucceedsIff(look, engine, reg, names);
    if |names| > 0 {
      var a := WireCacheables(look, engine, reg, names);
      assert Wireable(look, reg.nextSerial + 0, names[0]);
      var one := WireOne(look, engine, reg, names[0]);
      var next := one.registry;
      WireRecordsEachCacheable(look, engine, next, names[1..]);
      WireKeepsEngineEntries(look, engine, next, names[1..], WiredObj(look, reg.nextSerial, names[0]));
      forall i | 1 <= i < |names|
        ensures && WiredObj(look, reg.nextSerial + i, names[i]) in a.registry.wired
                && a.registry.wired[WiredObj(look, reg.nextSerial + i, names[i])] == engine
      {
        assert names[1..][i - 1] == names[i];
        assert next.nextSerial + (i - 1) == reg.nextSerial + i;
      }
    }
  }

  // ------------------------------------------------------------- startCacheEngine

  /** Engine resolution decides what `startCacheEngine` does to `cache`: if the
      engine class cannot be resolved, nothing changes and nothing is called; if it
      can, `cache` holds the new engine (whatever happens next) and `init()` is the
      first plugin call. */
  lemma StartEngineResolution(u: Universe, p: Provider, reg: Registry, engineName: string, cacheables: Option<string>)
    ensures var res := Resolve(p, u, engineName, CacheEngine, reg.nextSerial);
            var s := StartCacheEngine(u, p, reg, engineName, cacheables);
            && (res.Failed? ==>
                  && s.outcome == Threw(CacheEngineStartupException(CacheErrorMessage, Reflective(res.error)))
                  && s.registry == reg && s.trace == [])
            && (res.Resolved? ==>
                  && CacheEngine in res.obj.capabilities
                  && s.registry.cache == Some(res.obj)
                  && |s.trace| >= 1 && s.trace[0] == Init(res.obj))
  {
  }

  /** A null or blank cacheable list: once the engine resolves and its `init()`
      returns, the step returns normally with `init()` as its only plugin call and
      no cacheable created or wired. */
  lemma BlankListOnlyInitialises(u: Universe, p: Provider, reg: Registry, engineName: string, cacheables: Option<string>)
    requires Resolve(p, u, engineName, CacheEngine, reg.nextSerial).Resolved?
    requires InitMethod !in Resolve(p, u, engineName, CacheEngine, reg.nextSerial).obj.throwing
    requires cacheables.None? || AllTrimmable(cacheables.value)
    ensures var engine := Resolve(p, u, engineName, CacheEngine, reg.nextSerial).obj;
            StartCacheEngine(u, p, reg, engineName, cacheables)
              == Step(Returned, reg.(cache := Some(engine), nextSerial := reg.nextSerial + 1), [Init(engine)])
  {
    if cacheables.Some? {
      TrimEmptyIffBlank(cacheables.value);
    }
  }

  /** A list of commas only is not blank, yet `split` leaves nothing of it, so it
      too wires no cacheable and returns normally. */
  lemma CommasOnlyListWiresNothing(u: Universe, p: Provider, reg: Registry, engineName: string, n: nat)
    requires n > 0
    requires Resolve(p, u, engineName, CacheEngine, reg.nextSerial).Resolved?
    requires InitMethod !in Resolve(p, u, engineName, CacheEngine, reg.nextSerial).obj.throwing
    ensures var engine := Resolve(p, u, engineName, CacheEngine, reg.nextSerial).obj;
            StartCacheEngine(u, p, reg, engineName, Some(Repeat(',', n)))
              == Step(Returned, reg.(cache := Some(engine), nextSerial := reg.nextSerial + 1), [Init(engine)])
  {
    var s := Repeat(',', n);
    assert s[0] == ',';
    assert !IsTrimmable(s[0]);
    TrimEmptyIffBlank(s);
    var segs := Segments(s, ',');
    forall i | 0 <= i < |segs|
      ensures segs[i] == ""
    {
      SegmentsOfCommas(n, i);
    }
    DropAllEmpty(segs);
  }

  /** Dropping trailing empties from all-empty pieces leaves nothing. */
  lemma {:induction false} DropAllEmpty(parts: seq<string>)
    requires forall i :: 0 <= i < |parts| ==> parts[i] == ""
    ensures DropTrailingEmpty(parts) == []
  {
    if |parts| > 0 {
      DropAllEmpty(parts[..|parts| - 1]);
    }
  }

  /** Every piece of a string of `n` commas is empty. */
  lemma {:induction false} SegmentsOfCommas(n: nat, i: nat)
    requires i < |Segments(Repeat(',', n), ',')|
    ensures Segments(Repeat(',', n), ',')[i] == ""
    decreases n
  {
    var s := Repeat(',', n);
    if n > 0 {
      assert s[0] == ',';
      assert IndexOf(s, ',') == 0;
      assert s[1..] == Repeat(',', n - 1) by {
        assert s == [','] + Repeat(',', n - 1);
      }
      if i > 0 {
        SegmentsOfCommas(n - 1, i - 1);
      }
    }
  }

  /** With the engine started and a non-blank list, `startCacheEngine` is `init()`
      followed by the cacheable loop over the split list. */
  lemma StartRunsLoop(u: Universe, p: Provider, reg: Registry, engineName: string, list: string)
    requires Resolve(p, u, engineName, CacheEngine, reg.nextSerial).Resolved?
    requires InitMethod !in Resolve(p, u, engineName, CacheEngine, reg.nextSerial).obj.throwing
    requires !AllTrimmable(list)
    ensures var engine := Resolve(p, u, engineName, CacheEngine, reg.nextSerial).obj;
            var started := reg.(cache := Some(engine), nextSerial := reg.nextSerial + 1);
            var a := WireCacheables(CacheableLookup(u, p), engine, started, Split(list, ','));
            var s := StartCacheEngine(u, p, reg, engineName, Some(list));
            && s.trace == [Init(engine)] + a.trace
            && s.registry == a.registry
            && (s.outcome.Returned? <==> a.error.None?)
            && (a.error.Some? ==> s.outcome == Threw(CacheEngineStartupException(CacheErrorMessage, a.error.value)))
  {
    TrimEmptyIffBlank(list);
  }

  /** With the engine started, the whole step returns normally exactly when every
      entry of the split list is wireable after trimming. */
  lemma StartSucceedsIff(u: Universe, p: Provider, reg: Registry, engineName: string, list: string)
    requires Resolve(p, u, engineName, CacheEngine, reg.nextSerial).Resolved?
    requires InitMethod !in Resolve(p, u, engineName, CacheEngine, reg.nextSerial).obj.throwing
    requires !AllTrimmable(list)
    ensures var names := Split(list, ',');
            StartCacheEngine(u, p, reg, engineName, Some(list)).outcome.Returned? <==>
              AllWireable(CacheableLookup(u, p), reg.nextSerial + 1, names)
  {
    var engine := Resolve(p, u, engineName, CacheEngine, reg.nextSerial).obj;
    var started := reg.(cache := Some(engine), nextSerial := reg.nextSerial + 1);
    var look, names := CacheableLookup(u, p), Split(list, ',');
    StartRunsLoop(u, p, reg, engineName, list);
    WireSucceedsIff(look, engine, started, names);
  }

  /** If the engine resolves but its `init()` throws, `cache` already holds the new
      engine, nothing else is called, and the failure is wrapped. */
  lemma InitFailureKeepsNewEngine(u: Universe, p: Provider, reg: Registry, engineName: string, cacheables: Option<string>)
    requires Resolve(p, u, engineName, CacheEngine, reg.nextSerial).Resolved?
    requires InitMethod in Resolve(p, u, engineName, CacheEngine, reg.nextSerial).obj.throwing
    ensures var engine := Resolve(p, u, engineName, CacheEngine, reg.nextSerial).obj;
            var s := StartCacheEngine(u, p, reg, engineName, cacheables);
            && s.outcome == Threw(CacheEngineStartupException(CacheErrorMessage, Plugin(engine, InitMethod)))
            && s.registry.cache == Some(engine)
            && s.trace == [Init(engine)]
  {
  }

  /** An entry of the cacheable list is trimmed but never skipped: an entry that
      trims to nothing is looked up under the empty name, which no class has, and
      fails the whole step after the entries before it were wired. */
  lemma EmptyEntryFailsStartup(u: Universe, reg: Registry, engineName: string, list: string, k: nat)
    requires ValidUniverse(u)
    requires NewInstance(u, engineName, CacheEngine, reg.nextSerial).Resolved?
    requires InitMethod !in NewInstance(u, engineName, CacheEngine, reg.nextSerial).obj.throwing
    requires !AllTrimmable(list)
    requires k < |Split(list, ',')| && AllTrimmable(Split(list, ',')[k])
    ensures StartCacheEngine(u, DefaultProvider, reg, engineName, Some(list)).outcome.Threw?
  {
    var names := Split(list, ',');
    TrimEmptyIffBlank(names[k]);
    assert !Wireable(CacheableLookup(u, DefaultProvider), reg.nextSerial + 1 + k, names[k]);
    StartSucceedsIff(u, DefaultProvider, reg, engineName, list);
  }

  // ------------------------------------------------------------------ identity

  /** Every object the registry refers to was constructed before: its serial is
      below the next one to be handed out. */
  predicate SerialBelow(o: Option<Obj>, n: nat) {
    o.Some? ==> o.value.serial < n
  }

  predicate Fresh(reg: Registry) {
    && SerialBelow(reg.driver, reg.nextSerial)
    && SerialBelow(reg.authenticator, reg.nextSerial)
    && SerialBelow(reg.cache, reg.nextSerial)
    && forall c :: c in reg.wired ==> c.serial < reg.nextSerial && reg.wired[c].serial < reg.nextSerial
  }

  /** A lookup that gives every object it constructs the serial it was handed. */
  ghost predicate StampsSerial(look: Lookup) {
    forall name, serial :: look(name, serial).Resolved? ==> look(name, serial).obj.serial == serial
  }

  /** With the default provider every cacheable gets the serial of its construction. */
  lemma DefaultLookupStamps(u: Universe)
    ensures StampsSerial(CacheableLookup(u, DefaultProvider))
  {
    var look := CacheableLookup(u, DefaultProvider);
    forall name, serial | look(name, serial).Resolved?
      ensures look(name, serial).obj.serial == serial
    {
      assert look(name, serial) == NewInstance(u, Trim(name), Cacheable, serial);
    }
  }

  lemma {:induction false} WireKeepsFresh(look: Lookup, engine: Obj, reg: Registry, names: seq<string>)
    requires reg.cache == Some(engine) && Fresh(reg) && StampsSerial(look)
    ensures Fresh(WireCacheables(look, engine, reg, names).registry)
    decreases |names|
  {
    if |names| > 0 {
      var one := WireOne(look, engine, reg, names[0]);
      if one.error.None? {
        WireKeepsFresh(look, engine, one.registry, names[1..]);
      }
    }
  }

  /** With the default provider every step keeps the registry's objects older than
      the next serial. */
  lemma DaoKeepsFresh(u: Universe, reg: Registry, driverName: string)
    requires Fresh(reg)
    ensures Fresh(LoadDaoImplementation(u, DefaultProvider, reg, driverName).registry)
  {
  }

  lemma LoginKeepsFresh(u: Universe, reg: Registry, className: string)
    requires Fresh(reg)
    ensures Fresh(CreateLoginAuthenticator(u, DefaultProvider, reg, className).registry)
  {
  }

  lemma StartKeepsFresh(u: Universe, reg: Registry, engineName: string, cacheables: Option<string>)
    requires Fresh(reg)
    ensures Fresh(StartCacheEngine(u, DefaultProvider, reg, engineName, cacheables).registry)
  {
    var s := StartCacheEngine(u, DefaultProvider, reg, engineName, cacheables);
    var res := NewInstance(u, engineName, CacheEngine, reg.nextSerial);
    if res.Failed? {
      assert s.registry == reg;
    } else if InitMethod in res.obj.throwing || cacheables.None? || Trim(cacheables.value) == "" {
      assert s.registry == reg.(cache := Some(res.obj), nextSerial := reg.nextSerial + 1);
    } else {
      WiringKeepsFresh(u, reg, engineName, cacheables.value);
    }
  }

  /** The wiring path of `StartKeepsFresh`. */
  lemma WiringKeepsFresh(u: Universe, reg: Registry, engineName: string, list: string)
    requires Fresh(reg)
    requires NewInstance(u, engineName, CacheEngine, reg.nextSerial).Resolved?
    requires InitMethod !in NewInstance(u, engineName, CacheEngine, reg.nextSerial).obj.throwing
    requires Trim(list) != ""
    ensures Fresh(StartCacheEngine(u, DefaultProvider, reg, engineName, Some(list)).registry)
  {
    var engine := NewInstance(u, engineName, CacheEngine, reg.nextSerial).obj;
    var started := reg.(cache := Some(engine), nextSerial := reg.nextSerial + 1);
    var look, names := CacheableLookup(u, DefaultProvider), Split(list, ',');
    assert StartCacheEngine(u, DefaultProvider, reg, engineName, Some(list)).registry
             == WireCacheables(look, engine, started, names).registry;
    DefaultLookupStamps(u);
    WireKeepsFresh(look, engine, started, names);
  }

  /** Every `setCacheEngine` call of `startCacheEngine` passes the engine that
      step has just stored in `cache`. */
  lemma StartHandsNewEngine(u: Universe, p: Provider, reg: Registry, engineName: string, cacheables: Option<string>)
    requires Resolve(p, u, engineName, CacheEngine, reg.nextSerial).Resolved?
    ensures var engine := Resolve(p, u, engineName, CacheEngine, reg.nextSerial).obj;
            var s := StartCacheEngine(u, p, reg, engineName, cacheables);
            && s.registry.cache == Some(engine)
            && HandsEngine(s.trace[1..], engine)
  {
    var engine := Resolve(p, u, engineName, CacheEngine, reg.nextSerial).obj;
    var s := StartCacheEngine(u, p, reg, engineName, cacheables);
    if InitMethod !in engine.throwing && cacheables.Some? && Trim(cacheables.value) != "" {
      WiringHandsNewEngine(u, p, reg, engineName, cacheables.value);
    } else {
      assert s.trace == [Init(engine)];
      assert s.trace[1..] == [];
    }
  }

  /** The wiring path of `StartHandsNewEngine`. */
  lemma WiringHandsNewEngine(u: Universe, p: Provider, reg: Registry, engineName: string, list: string)
    requires Resolve(p, u, engineName, CacheEngine, reg.nextSerial).Resolved?
    requires InitMethod !in Resolve(p, u, engineName, CacheEngine, reg.nextSerial).obj.throwing
    requires Trim(list) != ""
    ensures var engine := Resolve(p, u, engineName, CacheEngine, reg.nextSerial).obj;
            HandsEngine(StartCacheEngine(u, p, reg, engineName, Some(list)).trace[1..], engine)
  {
    var engine := Resolve(p, u, engineName, CacheEngine, reg.nextSerial).obj;
    var started := reg.(cache := Some(engine), nextSerial := reg.nextSerial + 1);
    var look, names := CacheableLookup(u, p), Split(list, ',');
    var a := WireCacheables(look, engine, started, names);
    var s := StartCacheEngine(u, p, reg, engineName, Some(list));
    assert s.trace == [Init(engine)] + a.trace;
    assert s.trace[1..] == a.trace;
    WireHandsEngine(look, engine, started, names);
  }

  /** With the default provider the engine `startCacheEngine` stores is a new
      object, distinct from the engine previously in `cache`, and it is that new
      engine, not the old one, that every cacheable receives. */
  lemma CacheablesGetTheNewEngine(u: Universe, reg: Registry, engineName: string, cacheables: Option<string>)
    requires Fresh(reg)
    requires NewInstance(u, engineName, CacheEngine, reg.nextSerial).Resolved?
    ensures var engine := NewInstance(u, engineName, CacheEngine, reg.nextSerial).obj;
            var s := StartCacheEngine(u, DefaultProvider, reg, engineName, cacheables);
            && s.registry.cache == Some(engine)
            && (reg.cache.Some? ==> engine != reg.cache.value)
            && HandsEngine(s.trace[1..], engine)
  {
    StartHandsNewEngine(u, DefaultProvider, reg, engineName, cacheables);
  }

  // ------------------------------------------------------------ stopCacheEngine

  /** Stopping after a start reaches the engine that start stored, even when its
      `init()` or a cacheable failed; if the engine did not resolve, the previous
      engine (if any) is the one stopped. */
  lemma StopReachesStartedEngine(u: Universe, p: Provider, reg: Registry, engineName: string, cacheables: Option<string>)
    ensures var res := Resolve(p, u, engineName, CacheEngine, reg.nextSerial);
            var stopped := StopCacheEngine(StartCacheEngine(u, p, reg, engineName, cacheables).registry);
            && (res.Resolved? ==> stopped.trace == [Stop(res.obj)])
            && (res.Failed? ==> stopped == StopCacheEngine(reg))
  {
  }

  /** `stop()` leaves `cache` set, so stopping again calls `stop()` again on the
      same engine. */
  lemma StopDoesNotClearCache(reg: Registry)
    requires reg.cache.Some?
    ensures StopCacheEngine(StopCacheEngine(reg).registry).trace == [Stop(reg.cache.value)]
  {
  }

  // ----------------------------------------------------------- wrapped messages

  /** With the default provider, `loadDaoImplementation` succeeds exactly when the
      configured class exists, implements DataAccessDriver and constructs. */
  lemma DaoDefaultProvider(u: Universe, reg: Registry, driverName: string)
    ensures LoadDaoImplementation(u, DefaultProvider, reg, driverName).outcome.Returned? <==>
              driverName in u && DataAccessDriver in u[driverName].capabilities && u[driverName].ctor == Constructs
  {
  }

  /** A configured driver class that exists but does not implement DataAccessDriver
      fails with a ForumException wrapping the ClassCastException; its message names
      both the class and DataAccessDriver. */
  lemma DaoNotAssignableMessage(u: Universe, reg: Registry, driverName: string)
    requires driverName in u && DataAccessDriver !in u[driverName].capabilities
    ensures var s := LoadDaoImplementation(u, DefaultProvider, reg, driverName);
            && s.outcome.Threw?
            && s.outcome.failure.ForumException?
            && s.outcome.failure.cause == Reflective(NotAssignable(driverName, DataAccessDriver))
            && Mentions(s.outcome.failure.message, driverName)
            && Mentions(s.outcome.failure.message, CapabilityName(DataAccessDriver))
  {
    var e := NotAssignable(driverName, DataAccessDriver);
    NotAssignableMessageNamesBoth(driverName, DataAccessDriver);
    MentionsTransitive(WrapMessage(DaoErrorPrefix, driverName, e), Message(e), CapabilityName(DataAccessDriver));
  }

  /** A class name that is not in the universe fails the login-authenticator step
      with a ClassNotFoundException whose message is that name. */
  lemma UnknownAuthenticatorNotFound(u: Universe, reg: Registry, className: string)
    requires className !in u
    ensures var s := CreateLoginAuthenticator(u, DefaultProvider, reg, className);
            && s.outcome.Threw?
            && s.outcome.failure.cause == Reflective(ClassNotFound(className))
            && s.outcome.failure.message
                 == LoginErrorPrefix + className + "): " + className
            && s.registry.authenticator == reg.authenticator
  {
  }
}
