# JForum plugin bootstrap, modelled in Dafny

JForum builds its pluggable subsystems from class names it reads from its
configuration. `ConfigLoader` creates the DAO driver and hands it to
`DataAccessDriver.init`. It creates the login authenticator and stores it in
the `LOGIN_AUTHENTICATOR_INSTANCE` slot. It creates the cache engine, stores it
in the static `cache` field, calls `init()`, and then creates every cacheable
listed in the comma-separated `CACHEABLE_OBJECTS` value and calls
`setCacheEngine(cache)` on each. Every object comes from a swappable
`ReflectionProvider`; the default one looks the class up, checks that it is
assignable to the expected interface before constructing it, and constructs it
with its zero-argument constructor.

The model:

- `optional.dfy` — `Optional.Option`, used for the nullable fields and values.
- `java_text.dfy` — `JavaText`: `String.trim()` and `String.split(",")`
  (one-character separator, limit 0), with lemmas for what they compute.
- `reflection.dfy` — `Reflection`: the classes `Class.forName` can find form a
  finite map from class names to class descriptions. Each description lists
  the plugin interfaces the class implements, whether its constructor throws,
  and which plugin methods throw. It also holds `DefaultReflectionProvider.newInstance`,
  the swappable provider, and the cast the compiler inserts at each call site.
- `bootstrap.dfy` — `Bootstrap`: the process-wide state (`Registry`), and one
  pure function per bootstrap step. Each step returns whether it returned or
  threw (and what), the next registry, and the plugin calls it made, in order.
- `properties.dfy` — `BootstrapProperties`: lemmas relating several calls.

Each constructed object carries a serial number. This keeps two objects of the
same class apart, for example the old and the new cache engine.

## Model

| member | source | states |
|---|---|---|
| Reflection.NewInstance | src/net/jforum/ConfigLoader.java:300-310 | An unknown class name fails with ClassNotFoundException carrying that name. A lookup succeeds exactly when the class exists, is assignable to the expected interface and its zero-argument construction returns. A successful result is a new object of that class. A non-assignable class fails with the provider's ClassCastException. An assignable class that does not construct fails with the exception its construction ends with: the constructor threw, there is no zero-argument constructor, the class is abstract, or the constructor is inaccessible. |
| Reflection.NotAssignableNeverConstructs | src/net/jforum/ConfigLoader.java:304-308 | For a class that is not assignable, the result does not depend on whether its constructor would throw: the constructor is never reached. |
| Reflection.NotAssignableMessageNamesBoth | src/net/jforum/ConfigLoader.java:304-306 | The ClassCastException message contains both the class name and the expected interface's name. |
| Reflection.Resolve | src/net/jforum/ConfigLoader.java:219-219 | Whatever provider is installed, a lookup that succeeds at a call site yields an object of the expected interface. With the default provider the call site adds nothing to `newInstance`. With a custom provider, a failure and an object of the expected interface pass through unchanged, and an object of another type fails the call site's cast with a ClassCastException naming its class. |
| Reflection.ResetRestoresDefault | src/net/jforum/ConfigLoader.java:271-274 | Passing null to `setReflectionProvider` restores the default provider's behaviour, whatever was installed before. |
| Reflection.SetProviderInstalls | src/net/jforum/ConfigLoader.java:271-274 | A non-null provider is installed as given. |
| Bootstrap.WrapMessage | src/net/jforum/ConfigLoader.java:207-209 | The wrapping ForumException's message contains the configured class name and the cause's own message. |
| Bootstrap.LoadDaoImplementation | src/net/jforum/ConfigLoader.java:196-211 | The step returns exactly when the driver resolves. On success the only plugin call is `DataAccessDriver.init` with the new driver. On failure it throws a ForumException whose cause is the lookup's exception and whose message contains the driver name; the registry is unchanged and `init` is never called. |
| Bootstrap.CreateLoginAuthenticator | src/net/jforum/ConfigLoader.java:119-131 | The slot is set to the new instance exactly when the lookup succeeds. On failure it throws a ForumException naming the class, and the slot keeps its old value. |
| Bootstrap.WireOne | src/net/jforum/ConfigLoader.java:229-233 | One loop iteration: the trimmed entry is looked up as a Cacheable. If the lookup fails, no call is made, nothing changes and the lookup's exception is reported. If it succeeds, one object is constructed and `setCacheEngine` is called once on it with the engine. The cacheable counts as wired exactly when that call returns; if the call throws, its exception is reported. Only `wired` and the serial counter change. |
| Bootstrap.WireCacheables | src/net/jforum/ConfigLoader.java:229-233 | The loop changes nothing in the registry but `wired` and the serial counter. |
| Bootstrap.StartCacheEngine | src/net/jforum/ConfigLoader.java:213-238 | Any exception leaving the step is a single CacheEngineStartupException with the fixed message; the DAO driver and the authenticator are untouched. |
| Bootstrap.StopCacheEngine | src/net/jforum/ConfigLoader.java:240-245 | With no engine, the step does nothing. Otherwise it calls `stop()` once on the current engine. The registry is left as it was. The step throws exactly when there is an engine and its `stop()` throws, and then it lets that exception through unwrapped. |
| JavaText.TrimShape | src/net/jforum/ConfigLoader.java:231-231 | `trim()` keeps a contiguous slice that neither starts nor ends with a char at or below U+0020, and removes only such chars around it. |
| JavaText.TrimEmptyIffBlank | src/net/jforum/ConfigLoader.java:223-223 | `s.trim().equals("")` holds exactly when every char of `s` is at or below U+0020. |
| JavaText.TrimIdempotent | src/net/jforum/ConfigLoader.java:231-231 | Trimming an already trimmed entry changes nothing. |
| JavaText.SegmentsJoin | src/net/jforum/ConfigLoader.java:228-228 | Joining the separator-delimited pieces with the separator restores the string. |
| JavaText.SegmentsOfJoin | src/net/jforum/ConfigLoader.java:228-228 | Splitting a join of separator-free pieces gives the pieces back. |
| JavaText.SplitShape | src/net/jforum/ConfigLoader.java:228-228 | `split(",")` returns the comma-free pieces in order. It drops only a tail of empty pieces and never ends in an empty piece, unless the string has no comma; then the result is the string itself. |
| JavaText.SplitRestores | src/net/jforum/ConfigLoader.java:228-228 | When `split` keeps at least one piece, joining what it keeps and appending one comma per dropped piece restores the string. |
| BootstrapProperties.WireAppend | src/net/jforum/ConfigLoader.java:229-233 | If the loop over a prefix of the list finishes, the loop over the whole list is the loop over that prefix followed by the loop over the rest. |
| BootstrapProperties.WireCounts | src/net/jforum/ConfigLoader.java:229-233 | The loop creates at most one object and makes at most one `setCacheEngine` call per entry. A loop that finishes does both for every entry. |
| BootstrapProperties.LaterEntriesNeverAttempted | src/net/jforum/ConfigLoader.java:229-237 | Once an entry fails, the loop ends exactly as it stood at that entry: later entries are never looked up or called. |
| BootstrapProperties.WireHandsEngine | src/net/jforum/ConfigLoader.java:232-232 | Every `setCacheEngine` call the loop makes passes the same engine. |
| BootstrapProperties.WireSucceedsIff | src/net/jforum/ConfigLoader.java:229-233 | The loop finishes without an exception exactly when every entry, trimmed, resolves to a Cacheable that accepts the engine. |
| BootstrapProperties.WireTraceInOrder | src/net/jforum/ConfigLoader.java:229-233 | After a loop that finished, the i-th call is `setCacheEngine` on the object built from the i-th entry, in list order. |
| BootstrapProperties.WireKeepsEngineEntries | src/net/jforum/ConfigLoader.java:229-237 | A cacheable already wired to the engine stays wired to it, even if a later entry fails. |
| BootstrapProperties.WireRecordsEachCacheable | src/net/jforum/ConfigLoader.java:229-233 | After a loop that finished, every cacheable it created is wired to the engine. |
| BootstrapProperties.StartEngineResolution | src/net/jforum/ConfigLoader.java:219-220 | If the engine class does not resolve, the step throws, leaves the registry (including `cache`) unchanged and calls nothing. If it resolves, `cache` ends up holding the new engine, whatever happens next, and `init()` is the first call. |
| BootstrapProperties.BlankListOnlyInitialises | src/net/jforum/ConfigLoader.java:222-226 | With a null or blank cacheable list, the step returns normally after `init()`. It creates no cacheable and makes no other call. |
| BootstrapProperties.CommasOnlyListWiresNothing | src/net/jforum/ConfigLoader.java:222-233 | A list of commas only is not blank, but `split` leaves nothing of it. The step returns normally after `init()` alone. |
| BootstrapProperties.StartRunsLoop | src/net/jforum/ConfigLoader.java:219-237 | With the engine started and a non-blank list, the step is `init()` followed by the loop over the split list. It returns normally exactly when the loop finishes. Otherwise it throws a CacheEngineStartupException whose cause is the exception that ended the loop. |
| BootstrapProperties.StartSucceedsIff | src/net/jforum/ConfigLoader.java:219-237 | With the engine started, the step returns normally exactly when every split entry, trimmed, resolves to a Cacheable that accepts the engine. |
| BootstrapProperties.InitFailureKeepsNewEngine | src/net/jforum/ConfigLoader.java:219-237 | If `init()` throws, `cache` keeps the new engine, nothing else is called, and the failure is wrapped. |
| BootstrapProperties.EmptyEntryFailsStartup | src/net/jforum/ConfigLoader.java:228-237 | With the default provider, a blank entry in a non-blank list is looked up under the empty name and fails the whole step. Such entries are never skipped. |
| BootstrapProperties.DefaultLookupStamps | src/net/jforum/ConfigLoader.java:308-308 | With the default provider, every cacheable is a new object built at the serial it was handed. |
| BootstrapProperties.WireKeepsFresh | src/net/jforum/ConfigLoader.java:229-233 | The loop keeps every object the registry refers to older than the next serial. |
| BootstrapProperties.DaoKeepsFresh | src/net/jforum/ConfigLoader.java:196-211 | The same holds for `loadDaoImplementation` under the default provider. |
| BootstrapProperties.LoginKeepsFresh | src/net/jforum/ConfigLoader.java:119-131 | The same holds for `createLoginAuthenticator` under the default provider. |
| BootstrapProperties.StartKeepsFresh | src/net/jforum/ConfigLoader.java:213-238 | The same holds for `startCacheEngine` under the default provider. |
| BootstrapProperties.StartHandsNewEngine | src/net/jforum/ConfigLoader.java:219-233 | Every `setCacheEngine` call of the step passes the engine it has just stored in `cache`. |
| BootstrapProperties.CacheablesGetTheNewEngine | src/net/jforum/ConfigLoader.java:219-233 | With the default provider the stored engine is a new object, distinct from any previous engine, and every cacheable receives that new engine rather than the old one. |
| BootstrapProperties.StopReachesStartedEngine | src/net/jforum/ConfigLoader.java:240-245 | A stop after a start calls `stop()` on the engine that start stored, even if its `init()` or a cacheable failed. If the engine never resolved, the previous engine, if any, is the one stopped. |
| BootstrapProperties.StopDoesNotClearCache | src/net/jforum/ConfigLoader.java:240-245 | `stopCacheEngine` leaves `cache` set, so a second stop calls `stop()` again on the same engine. |
| BootstrapProperties.DaoDefaultProvider | src/net/jforum/ConfigLoader.java:196-211 | With the default provider, `loadDaoImplementation` returns exactly when the driver class exists, implements DataAccessDriver and constructs. |
| BootstrapProperties.DaoNotAssignableMessage | src/net/jforum/ConfigLoader.java:204-209 | A driver class that does not implement DataAccessDriver fails with a ForumException wrapping the ClassCastException. Its message names both the class and DataAccessDriver. |
| BootstrapProperties.UnknownAuthenticatorNotFound | src/net/jforum/ConfigLoader.java:123-130 | An unknown authenticator class fails with a ForumException whose message is the prefix, the class name, and the ClassNotFoundException message, which is that name. The slot is unchanged. |

## Left out

- `startSystemglobals`, `loadModulesMapping`, `loadUrlPatterns`, `setPropertiesLoader` and `DefaultPropertiesLoader`: these read property files, and file I/O is not modelled.
- `listenForChanges` and `listenInstallationConfig`: they register file monitors, which are timers over the file system.
- `startSearchIndexer`, `startSummaryJob` and `startPop3Integration`: each only delegates to a subsystem that is not part of this model.
- Logging calls are left out; they do not affect state or outcomes.
- A null class name (a missing configuration key) is not modelled. The class names are plain strings, because the resulting NullPointerException's message is a JDK detail. The cacheable list is optional, because the code itself tests it for null.
- `Error`s such as `ExceptionInInitializerError` escape `catch (Exception e)` in the source. They are not modelled: a constructor either returns or throws an exception.
- `DataAccessDriver.init` is modelled as never throwing. Its body is not part of this model.
- Reflection.Message: the JDK's wording for the call-site ClassCastException is approximated, and an IllegalAccessException's text is taken as part of the class description rather than built from the JDK's format.
- Reflection.Provider: a custom provider that returns null is not modelled. A lookup either yields an object or fails. In the source a null engine would stay in `cache`, `init()` would throw a NullPointerException wrapped in a CacheEngineStartupException, and a later stop would do nothing; a null authenticator would be stored in its slot.
- Bootstrap.StartCacheEngine: its own contract states only the wrapping and what it leaves untouched. What it computes is stated by the BootstrapProperties lemmas, to keep each proof small.
- Bootstrap.WireCacheables: its own contract states only what the loop leaves untouched. Counting, order and outcome are stated by the lemmas named `Wire…`.
- A `setCacheEngine` call that throws is recorded as made, and its cacheable is not recorded as wired. Side effects the cacheable performs before throwing are not modelled.
- Concurrency and the static fields' visibility between threads are not modelled; the steps run one after another.
- `JForumExecutionContextTest` and the execution context it exercises are not part of this model.

## Notes

`stopCacheEngine` has no `catch`, so an exception from the engine's `stop()`
propagates to the caller unwrapped. The model follows the code
(`PluginException` in `Bootstrap.StopCacheEngine`), not the documented
expectation that stopping the cache engine never throws.
