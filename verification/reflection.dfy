/** Java reflection as used by ConfigLoader, over an explicit, finite class universe,
    and the swappable `ReflectionProvider` through which every plugin is created. */
module Reflection {
  import opened Optional

  /** The plugin interfaces ConfigLoader asks for. */
  datatype Capability = DataAccessDriver | CacheEngine | Cacheable | LoginAuthenticator

  /** `Class.getName()` of each capability interface. */
  function CapabilityName(c: Capability): (n: string)
  {
    match c
    case DataAccessDriver => "net.jforum.dao.DataAccessDriver"
    case CacheEngine => "net.jforum.cache.CacheEngine"
    case Cacheable => "net.jforum.cache.Cacheable"
    case LoginAuthenticator => "net.jforum.sso.LoginAuthenticator"
  }

  /** Plugin methods ConfigLoader calls on the objects it creates. */
  datatype Method = InitMethod | StopMethod | SetCacheEngineMethod

  /** How `getDeclaredConstructor().newInstance()` ends for a class. */
  datatype Ctor =
    | Constructs                   // a zero-argument constructor that returns
    | Throws                       // the constructor throws (InvocationTargetException)
    | Missing                      // no zero-argument constructor, or an interface (NoSuchMethodException)
    | Abstract                     // an abstract class (InstantiationException)
    | Inaccessible(detail: string) // the constructor is not accessible (IllegalAccessException)

  /** What the model knows of a loadable class: the capabilities it is assignable to,
      how its zero-argument construction ends, and which plugin methods throw when
      called on its instances. */
  datatype ClassDesc = ClassDesc(capabilities: set<Capability>, ctor: Ctor, throwing: set<Method>)

  /** The classes `Class.forName` can find, by fully qualified name. */
  type Universe = map<string, ClassDesc>

  /** No class has the empty name, which `Class.forName` never finds. */
  predicate ValidUniverse(u: Universe) {
    "" !in u
  }

  /** A constructed object: its class, its class's behaviour, and a serial that
      tells apart two objects of the same class. */
  datatype Obj = Obj(cls: string, capabilities: set<Capability>, throwing: set<Method>, serial: nat)

  /** The exceptions a plugin lookup can end with. */
  datatype ReflectError =
    | ClassNotFound(name: string)                           // Class.forName
    | NotAssignable(name: string, expected: Capability)     // the provider's own ClassCastException
    | ConstructorThrew(name: string)                        // InvocationTargetException
    | NoZeroArgConstructor(name: string)                    // NoSuchMethodException
    | Uninstantiable(name: string)                          // InstantiationException, whose message is null
    | ConstructorInaccessible(name: string, detail: string) // IllegalAccessException
    | CastFailed(cls: string, expected: Capability)         // the caller's implicit cast rejected a custom provider's object
    | ProviderFailed(message: string)                       // any other exception a swapped-in provider throws

  /** `getMessage()` of each exception. */
  function Message(e: ReflectError): (m: string)
  {
    match e
    case ClassNotFound(name) => name
    case NotAssignable(name, expected) => "Class " + name + " is not assignable to " + CapabilityName(expected)
    // the constructor's exception arrives wrapped in an InvocationTargetException,
    // whose own message is null and concatenates as "null"
    case ConstructorThrew(_) => "null"
    case NoZeroArgConstructor(name) => name + ".<init>()"
    case Uninstantiable(_) => "null"
    case ConstructorInaccessible(_, detail) => detail
    case CastFailed(cls, expected) => "class " + cls + " cannot be cast to class " + CapabilityName(expected)
    case ProviderFailed(message) => message
  }

  /** `part` occurs somewhere in `text`. */
  predicate Mentions(text: string, part: string) {
    exists i :: 0 <= i <= |text| && part <= text[i..]
  }

  /** A text that contains `mid` contains whatever `mid` contains. */
  lemma MentionsTransitive(text: string, mid: string, part: string)
    requires Mentions(text, mid) && Mentions(mid, part)
    ensures Mentions(text, part)
  {
    var i :| 0 <= i <= |text| && mid <= text[i..];
    var j :| 0 <= j <= |mid| && part <= mid[j..];
    assert text[i + j..][..|part|] == mid[j..][..|part|];
    assert part <= text[i + j..];
  }

  /** A concatenation contains each of its parts. */
  lemma MentionsMiddle(pre: string, part: string, post: string)
    ensures Mentions(pre + part + post, part)
  {
    var text := pre + part + post;
    assert part <= text[|pre|..];
  }

  datatype Resolution = Resolved(obj: Obj) | Failed(error: ReflectError)

  /** The exception construction ends with, for a class that does not construct. */
  function ConstructionError(name: string, c: Ctor): (e: ReflectError)
    requires !c.Constructs?
  {
    match c
    case Throws => ConstructorThrew(name)
    case Missing => NoZeroArgConstructor(name)
    case Abstract => Uninstantiable(name)
    case Inaccessible(detail) => ConstructorInaccessible(name, detail)
  }

  /** `DefaultReflectionProvider.newInstance`: look the class up, check assignability
      before touching the constructor, then construct. A new object takes `serial`. */
  function NewInstance(u: Universe, name: string, expected: Capability, serial: nat): (r: Resolution)
    ensures name !in u ==> r == Failed(ClassNotFound(name))
    ensures r.Resolved? <==> name in u && expected in u[name].capabilities && u[name].ctor == Constructs
    ensures r.Resolved? ==> r.obj == Obj(name, u[name].capabilities, u[name].throwing, serial)
    ensures r.Failed? && name in u && expected !in u[name].capabilities ==> r.error == NotAssignable(name, expected)
    ensures r.Failed? && name in u && expected in u[name].capabilities ==> r.error == ConstructionError(name, u[name].ctor)
  {
    if name !in u then Failed(ClassNotFound(name))
    else
      var desc := u[name];
      if expected !in desc.capabilities then Failed(NotAssignable(name, expected))
      else if !desc.ctor.Constructs? then Failed(ConstructionError(name, desc.ctor))
      else Resolved(Obj(name, desc.capabilities, desc.throwing, serial))
  }

  /** The assignability check comes first: for a class that is not assignable the
      outcome is the same whatever its constructor would do. */
  lemma NotAssignableNeverConstructs(u: Universe, name: string, expected: Capability, serial: nat, ctor: Ctor)
    requires name in u && expected !in u[name].capabilities
    ensures var u' := u[name := u[name].(ctor := ctor)];
            NewInstance(u', name, expected, serial) == NewInstance(u, name, expected, serial)
  {
  }

  /** The ClassCastException names both the class and the expected type. */
  lemma NotAssignableMessageNamesBoth(name: string, expected: Capability)
    ensures Mentions(Message(NotAssignable(name, expected)), name)
    ensures Mentions(Message(NotAssignable(name, expected)), CapabilityName(expected))
  {
    var pre, mid, cap := "Class ", " is not assignable to ", CapabilityName(expected);
    var m := pre + name + mid + cap;
    assert m == Message(NotAssignable(name, expected));
    assert m[|pre|..] == name + mid + cap;
    assert name <= m[|pre|..];
    assert m[|pre| + |name| + |mid|..] == cap;
    assert cap <= m[|pre| + |name| + |mid|..];
  }

  /** The installed `ReflectionProvider`: the default one, or a replacement whose
      `newInstance` is an arbitrary function of name, expected type and serial. */
  datatype Provider =
    | DefaultProvider
    | CustomProvider(newInstance: (string, Capability, nat) -> Resolution)

  /** `setReflectionProvider`: null restores the default. */
  function SetReflectionProvider(p: Option<Provider>): (r: Provider)
  {
    match p
    case None => DefaultProvider
    case Some(q) => q
  }

  /** A lookup at a ConfigLoader call site: the provider's `newInstance`, followed by
      the cast the compiler inserts when the erased result is assigned to a variable
      of the expected interface type. */
  function Resolve(p: Provider, u: Universe, name: string, expected: Capability, serial: nat): (r: Resolution)
    ensures r.Resolved? ==> expected in r.obj.capabilities
    ensures p.DefaultProvider? ==> r == NewInstance(u, name, expected, serial)
    ensures p.CustomProvider? && p.newInstance(name, expected, serial).Failed? ==>
              r == p.newInstance(name, expected, serial)
    ensures p.CustomProvider? && p.newInstance(name, expected, serial).Resolved? ==>
              var o := p.newInstance(name, expected, serial).obj;
              && (expected in o.capabilities ==> r == Resolved(o))
              && (expected !in o.capabilities ==> r == Failed(CastFailed(o.cls, expected)))
  {
    var raw := match p
      case DefaultProvider => NewInstance(u, name, expected, serial)
      case CustomProvider(f) => f(name, expected, serial);
    if raw.Resolved? && expected !in raw.obj.capabilities then Failed(CastFailed(raw.obj.cls, expected))
    else raw
  }

  /** Resetting the provider with null brings back `DefaultReflectionProvider`'s
      behaviour, whatever provider was installed before. */
  lemma ResetRestoresDefault(u: Universe, name: string, expected: Capability, serial: nat)
    ensures Resolve(SetReflectionProvider(None), u, name, expected, serial) == NewInstance(u, name, expected, serial)
  {
  }

  /** An installed provider is used as given. */
  lemma SetProviderInstalls(q: Provider, u: Universe, name: string, expected: Capability, serial: nat)
    ensures Resolve(SetReflectionProvider(Some(q)), u, name, expected, serial) == Resolve(q, u, name, expected, serial)
  {
  }
}
