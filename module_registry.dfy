/**
 * packages/fractal/src/module-registry.ts: the table of shared modules a fractal's `require`
 * resolves against. Names and modules arrive as arbitrary JavaScript values; the checks on
 * them decide whether the table changes.
 */
module ModuleRegistry {
  import opened Wrappers
  import opened JsValues

  const InvalidName: string := "Module name must be a non-empty string"
  const MissingModule: string := "Module cannot be null or undefined"

  /** `!name || typeof name !== 'string'` fails exactly for these. */
  predicate ValidName(name: JsValue) {
    name.Str? && name.s != ""
  }

  /**
   * The table after `register(name, m)`, or the error it throws: the name is checked
   * first, then the module; a falsy module (`null`, `undefined`, `0`, `false`, `''`) is refused.
   */
  function Registered(modules: map<string, JsValue>, name: JsValue, m: JsValue): (r: Result<map<string, JsValue>>)
    ensures r.Err? <==> !ValidName(name) || !Truthy(m)
    ensures !ValidName(name) ==> r == Err(InvalidName)
    ensures ValidName(name) && !Truthy(m) ==> r == Err(MissingModule)
    ensures r.Ok? ==> r.value.Keys == modules.Keys + {name.s} && r.value[name.s] == m
    ensures r.Ok? ==> forall n :: n in modules && n != name.s ==> r.value[n] == modules[n]
  {
    if !ValidName(name) then Err(InvalidName)
    else if !Truthy(m) then Err(MissingModule)
    else Ok(modules[name.s := m])
  }

  /** `get(name)`: the registered module, or `undefined`. */
  function Get(modules: map<string, JsValue>, name: string): (v: JsValue)
    ensures name in modules ==> v == modules[name]
    ensures name !in modules ==> v == Undefined
  {
    if name in modules then modules[name] else Undefined
  }

  /** The `getModule` exposed on `window`: `registry.get(name) || {}`. */
  function WindowGetModule(modules: map<string, JsValue>, name: string): (v: JsValue)
    ensures name !in modules ==> v == EmptyObject
    ensures name in modules && Truthy(modules[name]) ==> v == modules[name]
  {
    Or(Get(modules, name), EmptyObject)
  }

  /** Every entry of a table built by `register` has a non-empty name and a truthy module. */
  ghost predicate WellFormed(modules: map<string, JsValue>) {
    forall n :: n in modules ==> n != "" && Truthy(modules[n])
  }

  /** Registration keeps the table well formed, whether it succeeds or throws. */
  lemma {:induction false} RegisteredWellFormed(modules: map<string, JsValue>, name: JsValue, m: JsValue)
    requires WellFormed(modules)
    ensures Registered(modules, name, m).Ok? ==> WellFormed(Registered(modules, name, m).value)
  {
  }

  /** After a successful registration, `get` returns exactly the module registered. */
  lemma {:induction false} GetAfterRegister(modules: map<string, JsValue>, name: string, m: JsValue, other: string)
    requires name != "" && Truthy(m)
    ensures Get(Registered(modules, Str(name), m).value, name) == m
    ensures other != name ==> Get(Registered(modules, Str(name), m).value, other) == Get(modules, other)
  {
  }

  /** Registering a name twice keeps the second module only. */
  lemma {:induction false} RegisterOverwrites(modules: map<string, JsValue>, name: string, m1: JsValue, m2: JsValue)
    requires name != "" && Truthy(m1) && Truthy(m2)
    ensures Registered(Registered(modules, Str(name), m1).value, Str(name), m2) == Registered(modules, Str(name), m2)
  {
    assert modules[name := m1][name := m2] == modules[name := m2];
  }

  /** In a well-formed table the window's `getModule` never yields a falsy value. */
  lemma {:induction false} WindowGetModuleTruthy(modules: map<string, JsValue>, name: string)
    requires WellFormed(modules)
    ensures Truthy(WindowGetModule(modules, name))
    ensures name in modules ==> WindowGetModule(modules, name) == Get(modules, name)
  {
  }

  /** The registry object behind `registerModule` and `getModule`. */
  class Registry {
    var modules: map<string, JsValue>

    /** The entries are those `register` lets through. */
    ghost predicate Valid()
      reads this
    {
      WellFormed(modules)
    }

    constructor ()
      ensures modules == map[] && Valid()
    {
      modules := map[];
    }

    /** `register(name, m)`: a refused registration throws and changes nothing. */
    method Register(name: JsValue, m: JsValue) returns (r: Result<()>)
      modifies this
      ensures var t := Registered(old(modules), name, m);
        && (r.Ok? <==> t.Ok?)
        && (t.Ok? ==> modules == t.value)
        && (t.Err? ==> r == Err(t.message) && modules == old(modules))
      ensures old(Valid()) ==> Valid()
    {
      if !name.Str? || name.s == "" {
        return Err(InvalidName);
      }
      if !Truthy(m) {
        return Err(MissingModule);
      }
      modules := modules[name.s := m];
      r := Ok(());
    }

    function GetModule(name: string): (v: JsValue)
      reads this
      ensures v == Get(modules, name)
    {
      if name in modules then modules[name] else Undefined
    }

    function Has(name: string): (b: bool)
      reads this
      ensures Valid() ==> (b <==> Get(modules, name) != Undefined)
    {
      name in modules
    }

    /** `getAll()`: a plain object with one property per entry. */
    function GetAll(): (all: map<string, JsValue>)
      reads this
      ensures all.Keys == modules.Keys && forall n :: n in all ==> all[n] == Get(modules, n)
    {
      modules
    }

    /** `size()`: the number of distinct names. */
    function Size(): (n: nat)
      reads this
      ensures n == |modules.Keys|
    {
      |modules|
    }

    method Clear()
      modifies this
      ensures modules == map[] && Valid()
    {
      modules := map[];
    }
  }

  /** Registering new names grows the table by one each; re-registering keeps its size. */
  lemma {:induction false} SizeAfterRegister(modules: map<string, JsValue>, name: string, m: JsValue)
    requires name != "" && Truthy(m)
    ensures |Registered(modules, Str(name), m).value.Keys| == if name in modules then |modules.Keys| else |modules.Keys| + 1
  {
    var after := Registered(modules, Str(name), m).value;
    if name !in modules {
      assert after.Keys == modules.Keys + {name};
    } else {
      assert after.Keys == modules.Keys;
    }
  }
}
