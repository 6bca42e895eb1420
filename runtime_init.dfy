/**
 * The runtime's start-up, packages/fractal/src/index.ts and packages/fractal/src/index.tsx:
 * `autoInitialize` (run the shared-module registration once and hand out its promise) and
 * `setupFractals` (register the caller's modules, start a preload, then auto-initialize).
 * Dynamic `import()` of a shared module is the parameter `load`; a promise is named by a number.
 */
module RuntimeInit {
  import opened Wrappers
  import opened JsValues
  import opened ModuleRegistry
  import opened RuntimeLoader

  /** The modules registered on every page. */
  const BaseModules: seq<string> := ["react", "react-dom"]

  /** The modules registered in addition on a Next.js page. */
  const NextModules: seq<string> :=
    ["next/navigation", "next/link", "next/image", "next/router", "next/head", "next/dynamic", "next/script"]

  /** `window.next || window.__NEXT_DATA__`. */
  predicate IsNextJs(next: JsValue, nextData: JsValue) {
    Truthy(next) || Truthy(nextData)
  }

  /** The names `performInitialization` imports and registers. */
  function SharedModules(isNext: bool): (names: seq<string>)
    ensures forall i, j :: 0 <= i < j < |names| ==> names[i] != names[j]
    ensures "react" in names && "react-dom" in names
    ensures "next/router" in names <==> isNext
  {
    if isNext then BaseModules + NextModules else BaseModules
  }

  /**
   * The table after importing and registering `names` in order: an import that rejects is
   * skipped, and so is a module `register` refuses (its error is caught).
   */
  function RegisterLoaded(modules: map<string, JsValue>, names: seq<string>, load: string -> Option<JsValue>)
    : (r: map<string, JsValue>)
    ensures modules.Keys <= r.Keys
    decreases |names|
  {
    if names == [] then modules
    else
      var before := RegisterLoaded(modules, names[..|names| - 1], load);
      var name := names[|names| - 1];
      match load(name)
      case None => before
      case Some(m) =>
        match Registered(before, Str(name), m)
        case Ok(after) => after
        case Err(_) => before
  }

  /** When `names` are distinct, each one imported to a truthy module is registered to it. */
  lemma {:induction false} RegisterLoadedHas(modules: map<string, JsValue>, names: seq<string>,
                                             load: string -> Option<JsValue>, k: nat)
    requires forall i, j :: 0 <= i < j < |names| ==> names[i] != names[j]
    requires k < |names| && names[k] != "" && load(names[k]).Some? && Truthy(load(names[k]).value)
    ensures Get(RegisterLoaded(modules, names, load), names[k]) == load(names[k]).value
    decreases |names|
  {
    var n := |names|;
    if k < n - 1 {
      RegisterLoadedHas(modules, names[..n - 1], load, k);
      RegisterLoadedOthers(RegisterLoaded(modules, names[..n - 1], load), names[n - 1], load, names[k]);
    }
  }

  /** One registration step leaves the entries of other names alone. */
  lemma {:induction false} RegisterLoadedOthers(before: map<string, JsValue>, name: string,
                                                load: string -> Option<JsValue>, other: string)
    requires other != name
    ensures Get(RegisterLoaded(before, [name], load), other) == Get(before, other)
  {
    assert [name][..0] == [];
  }

  /** Names not imported keep their entries, so a caller's own registration survives start-up. */
  lemma {:induction false} RegisterLoadedKeeps(modules: map<string, JsValue>, names: seq<string>,
                                               load: string -> Option<JsValue>, other: string)
    requires other !in names
    ensures Get(RegisterLoaded(modules, names, load), other) == Get(modules, other)
    decreases |names|
  {
    var n := |names|;
    if n > 0 {
      assert other != names[n - 1];
      RegisterLoadedKeeps(modules, names[..n - 1], load, other);
    }
  }

  /** The shared-module table after `performInitialization`; without a window nothing is done. */
  function InitializedModules(modules: map<string, JsValue>, hasWindow: bool, isNext: bool,
                              load: string -> Option<JsValue>): (r: map<string, JsValue>)
    ensures !hasWindow ==> r == modules
    ensures hasWindow ==> r == RegisterLoaded(modules, SharedModules(isNext), load)
  {
    if hasWindow then RegisterLoaded(modules, SharedModules(isNext), load) else modules
  }

  /** With a window, a `react` import that resolves to a truthy module is registered. */
  lemma {:induction false} InitializedHasReact(modules: map<string, JsValue>, isNext: bool,
                                               load: string -> Option<JsValue>)
    requires load("react").Some? && Truthy(load("react").value)
    ensures Get(InitializedModules(modules, true, isNext, load), "react") == load("react").value
  {
    var names := SharedModules(isNext);
    assert names[0] == "react";
    RegisterLoadedHas(modules, names, load, 0);
  }

  /**
   * `performInitialization`: import every shared module and register it. The source runs the
   * imports concurrently; the names are distinct, so the order does not matter.
   */
  method PerformInitialization(reg: Registry, hasWindow: bool, isNext: bool, load: string -> Option<JsValue>)
    modifies reg
    ensures reg.modules == InitializedModules(old(reg.modules), hasWindow, isNext, load)
  {
    if !hasWindow {
      return;
    }
    var names := if isNext then BaseModules + NextModules else BaseModules;
    var i := 0;
    while i < |names|
      invariant 0 <= i <= |names|
      invariant reg.modules == RegisterLoaded(old(reg.modules), names[..i], load)
    {
      assert names[..i + 1][..i] == names[..i];
      var m := load(names[i]);
      if m.Some? {
        var _ := reg.Register(Str(names[i]), m.value);
      }
      i := i + 1;
    }
    assert names[..|names|] == names;
  }

  /** The promise `autoInitialize` hands out: that of the one run, or index.ts's fresh resolved one. */
  datatype InitPromise = InitRun(run: nat) | AlreadyResolved

  /**
   * The closure state of `autoInitialize`. `initialized` exists in index.ts only, where it is
   * set once a run with a window has finished; `runs` counts runs of the initialization.
   */
  class Initializer {
    const version: Version
    var initPromise: Option<nat>
    var initialized: bool
    ghost var runs: nat

    /** At most one run, remembered by its promise; `initialized` only after it, and only in index.ts. */
    ghost predicate Valid()
      reads this
    {
      && runs <= 1
      && (initPromise.None? <==> runs == 0)
      && (initialized ==> initPromise.Some? && version.TsRuntime?)
    }

    constructor (v: Version)
      ensures version == v && initPromise == None && !initialized && runs == 0
      ensures Valid()
    {
      version := v;
      initPromise := None;
      initialized := false;
      runs := 0;
    }

    /**
     * `autoInitialize()`. The first call runs the initialization (under the new promise
     * `newPromise`); later calls return that promise, except that index.ts answers an already
     * resolved promise once a run with a window has finished.
     */
    method AutoInitialize(reg: Registry, hasWindow: bool, isNext: bool, load: string -> Option<JsValue>, newPromise: nat)
      returns (p: InitPromise)
      requires Valid()
      modifies this, reg
      ensures Valid()
      ensures old(initPromise).Some? ==>
                && runs == old(runs) && initPromise == old(initPromise) && initialized == old(initialized)
                && reg.modules == old(reg.modules)
                && p == (if old(initialized) then AlreadyResolved else InitRun(old(initPromise).value))
      ensures old(initPromise).None? ==>
                && runs == 1 && initPromise == Some(newPromise) && p == InitRun(newPromise)
                && reg.modules == InitializedModules(old(reg.modules), hasWindow, isNext, load)
                && (initialized <==> version.TsRuntime? && hasWindow)
    {
      if initialized {
        return AlreadyResolved;
      }
      if initPromise.Some? {
        return InitRun(initPromise.value);
      }
      initPromise := Some(newPromise);
      runs := runs + 1;
      PerformInitialization(reg, hasWindow, isNext, load);
      if version.TsRuntime? && hasWindow {
        initialized := true;
      }
      p := InitRun(newPromise);
    }
  }

  // ---------------------------------------------------------------------------------------
  // setupFractals

  /** The table after registering `entries` in order, and the error that stopped it, if any. */
  datatype Registration = Registration(modules: map<string, JsValue>, error: Option<string>)

  /**
   * `Object.entries(config.modules).forEach(([name, m]) => registerModule(name, m))`: the
   * first entry `register` refuses throws out of `setupFractals`, so the entries after it are
   * not registered while those before it stay registered.
   */
  function RegisterEntries(modules: map<string, JsValue>, entries: seq<(string, JsValue)>): (r: Registration)
    decreases |entries|
  {
    if entries == [] then Registration(modules, None)
    else
      var before := RegisterEntries(modules, entries[..|entries| - 1]);
      var e := entries[|entries| - 1];
      if before.error.Some? then before
      else
        match Registered(before.modules, Str(e.0), e.1)
        case Ok(after) => Registration(after, None)
        case Err(msg) => Registration(before.modules, Some(msg))
  }

  /** An entry `register` accepts. */
  predicate Acceptable(e: (string, JsValue)) {
    e.0 != "" && Truthy(e.1)
  }

  /** Registration of the entries fails exactly when one of them is refused. */
  lemma {:induction false} RegisterEntriesFails(modules: map<string, JsValue>, entries: seq<(string, JsValue)>)
    ensures RegisterEntries(modules, entries).error.None? <==> forall k :: 0 <= k < |entries| ==> Acceptable(entries[k])
    decreases |entries|
  {
    if entries != [] {
      var n := |entries|;
      RegisterEntriesFails(modules, entries[..n - 1]);
      assert forall k :: 0 <= k < n - 1 ==> entries[..n - 1][k] == entries[k];
    }
  }

  /** Once an entry is refused, the later entries change nothing. */
  lemma {:induction false} RegisterEntriesStops(modules: map<string, JsValue>, entries: seq<(string, JsValue)>, i: nat)
    requires i <= |entries|
    requires RegisterEntries(modules, entries[..i]).error.Some?
    ensures RegisterEntries(modules, entries) == RegisterEntries(modules, entries[..i])
    decreases |entries| - i
  {
    if i < |entries| {
      assert entries[..i + 1][..i] == entries[..i];
      RegisterEntriesStops(modules, entries, i + 1);
    } else {
      assert entries[..i] == entries;
    }
  }

  /** The `forEach` over the entries: registers them in order and stops at the first refused one. */
  method RegisterAll(reg: Registry, entries: seq<(string, JsValue)>) returns (error: Option<string>)
    modifies reg
    ensures Registration(reg.modules, error) == RegisterEntries(old(reg.modules), entries)
  {
    var i := 0;
    error := None;
    while i < |entries| && error.None?
      invariant 0 <= i <= |entries|
      invariant Registration(reg.modules, error) == RegisterEntries(old(reg.modules), entries[..i])
    {
      assert entries[..i + 1][..i] == entries[..i];
      var added := reg.Register(Str(entries[i].0), entries[i].1);
      if added.Err? {
        error := Some(added.message);
      }
      i := i + 1;
    }
    if error.Some? {
      RegisterEntriesStops(old(reg.modules), entries, i);
    } else {
      assert entries[..|entries|] == entries;
    }
  }

  /** The arguments of `setupFractals`; an absent `config` is the one with every field absent. */
  datatype SetupConfig = SetupConfig(registryUrl: Option<string>, preload: Option<seq<string>>,
                                     modules: Option<seq<(string, JsValue)>>)

  /** `config?.preload && config?.registryUrl`: an empty list still counts, an empty URL does not. */
  predicate PreloadRequested(config: SetupConfig) {
    config.preload.Some? && config.registryUrl.Some? && config.registryUrl.value != ""
  }

  /** The entries `setupFractals` registers. */
  function EntriesOf(config: SetupConfig): seq<(string, JsValue)> {
    if config.modules.Some? then config.modules.value else []
  }

  /** What the environment offers `setupFractals`: the page, the oracles and a name for a new promise. */
  datatype SetupEnv = SetupEnv(hasWindow: bool, isNext: bool, load: string -> Option<JsValue>, fetch: Fetch,
                               parse: ParseMetadata, evaluate: Evaluate, react: JsValue, newPromise: nat)

  /**
   * `setupFractals(config)`: register the given modules (a refused one throws, ending the
   * call), preload when both a list and a registry are given, then return `autoInitialize()`.
   * `preloaded` are the module URLs the preload loaded.
   */
  method SetupFractals(reg: Registry, init: Initializer, loader: Loader, w: Window, config: SetupConfig, env: SetupEnv)
    returns (r: Result<InitPromise>, preloaded: seq<string>)
    requires init.Valid()
    modifies reg, init, w
    ensures init.Valid()
    ensures var reg0 := RegisterEntries(old(reg.modules), EntriesOf(config));
            && (r.Err? <==> reg0.error.Some?)
            && (r.Err? ==> r.message == reg0.error.value && reg.modules == reg0.modules
                           && preloaded == [] && w.globals == old(w.globals) && init.runs == old(init.runs))
            && (r.Ok? && old(init.initPromise).Some? ==> reg.modules == reg0.modules)
            && (r.Ok? && old(init.initPromise).None? ==>
                  reg.modules == InitializedModules(reg0.modules, env.hasWindow, env.isNext, env.load))
    ensures r.Ok? && PreloadRequested(config) ==>
              preloaded == PreloadTargets(init.version, loader.cache.Keys, config.registryUrl.value,
                                          config.preload.value, env.fetch, env.parse)
    ensures r.Ok? && !PreloadRequested(config) ==> preloaded == [] && w.globals == old(w.globals)
    ensures GlobalsRestored(old(w.globals), w.globals)
  {
    var error := RegisterAll(reg, if config.modules.Some? then config.modules.value else []);
    if error.Some? {
      return Err(error.value), [];
    }
    preloaded := [];
    if config.preload.Some? && config.registryUrl.Some? && config.registryUrl.value != "" {
      preloaded := Preload(loader, w, init.version, config.registryUrl.value, config.preload.value,
                           env.fetch, env.parse, env.evaluate, env.react);
    }
    var p := init.AutoInitialize(reg, env.hasWindow, env.isNext, env.load, env.newPromise);
    r := Ok(p);
  }
}
