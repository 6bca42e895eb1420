/**
 * The runtime's fractal loading, packages/fractal/src/index.ts and packages/fractal/src/index.tsx:
 * `loadModule` (fetch a module's text and evaluate it with `React` lent on the window),
 * `useFractal` (the cache, the loads in flight and the subscribers waiting on them), the
 * `Fractal` component's output and `preload`. The two files differ in where they check HTTP
 * status; `Version` selects which one a member follows.
 *
 * `fetch`, `response.json()` and the evaluation of module text are parameters. Promises are
 * modelled by what they settle to: a load in flight is an entry of `pending` holding its
 * subscribers, and it settles through `Settle`.
 */
module RuntimeLoader {
  import opened Wrappers
  import opened JsValues

  /** index.ts or index.tsx. */
  datatype Version = TsRuntime | TsxRuntime

  /** What `fetch` resolves to, as far as the runtime reads it. */
  datatype HttpResponse = HttpResponse(ok: bool, status: nat, statusText: string, body: string)

  /** `fetch(url)`: `None` when the request itself rejects. */
  type Fetch = string -> Option<HttpResponse>

  /** The fields of the metadata JSON the runtime reads; either may be missing. */
  datatype Metadata = Metadata(url: Option<string>, styles: Option<string>)

  /** `response.json()`: `None` when the body is no JSON object. */
  type ParseMetadata = string -> Option<Metadata>

  /** What evaluating module text yields: the value and that value's `default` property. */
  datatype ModuleValue = ModuleValue(value: JsValue, defaultExport: JsValue)

  /**
   * Evaluating module text against the window's globals; `Err` when it throws. The versions
   * evaluate differently: index.ts runs `eval(code)` in `loadModule`'s own scope, index.tsx
   * runs `new Function('window', 'React', 'with (window) { return <code>; }')`, which takes
   * the text as one expression and resolves free names through the window.
   */
  type Evaluate = (Version, string, map<string, JsValue>) -> Result<ModuleValue>

  /** A loaded fractal: the component to render and its style sheet. */
  datatype Loaded = Loaded(component: JsValue, styles: Option<string>)

  /** The globals `loadModule` lends the module and removes afterwards. */
  const LentGlobals: set<string> := {"React", "react"}

  /** `${registry}/fractals/${id}`, the metadata route of a fractal. */
  function MetadataUrl(registry: string, id: string): string {
    registry + "/fractals/" + id
  }

  /** The `url` handed to `loadModule`; a missing field is stringified by `fetch`. */
  function CodeUrl(m: Metadata): string {
    if m.url.Some? then m.url.value else "undefined"
  }

  /** The decimal digits of a status code, as a template literal prints it. */
  function Decimal(n: nat): (r: string)
    ensures |r| >= 1
    decreases n
  {
    var digit := ['0' + (n % 10) as char];
    if n < 10 then digit else Decimal(n / 10) + digit
  }

  /** index.tsx's error for a module response that is not ok. */
  function ModuleStatusError(resp: HttpResponse): string {
    "Failed to load module: " + Decimal(resp.status) + " " + resp.statusText
  }

  /** The error when the request for `url` rejects. */
  const FetchFailed: string := "Failed to fetch"

  /** The globals the module text is evaluated against: `React` lent under both names. */
  function LentTo(globals: map<string, JsValue>, react: JsValue): (g: map<string, JsValue>)
    ensures g.Keys == globals.Keys + LentGlobals && g["React"] == react && g["react"] == react
    ensures forall k :: k in globals && k !in LentGlobals ==> g[k] == globals[k]
  {
    globals["React" := react]["react" := react]
  }

  /** Whether `loadModule(url)` gets as far as evaluating the module text. */
  predicate Evaluates(v: Version, fetch: Fetch, url: string) {
    fetch(url).Some? && (v.TsRuntime? || fetch(url).value.ok)
  }

  /**
   * What `loadModule(url)` settles to. index.ts evaluates whatever text comes back;
   * index.tsx first rejects a response that is not ok.
   */
  function LoadModuleResult(v: Version, fetch: Fetch, evaluate: Evaluate, globals: map<string, JsValue>,
                            react: JsValue, url: string): (r: Result<ModuleValue>)
    ensures fetch(url).None? ==> r == Err(FetchFailed)
    ensures fetch(url).Some? && v.TsxRuntime? && !fetch(url).value.ok ==> r == Err(ModuleStatusError(fetch(url).value))
    ensures Evaluates(v, fetch, url) ==> r == evaluate(v, fetch(url).value.body, LentTo(globals, react))
  {
    match fetch(url)
    case None => Err(FetchFailed)
    case Some(resp) =>
      if v.TsxRuntime? && !resp.ok then Err(ModuleStatusError(resp))
      else evaluate(v, resp.body, LentTo(globals, react))
  }

  /**
   * The window's globals after `loadModule(url)`: when the text was evaluated, `React` and
   * `react` are deleted, even if they were there before; otherwise nothing was touched.
   */
  function GlobalsAfterLoad(v: Version, fetch: Fetch, globals: map<string, JsValue>, url: string): (g: map<string, JsValue>)
    ensures Evaluates(v, fetch, url) ==> g.Keys == globals.Keys - LentGlobals
    ensures !Evaluates(v, fetch, url) ==> g == globals
    ensures forall k :: k in g ==> k in globals && g[k] == globals[k]
    ensures forall k :: k in globals && k !in LentGlobals ==> k in g
  {
    if Evaluates(v, fetch, url) then globals - LentGlobals else globals
  }

  /** The browser window; only its global properties matter here. */
  class Window {
    var globals: map<string, JsValue>

    constructor (globals0: map<string, JsValue>)
      ensures globals == globals0
    {
      globals := globals0;
    }
  }

  /**
   * `loadModule(url)`: fetch the text, lend `React` on the window, evaluate, and delete the
   * lent globals whether or not the evaluation throws.
   */
  method LoadModule(w: Window, v: Version, url: string, fetch: Fetch, evaluate: Evaluate, react: JsValue)
    returns (r: Result<ModuleValue>)
    modifies w
    ensures r == LoadModuleResult(v, fetch, evaluate, old(w.globals), react, url)
    ensures w.globals == GlobalsAfterLoad(v, fetch, old(w.globals), url)
  {
    var response := fetch(url);
    if response.None? {
      return Err(FetchFailed);
    }
    if v.TsxRuntime? && !response.value.ok {
      return Err("Failed to load module: " + Decimal(response.value.status) + " " + response.value.statusText);
    }
    w.globals := w.globals["React" := react];
    w.globals := w.globals["react" := react];
    r := evaluate(v, response.value.body, w.globals);
    w.globals := w.globals - {"React", "react"};
  }

  /** Loading a module never leaves `React` behind on the window once its text has run. */
  lemma {:induction false} LoadModuleCleansUp(v: Version, fetch: Fetch, globals: map<string, JsValue>, url: string)
    requires Evaluates(v, fetch, url)
    ensures "React" !in GlobalsAfterLoad(v, fetch, globals, url) && "react" !in GlobalsAfterLoad(v, fetch, globals, url)
  {
  }

  /** `moduleCode.default || moduleCode`; reading `.default` of `undefined` or `null` throws. */
  function ComponentOf(m: ModuleValue): (r: Result<JsValue>)
    ensures r.Err? <==> m.value == Undefined || m.value == Null
    ensures r.Ok? && Truthy(m.defaultExport) ==> r.value == m.defaultExport
    ensures r.Ok? && !Truthy(m.defaultExport) ==> r.value == m.value
  {
    if m.value == Undefined || m.value == Null then Err("Cannot read properties of " + (if m.value == Null then "null" else "undefined"))
    else Ok(Or(m.defaultExport, m.value))
  }

  /**
   * What a load started by `useFractal` settles to: the metadata must come back ok and parse,
   * the module must load and yield a component; any failure on the way settles to `null`
   * (`None`). `globals` is the window's state when the module is loaded.
   */
  function LoadFractal(v: Version, registry: string, id: string, fetch: Fetch, parse: ParseMetadata,
                       evaluate: Evaluate, globals: map<string, JsValue>, react: JsValue): (r: Option<Loaded>)
    ensures r.Some? ==> fetch(MetadataUrl(registry, id)).Some? && fetch(MetadataUrl(registry, id)).value.ok
    ensures r.Some? ==> var m := parse(fetch(MetadataUrl(registry, id)).value.body);
                        && m.Some? && r.value.styles == m.value.styles
                        && LoadModuleResult(v, fetch, evaluate, globals, react, CodeUrl(m.value)).Ok?
    ensures fetch(MetadataUrl(registry, id)).Some? && fetch(MetadataUrl(registry, id)).value.ok
            && parse(fetch(MetadataUrl(registry, id)).value.body).Some?
            ==> var m := parse(fetch(MetadataUrl(registry, id)).value.body).value;
                var lm := LoadModuleResult(v, fetch, evaluate, globals, react, CodeUrl(m));
                (r.Some? <==> lm.Ok? && ComponentOf(lm.value).Ok?)
  {
    var meta := fetch(MetadataUrl(registry, id));
    if meta.None? || !meta.value.ok then None
    else
      match parse(meta.value.body)
      case None => None
      case Some(m) =>
        match LoadModuleResult(v, fetch, evaluate, globals, react, CodeUrl(m))
        case Err(_) => None
        case Ok(mv) =>
          match ComponentOf(mv)
          case Err(_) => None
          case Ok(c) => Some(Loaded(c, m.styles))
  }

  /** Whether both versions' evaluations of `code` against `globals` have the same outcome. */
  predicate EvaluationsAgree(evaluate: Evaluate, code: string, globals: map<string, JsValue>) {
    evaluate(TsRuntime, code, globals) == evaluate(TsxRuntime, code, globals)
  }

  /**
   * Where the module response is ok and both ways of evaluating its text agree (as for the
   * single expression the registry's code route serves), both versions settle alike; where
   * the response is not ok, index.tsx settles to `null` while index.ts evaluates the error
   * page as code.
   */
  lemma {:induction false} LoadFractalVersions(registry: string, id: string, fetch: Fetch, parse: ParseMetadata,
                                               evaluate: Evaluate, globals: map<string, JsValue>, react: JsValue, url: string)
    requires fetch(MetadataUrl(registry, id)).Some? && fetch(MetadataUrl(registry, id)).value.ok
    requires parse(fetch(MetadataUrl(registry, id)).value.body).Some?
    requires CodeUrl(parse(fetch(MetadataUrl(registry, id)).value.body).value) == url
    ensures fetch(url).Some? && fetch(url).value.ok
            && EvaluationsAgree(evaluate, fetch(url).value.body, LentTo(globals, react)) ==>
              LoadFractal(TsRuntime, registry, id, fetch, parse, evaluate, globals, react)
              == LoadFractal(TsxRuntime, registry, id, fetch, parse, evaluate, globals, react)
    ensures fetch(url).Some? && !fetch(url).value.ok ==>
              LoadFractal(TsxRuntime, registry, id, fetch, parse, evaluate, globals, react).None?
  {
  }

  // ---------------------------------------------------------------------------------------
  // useFractal: the module-level cache and the loads in flight

  /** `cache` and `pending` of the runtime module; a pending entry lists its subscribers. */
  datatype LoaderState = LoaderState(cache: map<string, Loaded>, pending: map<string, seq<nat>>)

  /** What the hook's effect does for `id`. */
  datatype Effect =
    | NoLoad                   // no registry, or already cached
    | AwaitPending             // subscribe to the load in flight
    | StartLoad(url: string)   // start a load from this metadata URL

  /** `registry || contextRegistry`. */
  function EffectiveRegistry(registry: Option<string>, context: string): (r: string)
    ensures registry.Some? && registry.value != "" ==> r == registry.value
    ensures !(registry.Some? && registry.value != "") ==> r == context
  {
    if registry.Some? && registry.value != "" then registry.value else context
  }

  /** The hook's initial state: `cache.get(id)`. */
  function InitialModule(st: LoaderState, id: string): (m: Option<Loaded>)
    ensures m.Some? <==> id in st.cache
    ensures m.Some? ==> m.value == st.cache[id]
  {
    if id in st.cache then Some(st.cache[id]) else None
  }

  /** The effect's decision; the cache and the pending table are keyed by `id` alone. */
  function Decide(st: LoaderState, id: string, registry: string): (e: Effect)
    ensures e == NoLoad <==> registry == "" || id in st.cache
    ensures e == AwaitPending <==> registry != "" && id !in st.cache && id in st.pending
    ensures e.StartLoad? <==> registry != "" && id !in st.cache && id !in st.pending
    ensures e.StartLoad? ==> e.url == MetadataUrl(registry, id)
  {
    if registry == "" || id in st.cache then NoLoad
    else if id in st.pending then AwaitPending
    else StartLoad(MetadataUrl(registry, id))
  }

  /** The state after the effect ran for `subscriber`: it joins the load in flight, or starts one. */
  function AfterEffect(st: LoaderState, id: string, registry: string, subscriber: nat): (st': LoaderState)
    ensures st'.cache == st.cache
    ensures Decide(st, id, registry) == NoLoad ==> st' == st
    ensures Decide(st, id, registry) == AwaitPending ==> st'.pending == st.pending[id := st.pending[id] + [subscriber]]
    ensures Decide(st, id, registry).StartLoad? ==> st'.pending == st.pending[id := [subscriber]]
  {
    match Decide(st, id, registry)
    case NoLoad => st
    case AwaitPending => st.(pending := st.pending[id := st.pending[id] + [subscriber]])
    case StartLoad(_) => st.(pending := st.pending[id := [subscriber]])
  }

  /**
   * The state after the load of `id` settles: a loaded fractal is cached, then the entry is
   * removed from `pending`; a failed load only removes the entry.
   */
  function AfterSettle(st: LoaderState, id: string, outcome: Option<Loaded>): (st': LoaderState)
    ensures st'.pending == st.pending - {id}
    ensures outcome.Some? ==> st'.cache == st.cache[id := outcome.value]
    ensures outcome.None? ==> st'.cache == st.cache
  {
    LoaderState(if outcome.Some? then st.cache[id := outcome.value] else st.cache, st.pending - {id})
  }

  /** What each subscriber of a settled load receives: the same outcome, in subscription order. */
  function Deliveries(subscribers: seq<nat>, outcome: Option<Loaded>): (d: seq<(nat, Option<Loaded>)>)
    ensures |d| == |subscribers|
    ensures forall k :: 0 <= k < |d| ==> d[k] == (subscribers[k], outcome)
  {
    seq(|subscribers|, k requires 0 <= k < |subscribers| => (subscribers[k], outcome))
  }

  /** No id is at once cached and in flight: a load starts only for an id that is neither. */
  ghost predicate Disjoint(st: LoaderState) {
    forall id :: id in st.cache ==> id !in st.pending
  }

  lemma {:induction false} EffectKeepsDisjoint(st: LoaderState, id: string, registry: string, subscriber: nat)
    requires Disjoint(st)
    ensures Disjoint(AfterEffect(st, id, registry, subscriber))
  {
    var st' := AfterEffect(st, id, registry, subscriber);
    forall x | x in st'.cache
      ensures x !in st'.pending
    {
      assert x in st.cache;
    }
  }

  lemma {:induction false} SettleKeepsDisjoint(st: LoaderState, id: string, outcome: Option<Loaded>)
    requires Disjoint(st)
    ensures Disjoint(AfterSettle(st, id, outcome))
  {
  }

  /** While a load of `id` is in flight, further renders subscribe to it instead of fetching again. */
  lemma {:induction false} OneLoadPerId(st: LoaderState, id: string, r1: string, r2: string, s1: nat, s2: nat)
    requires r1 != "" && r2 != ""
    requires Decide(st, id, r1).StartLoad?
    ensures Decide(AfterEffect(st, id, r1, s1), id, r2) == AwaitPending
    ensures AfterEffect(AfterEffect(st, id, r1, s1), id, r2, s2).pending[id] == [s1, s2]
  {
  }

  /**
   * A cached fractal is never fetched again, from any registry: the cache is keyed by `id`
   * alone, so a render that names a different registry still gets the first registry's fractal.
   */
  lemma {:induction false} CachedFromAnyRegistry(st: LoaderState, id: string, registry: string, l: Loaded)
    ensures Decide(AfterSettle(st, id, Some(l)), id, registry) == NoLoad
    ensures InitialModule(AfterSettle(st, id, Some(l)), id) == Some(l)
  {
  }

  /** A failed load is forgotten: the next render with a registry starts a fresh one. */
  lemma {:induction false} FailureAllowsRetry(st: LoaderState, id: string, registry: string)
    requires registry != "" && id !in st.cache
    ensures Decide(AfterSettle(st, id, None), id, registry) == StartLoad(MetadataUrl(registry, id))
  {
  }

  /** Without an effective registry nothing is ever loaded and the state is left alone. */
  lemma {:induction false} NoRegistryNoLoad(st: LoaderState, id: string, subscriber: nat)
    ensures Decide(st, id, "") == NoLoad && AfterEffect(st, id, "", subscriber) == st
  {
  }

  /** The module-level `cache` and `pending` maps shared by every `useFractal`. */
  class Loader {
    var cache: map<string, Loaded>
    var pending: map<string, seq<nat>>

    function State(): LoaderState
      reads this
    {
      LoaderState(cache, pending)
    }

    constructor ()
      ensures cache == map[] && pending == map[]
      ensures Disjoint(State())
    {
      cache := map[];
      pending := map[];
    }

    /**
     * The effect of `useFractal(id, registry)` for the subscriber `subscriber` (its `setModule`):
     * nothing without a registry or for a cached id; subscribe to a load in flight; or start
     * one, returning the metadata URL to fetch.
     */
    method UseFractalEffect(id: string, registry: Option<string>, context: string, subscriber: nat)
      returns (e: Effect)
      modifies this
      ensures e == Decide(old(State()), id, EffectiveRegistry(registry, context))
      ensures State() == AfterEffect(old(State()), id, EffectiveRegistry(registry, context), subscriber)
    {
      var effective := if registry.Some? && registry.value != "" then registry.value else context;
      if effective == "" || id in cache {
        return NoLoad;
      }
      if id in pending {
        pending := pending[id := pending[id] + [subscriber]];
        return AwaitPending;
      }
      e := StartLoad(effective + "/fractals/" + id);
      pending := pending[id := [subscriber]];
    }

    /**
     * The load of `id` settles to `outcome`: the cache and the pending table are updated and
     * every subscriber receives the outcome.
     */
    method Settle(id: string, outcome: Option<Loaded>) returns (delivered: seq<(nat, Option<Loaded>)>)
      requires id in pending
      modifies this
      ensures State() == AfterSettle(old(State()), id, outcome)
      ensures delivered == Deliveries(old(pending)[id], outcome)
    {
      var subscribers := pending[id];
      if outcome.Some? {
        cache := cache[id := outcome.value];
      }
      pending := pending - {id};
      delivered := seq(|subscribers|, k requires 0 <= k < |subscribers| => (subscribers[k], outcome));
    }
  }

  // ---------------------------------------------------------------------------------------
  // The Fractal component

  /** What the `Fractal` component renders. */
  datatype Node =
    | FallbackNode(fallback: JsValue)
    | StyleNode(css: string)
    | ComponentNode(component: JsValue, props: JsValue)

  /**
   * The fallback while nothing is loaded; else a `<style>` element when the fractal has a
   * non-empty style sheet, followed by the component with the given props.
   */
  function Render(m: Option<Loaded>, props: JsValue, fallback: JsValue): (nodes: seq<Node>)
    ensures m.None? ==> nodes == [FallbackNode(fallback)]
    ensures m.Some? ==> |nodes| >= 1 && nodes[|nodes| - 1] == ComponentNode(m.value.component, props)
    ensures m.Some? ==> (|nodes| == 2 <==> m.value.styles.Some? && m.value.styles.value != "")
    ensures m.Some? && |nodes| == 2 ==> nodes[0] == StyleNode(m.value.styles.value)
    ensures |nodes| <= 2
  {
    match m
    case None => [FallbackNode(fallback)]
    case Some(l) =>
      (if l.styles.Some? && l.styles.value != "" then [StyleNode(l.styles.value)] else [])
      + [ComponentNode(l.component, props)]
  }

  // ---------------------------------------------------------------------------------------
  // preload

  /**
   * The module URL `preload` goes on to load for `id`, if any: none for a cached id or a
   * failed request or parse. index.ts parses the metadata body whatever the status;
   * index.tsx only an ok one.
   */
  function PreloadTarget(v: Version, cached: set<string>, registry: string, id: string,
                         fetch: Fetch, parse: ParseMetadata): (u: Option<string>)
    ensures id in cached ==> u.None?
    ensures u.Some? ==> fetch(MetadataUrl(registry, id)).Some?
    ensures u.Some? && v.TsxRuntime? ==> fetch(MetadataUrl(registry, id)).value.ok
    ensures u.Some? ==> var m := parse(fetch(MetadataUrl(registry, id)).value.body);
                        m.Some? && u.value == CodeUrl(m.value)
  {
    if id in cached then None
    else
      match fetch(MetadataUrl(registry, id))
      case None => None
      case Some(resp) =>
        if v.TsxRuntime? && !resp.ok then None
        else
          match parse(resp.body)
          case None => None
          case Some(m) => Some(CodeUrl(m))
  }

  /** The module URLs `preload(registry, ...ids)` loads, in the order of `ids`. */
  function PreloadTargets(v: Version, cached: set<string>, registry: string, ids: seq<string>,
                          fetch: Fetch, parse: ParseMetadata): (urls: seq<string>)
    ensures |urls| <= |ids|
    decreases |ids|
  {
    if ids == [] then []
    else
      var last := PreloadTarget(v, cached, registry, ids[|ids| - 1], fetch, parse);
      PreloadTargets(v, cached, registry, ids[..|ids| - 1], fetch, parse)
      + (if last.Some? then [last.value] else [])
  }

  /** Preloading only cached ids loads nothing. */
  lemma {:induction false} PreloadSkipsCached(v: Version, cached: set<string>, registry: string, ids: seq<string>,
                                              fetch: Fetch, parse: ParseMetadata)
    requires forall k :: 0 <= k < |ids| ==> ids[k] in cached
    ensures PreloadTargets(v, cached, registry, ids, fetch, parse) == []
    decreases |ids|
  {
    if ids != [] {
      PreloadSkipsCached(v, cached, registry, ids[..|ids| - 1], fetch, parse);
    }
  }

  /** The window's globals after any number of module loads: as before, or without the lent ones. */
  ghost predicate GlobalsRestored(before: map<string, JsValue>, after: map<string, JsValue>) {
    after == before || after == before - LentGlobals
  }

  /**
   * `preload(registry, ...ids)`: loads the module of every id it finds metadata for and
   * throws the results away. Failures are swallowed, the loader's cache and pending table
   * are not written, and the window keeps its globals up to the lent ones.
   */
  method Preload(loader: Loader, w: Window, v: Version, registry: string, ids: seq<string>,
                 fetch: Fetch, parse: ParseMetadata, evaluate: Evaluate, react: JsValue)
    returns (loaded: seq<string>)
    modifies w
    ensures loaded == PreloadTargets(v, loader.cache.Keys, registry, ids, fetch, parse)
    ensures GlobalsRestored(old(w.globals), w.globals)
  {
    loaded := [];
    var i := 0;
    while i < |ids|
      invariant 0 <= i <= |ids|
      invariant loaded == PreloadTargets(v, loader.cache.Keys, registry, ids[..i], fetch, parse)
      invariant GlobalsRestored(old(w.globals), w.globals)
    {
      assert ids[..i + 1][..i] == ids[..i];
      var id := ids[i];
      var target := PreloadTarget(v, loader.cache.Keys, registry, id, fetch, parse);
      if target.Some? {
        var before := w.globals;
        var _ := LoadModule(w, v, target.value, fetch, evaluate, react);
        assert before - LentGlobals - LentGlobals == before - LentGlobals;
        assert old(w.globals) - LentGlobals - LentGlobals == old(w.globals) - LentGlobals;
        loaded := loaded + [target.value];
      }
      i := i + 1;
    }
    assert ids[..|ids|] == ids;
  }
}
