/**
 * `detectRegistryUrl` of the runtime, in its two versions: packages/fractal/src/index.ts
 * (explicit `typeof` checks; an empty location field falls back) and packages/fractal/src/index.tsx
 * (one `||` chain; the location's fields are used as they are). The environment is a parameter.
 */
module RuntimeRegistryUrl {
  import opened Wrappers
  import opened JsStrings

  /** `window.location`'s fields the URL is built from. */
  datatype Location = Location(protocol: string, hostname: string)

  /** What the page offers: `window.__ENV__?.FRACTAL_REGISTRY_URL` and `window.location`. */
  datatype Page = Page(envRegistryUrl: Option<string>, location: Location)

  /** `process.env`: `NEXT_PUBLIC_FRACTAL_REGISTRY_URL` and `NODE_ENV`. */
  datatype ProcessEnv = ProcessEnv(nextPublicRegistryUrl: Option<string>, nodeEnv: Option<string>)

  /** A string option that is set and truthy. */
  predicate Given(o: Option<string>) {
    o.Some? && o.value != ""
  }

  /** The registry's port: 8080 in production, 3001 otherwise. */
  function DefaultPort(env: Option<ProcessEnv>): string {
    if env.Some? && env.value.nodeEnv == Some("production") then "8080" else "3001"
  }

  /** `<protocol>//<hostname>:<port>`. */
  function Origin(protocol: string, hostname: string, port: string): string {
    protocol + "//" + hostname + ":" + port
  }

  /**
   * index.ts: the public environment variable (when `process` exists), else the page's `__ENV__`
   * entry, else an origin built from the page's location on the default port, `http:` and
   * `localhost` standing in for a missing window or an empty field.
   */
  function DetectRegistryUrl(env: Option<ProcessEnv>, window: Option<Page>): (url: string)
    ensures env.Some? && Given(env.value.nextPublicRegistryUrl) ==> url == env.value.nextPublicRegistryUrl.value
    ensures !(env.Some? && Given(env.value.nextPublicRegistryUrl)) && window.Some? && Given(window.value.envRegistryUrl)
            ==> url == window.value.envRegistryUrl.value
    ensures window.None? && !(env.Some? && Given(env.value.nextPublicRegistryUrl))
            ==> url == Origin("http:", "localhost", DefaultPort(env))
  {
    if env.Some? && Given(env.value.nextPublicRegistryUrl) then env.value.nextPublicRegistryUrl.value
    else if window.Some? && Given(window.value.envRegistryUrl) then window.value.envRegistryUrl.value
    else
      var protocol := if window.Some? && window.value.location.protocol != "" then window.value.location.protocol else "http:";
      var hostname := if window.Some? && window.value.location.hostname != "" then window.value.location.hostname else "localhost";
      Origin(protocol, hostname, DefaultPort(env))
  }

  /**
   * index.tsx: the same precedence, but `process` is taken to exist and the location's fields
   * are used even when empty; without a window, `http:` and `localhost`.
   */
  function DetectRegistryUrlTsx(env: ProcessEnv, window: Option<Page>): (url: string)
    ensures Given(env.nextPublicRegistryUrl) ==> url == env.nextPublicRegistryUrl.value
    ensures !Given(env.nextPublicRegistryUrl) && window.Some? && Given(window.value.envRegistryUrl)
            ==> url == window.value.envRegistryUrl.value
    ensures !Given(env.nextPublicRegistryUrl) && window.Some? && !Given(window.value.envRegistryUrl)
            ==> url == Origin(window.value.location.protocol, window.value.location.hostname, DefaultPort(Some(env)))
  {
    if Given(env.nextPublicRegistryUrl) then env.nextPublicRegistryUrl.value
    else if window.Some? && Given(window.value.envRegistryUrl) then window.value.envRegistryUrl.value
    else
      var protocol := if window.Some? then window.value.location.protocol else "http:";
      var hostname := if window.Some? then window.value.location.hostname else "localhost";
      Origin(protocol, hostname, DefaultPort(Some(env)))
  }

  /**
   * The two versions agree wherever `process` exists and the page, if any, has a non-empty
   * protocol and hostname; they differ only in how an empty location field is treated.
   */
  lemma {:induction false} DetectVersionsAgree(env: ProcessEnv, window: Option<Page>)
    requires window.Some? ==> window.value.location.protocol != "" && window.value.location.hostname != ""
    ensures DetectRegistryUrl(Some(env), window) == DetectRegistryUrlTsx(env, window)
  {
  }

  /** An empty hostname is where the versions part: index.ts says `localhost`, index.tsx leaves it empty. */
  lemma {:induction false} DetectVersionsDifferOnEmptyHost(env: ProcessEnv, protocol: string)
    requires !Given(env.nextPublicRegistryUrl) && protocol != ""
    ensures DetectRegistryUrl(Some(env), Some(Page(None, Location(protocol, ""))))
            != DetectRegistryUrlTsx(env, Some(Page(None, Location(protocol, ""))))
  {
    var port := DefaultPort(Some(env));
    var a := Origin(protocol, "localhost", port);
    var b := Origin(protocol, "", port);
    assert |a| != |b|;
  }

  /**
   * Without an override the URL names the production port exactly when `NODE_ENV` is
   * `production`, and the development port otherwise.
   */
  lemma {:induction false} DefaultUrlPort(env: Option<ProcessEnv>, window: Option<Page>)
    requires !(env.Some? && Given(env.value.nextPublicRegistryUrl))
    requires !(window.Some? && Given(window.value.envRegistryUrl))
    ensures var url := DetectRegistryUrl(env, window);
            EndsWith(url, ":8080") <==> env.Some? && env.value.nodeEnv == Some("production")
    ensures var url := DetectRegistryUrl(env, window);
            EndsWith(url, ":3001") <==> !(env.Some? && env.value.nodeEnv == Some("production"))
  {
    var url := DetectRegistryUrl(env, window);
    var port := DefaultPort(env);
    assert url[|url| - 5..] == ":" + port;
    assert (":" + port)[1] == (if port == "8080" then '8' else '3');
  }
}
