/**
 * packages/fractal-plugin/src/nextjs-plugin.ts: `withFractal(config)(nextConfig)`, which
 * returns the Next.js configuration with a webpack hook that adds the fractal webpack plugin.
 * A configuration is its other fields (kept as opaque values) and its optional webpack hook;
 * the webpack configuration is its plugin list, absent when webpack gives none.
 */
module NextjsPlugin {
  import opened Wrappers
  import opened JsValues

  /** `autoUpload`: a flag, or a flag per mode where either may be absent. */
  datatype AutoUpload = UploadAlways(b: bool) | UploadByMode(development: Option<bool>, production: Option<bool>)

  datatype FractalNextConfig = FractalNextConfig(registryUrl: string, autoUpload: Option<AutoUpload>, enabled: Option<bool>)

  /** What the fractal webpack plugin is constructed with. */
  datatype PluginOptions = PluginOptions(registryUrl: string, watch: bool, autoUpload: bool, projectRoot: string)

  /** The webpack configuration as far as the hook touches it. */
  datatype WebpackConfig = WebpackConfig(plugins: Option<seq<PluginOptions>>, rest: JsValue)

  /** The context Next.js passes to the hook. */
  datatype WebpackContext = WebpackContext(dev: bool, dir: string)

  /** A webpack hook; `None` stands for a hook returning `null` or `undefined`. */
  type Hook = (WebpackConfig, WebpackContext) -> Option<WebpackConfig>

  datatype NextConfig = NextConfig(fields: map<string, JsValue>, webpack: Option<Hook>)

  /**
   * `shouldUpload`: a flag is used as it is; otherwise the development entry (default on) in
   * development and the production entry (default off) elsewhere. No `autoUpload` means on.
   */
  function ShouldUpload(autoUpload: Option<AutoUpload>, dev: bool): (b: bool)
    ensures autoUpload.None? ==> b
    ensures autoUpload.Some? && autoUpload.value.UploadAlways? ==> b == autoUpload.value.b
    ensures autoUpload.Some? && autoUpload.value.UploadByMode? && dev ==>
              b == autoUpload.value.development.GetOr(true)
    ensures autoUpload.Some? && autoUpload.value.UploadByMode? && !dev ==>
              b == autoUpload.value.production.GetOr(false)
  {
    match autoUpload.GetOr(UploadAlways(true))
    case UploadAlways(b) => b
    case UploadByMode(development, production) => if dev then development.GetOr(true) else production.GetOr(false)
  }

  /** An empty per-mode object uploads in development and not in production. */
  lemma {:induction false} EmptyModesUploadInDevelopmentOnly()
    ensures ShouldUpload(Some(UploadByMode(None, None)), true)
    ensures !ShouldUpload(Some(UploadByMode(None, None)), false)
  {
  }

  /** The options of the plugin the hook adds. */
  function PluginFor(config: FractalNextConfig, context: WebpackContext): (o: PluginOptions)
    ensures o.registryUrl == config.registryUrl
    ensures o.watch == context.dev && o.projectRoot == context.dir
    ensures o.autoUpload == ShouldUpload(config.autoUpload, context.dev)
  {
    PluginOptions(config.registryUrl, context.dev, ShouldUpload(config.autoUpload, context.dev), context.dir)
  }

  /**
   * The hook `withFractal` installs: push the plugin (only where a plugin list exists), then
   * hand the configuration to the user's own hook, whose non-null result wins.
   */
  function FractalHook(config: FractalNextConfig, user: Option<Hook>, wc: WebpackConfig, context: WebpackContext)
    : (r: WebpackConfig)
    ensures user.None? ==> r.rest == wc.rest && (r.plugins.Some? <==> wc.plugins.Some?)
    ensures user.None? && wc.plugins.Some? ==> r.plugins.value == wc.plugins.value + [PluginFor(config, context)]
  {
    var pushed := if wc.plugins.Some? then wc.(plugins := Some(wc.plugins.value + [PluginFor(config, context)])) else wc;
    if user.Some? && user.value(pushed, context).Some? then user.value(pushed, context).value else pushed
  }

  /**
   * The user's own hook runs after the plugin was pushed, so it sees it; its result, when not
   * null, is what Next.js gets, and otherwise the pushed configuration is.
   */
  lemma {:induction false} UserHookRunsAfter(config: FractalNextConfig, user: Hook, plugins: seq<PluginOptions>,
                                             rest: JsValue, context: WebpackContext)
    ensures var seen := WebpackConfig(Some(plugins + [PluginFor(config, context)]), rest);
            && (user(seen, context).Some? ==> FractalHook(config, Some(user), WebpackConfig(Some(plugins), rest), context) == user(seen, context).value)
            && (user(seen, context).None? ==> FractalHook(config, Some(user), WebpackConfig(Some(plugins), rest), context) == seen)
  {
  }

  /** `withFractal(config)(nextConfig)`. */
  function WithFractal(config: FractalNextConfig, nextConfig: NextConfig): (r: NextConfig)
    ensures config.enabled == Some(false) ==> r == nextConfig
    ensures r.fields == nextConfig.fields
    ensures config.enabled != Some(false) ==> r.webpack.Some?
    ensures config.enabled != Some(false) ==>
              forall wc, context :: r.webpack.value(wc, context) == Some(FractalHook(config, nextConfig.webpack, wc, context))
  {
    if config.enabled == Some(false) then nextConfig
    else nextConfig.(webpack := Some((wc: WebpackConfig, context: WebpackContext) =>
                                       Some(FractalHook(config, nextConfig.webpack, wc, context))))
  }

  /**
   * Without a hook of the user's, the installed hook returns webpack's configuration with
   * the plugin appended: watching in development, rooted at the project directory.
   */
  lemma {:induction false} HookAppendsPlugin(config: FractalNextConfig, fields: map<string, JsValue>,
                                             plugins: seq<PluginOptions>, rest: JsValue, context: WebpackContext)
    requires config.enabled != Some(false)
    ensures var hook := WithFractal(config, NextConfig(fields, None)).webpack.value;
            var out := hook(WebpackConfig(Some(plugins), rest), context);
            && out.Some? && out.value.rest == rest && out.value.plugins.Some?
            && out.value.plugins.value == plugins + [PluginOptions(config.registryUrl, context.dev,
                                                                   ShouldUpload(config.autoUpload, context.dev), context.dir)]
  {
  }

  /**
   * With a hook of the user's, the installed hook chains it: the user's hook sees webpack's
   * configuration with the plugin appended, and its non-null result is what Next.js gets.
   */
  lemma {:induction false} HookChainsUserHook(config: FractalNextConfig, fields: map<string, JsValue>, user: Hook,
                                              plugins: seq<PluginOptions>, rest: JsValue, context: WebpackContext)
    requires config.enabled != Some(false)
    ensures var hook := WithFractal(config, NextConfig(fields, Some(user))).webpack.value;
            var out := hook(WebpackConfig(Some(plugins), rest), context);
            var seen := WebpackConfig(Some(plugins + [PluginFor(config, context)]), rest);
            && out.Some?
            && (user(seen, context).Some? ==> out.value == user(seen, context).value)
            && (user(seen, context).None? ==> out.value == seen)
  {
    UserHookRunsAfter(config, user, plugins, rest, context);
  }

  /** With no plugin list the hook adds nothing: `plugins?.push` is skipped. */
  lemma {:induction false} NoPluginListNoPlugin(config: FractalNextConfig, user: Option<Hook>, rest: JsValue, context: WebpackContext)
    requires user.None?
    ensures FractalHook(config, user, WebpackConfig(None, rest), context) == WebpackConfig(None, rest)
  {
  }
}
