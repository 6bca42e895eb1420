/**
 * packages/fractal-registry/src/routes/fractals.ts: the registry's HTTP routes under
 * `/fractals`. Each handler looks the fractal up in the store (which may fill the store's
 * cache) and answers with a status, a body and a content type. What a response says is a pure
 * function of the lookup; the handlers are methods over the store.
 */
module RegistryRoutes {
  import opened Wrappers
  import opened JsStrings
  import opened JsValues
  import opened RegistryStore

  /** The JSON bodies the routes send, and the text of the code route. */
  datatype Body =
    | ErrorBody(error: string)
    | MetadataBody(url: string, manifestUrl: string, styles: Option<string>, hasManifest: bool)
    | ManifestBody(manifest: JsValue)
    | PublishedBody(id: string, createdAt: int, hasManifest: bool)
    | TextBody(text: string)

  datatype Response = Response(status: nat, body: Body, contentType: string)

  const Json: string := "application/json"
  const PlainText: string := "text/plain"
  const JavaScript: string := "application/javascript"

  /** The origin of the request URL: its protocol (with the colon) and its host. */
  datatype Origin = Origin(protocol: string, host: string)

  /** `<protocol>//<host>/fractals/<id>/<what>`. */
  function FractalUrl(o: Origin, id: string, what: string): string {
    o.protocol + "//" + o.host + "/fractals/" + id + "/" + what
  }

  /** The answer of `GET /:id` for what the store found. */
  function MetadataResponse(found: Option<StoredFractal>, o: Origin, id: string): (r: Response)
    ensures found.None? <==> r.status == 404
    ensures found.None? ==> r == Response(404, ErrorBody("Not found"), Json)
    ensures found.Some? ==> r.status == 200 && r.contentType == Json && r.body.MetadataBody?
    ensures found.Some? ==> r.body.styles == found.value.styles
    ensures found.Some? ==> (r.body.hasManifest <==> Truthy(found.value.manifest))
  {
    match found
    case None => Response(404, ErrorBody("Not found"), Json)
    case Some(f) =>
      Response(200, MetadataBody(FractalUrl(o, id, "code"), FractalUrl(o, id, "manifest"), f.styles,
                                 Truthy(f.manifest)), Json)
  }

  /** The links `GET /:id` hands out lead to the code and manifest routes of the same id. */
  lemma {:induction false} MetadataLinks(f: StoredFractal, o: Origin, id: string)
    ensures var b := MetadataResponse(Some(f), o, id).body;
            var base := o.protocol + "//" + o.host + "/fractals/" + id + "/";
            && StartsWith(b.url, base) && b.url[|base|..] == "code"
            && StartsWith(b.manifestUrl, base) && b.manifestUrl[|base|..] == "manifest"
  {
    var base := o.protocol + "//" + o.host + "/fractals/" + id + "/";
    var b := MetadataResponse(Some(f), o, id).body;
    assert b.url == base + "code";
    assert b.manifestUrl == base + "manifest";
    assert b.url[..|base|] == base && b.manifestUrl[..|base|] == base;
  }

  /** The text of the generated module up to the embedded compiled code. */
  const CodePrelude: string :=
    "(function() {\n"
    + "    const module = { exports: {} };\n"
    + "    const exports = module.exports;\n"
    + "    const React = window.React;\n"
    + "    const require = (name) => \n"
    + "      name === 'react' ? window.React : \n"
    + "      window.__fractalModules?.getModule(name) || {};\n"
    + "    \n"
    + "    "

  /** The text of the generated module after the compiled code. */
  const CodeEpilogue: string :=
    "\n"
    + "    \n"
    + "    return module.exports;\n"
    + "  })()"

  /** The module text served for compiled code: an expression evaluating to its exports. */
  function WrapCompiled(compiled: string): string {
    CodePrelude + compiled + CodeEpilogue
  }

  /** The compiled code is embedded verbatim: it is what lies between the fixed prelude and epilogue. */
  lemma {:induction false} WrapCompiledEmbeds(compiled: string)
    ensures var w := WrapCompiled(compiled);
            && StartsWith(w, CodePrelude) && EndsWith(w, CodeEpilogue)
            && w[|CodePrelude|..|w| - |CodeEpilogue|] == compiled
  {
    var w := WrapCompiled(compiled);
    assert w[..|CodePrelude|] == CodePrelude;
    assert w[|w| - |CodeEpilogue|..] == CodeEpilogue;
    assert w[|CodePrelude|..|w| - |CodeEpilogue|] == compiled;
  }

  /** Distinct compiled code gives distinct module text. */
  lemma {:induction false} WrapCompiledInjective(c1: string, c2: string)
    requires WrapCompiled(c1) == WrapCompiled(c2)
    ensures c1 == c2
  {
    WrapCompiledEmbeds(c1);
    WrapCompiledEmbeds(c2);
  }

  /** The answer of `GET /:id/code`: an empty 404, or the wrapped compiled code as JavaScript. */
  function CodeResponse(found: Option<StoredFractal>): (r: Response)
    ensures found.None? <==> r.status == 404
    ensures found.None? ==> r == Response(404, TextBody(""), PlainText)
    ensures found.Some? ==> r == Response(200, TextBody(WrapCompiled(found.value.compiled)), JavaScript)
  {
    match found
    case None => Response(404, TextBody(""), PlainText)
    case Some(f) => Response(200, TextBody(WrapCompiled(f.compiled)), JavaScript)
  }

  /**
   * What the served module's `require(name)` evaluates to: `window.React` for `'react'`, else
   * the module table's entry (`getModule`, when the table is on the page) or `{}` in its stead
   * when that is falsy.
   */
  function ShimRequire(name: string, react: JsValue, getModule: Option<string -> JsValue>): (v: JsValue)
    ensures name == "react" ==> v == react
    ensures name != "react" && getModule.None? ==> v == EmptyObject
    ensures name != "react" && getModule.Some? ==> v == Or(getModule.value(name), EmptyObject)
  {
    if name == "react" then react
    else if getModule.None? then EmptyObject
    else Or(getModule.value(name), EmptyObject)
  }

  /** Outside `'react'`, `require` never yields a falsy value: modules that are missing come back as `{}`. */
  lemma {:induction false} ShimRequireTruthy(name: string, react: JsValue, getModule: Option<string -> JsValue>)
    requires name != "react"
    ensures Truthy(ShimRequire(name, react, getModule))
  {
  }

  /** The answer of `GET /:id/manifest`: 404 without a record or without a manifest. */
  function ManifestResponse(found: Option<StoredFractal>): (r: Response)
    ensures r.status == 404 <==> found.None? || !Truthy(found.value.manifest)
    ensures found.None? ==> r.body == ErrorBody("Not found")
    ensures found.Some? && !Truthy(found.value.manifest) ==> r.body == ErrorBody("Manifest not available")
    ensures r.status != 404 ==> r == Response(200, ManifestBody(found.value.manifest), Json)
  {
    match found
    case None => Response(404, ErrorBody("Not found"), Json)
    case Some(f) =>
      if !Truthy(f.manifest) then Response(404, ErrorBody("Manifest not available"), Json)
      else Response(200, ManifestBody(f.manifest), Json)
  }

  /** `hasManifest` in the metadata agrees with whether the manifest route serves one. */
  lemma {:induction false} HasManifestAgrees(found: Option<StoredFractal>, o: Origin, id: string)
    requires found.Some?
    ensures MetadataResponse(found, o, id).body.hasManifest <==> ManifestResponse(found).status == 200
  {
  }

  /** The answer of `POST /:id` once the record is stored. */
  function PublishedResponse(f: StoredFractal): (r: Response)
    ensures r.status == 200 && r.body == PublishedBody(f.id, f.createdAt, Truthy(f.manifest))
  {
    Response(200, PublishedBody(f.id, f.createdAt, Truthy(f.manifest)), Json)
  }

  /** The answer of `POST /:id` without a usable `source`. */
  const SourceRequired: Response := Response(400, ErrorBody("Source required"), Json)

  /** The fields of a `POST /:id` body the route reads. */
  datatype PublishRequest = PublishRequest(source: JsValue, manifest: JsValue)

  /** `GET /:id`. */
  method GetMetadata(store: FractalStore, id: string, o: Origin, parse: Parser) returns (r: Response)
    modifies store
    ensures r == MetadataResponse(Lookup(old(store.cache), store.disk.files, store.path, parse, id), o, id)
    ensures store.cache == CacheAfterGet(old(store.cache), store.disk.files, store.path, parse, id)
  {
    var fractal := store.GetFractal(id, parse);
    if fractal.None? {
      return Response(404, ErrorBody("Not found"), Json);
    }
    r := Response(200, MetadataBody(o.protocol + "//" + o.host + "/fractals/" + id + "/code",
                                    o.protocol + "//" + o.host + "/fractals/" + id + "/manifest",
                                    fractal.value.styles, Truthy(fractal.value.manifest)), Json);
  }

  /** `GET /:id/code`. */
  method GetCode(store: FractalStore, id: string, parse: Parser) returns (r: Response)
    modifies store
    ensures r == CodeResponse(Lookup(old(store.cache), store.disk.files, store.path, parse, id))
    ensures store.cache == CacheAfterGet(old(store.cache), store.disk.files, store.path, parse, id)
  {
    var fractal := store.GetFractal(id, parse);
    if fractal.None? {
      return Response(404, TextBody(""), PlainText);
    }
    r := Response(200, TextBody(CodePrelude + fractal.value.compiled + CodeEpilogue), JavaScript);
  }

  /** `GET /:id/manifest`. */
  method GetManifest(store: FractalStore, id: string, parse: Parser) returns (r: Response)
    modifies store
    ensures r == ManifestResponse(Lookup(old(store.cache), store.disk.files, store.path, parse, id))
    ensures store.cache == CacheAfterGet(old(store.cache), store.disk.files, store.path, parse, id)
  {
    var fractal := store.GetFractal(id, parse);
    if fractal.None? {
      return Response(404, ErrorBody("Not found"), Json);
    }
    if !Truthy(fractal.value.manifest) {
      return Response(404, ErrorBody("Manifest not available"), Json);
    }
    r := Response(200, ManifestBody(fractal.value.manifest), Json);
  }

  /**
   * `POST /:id`. A falsy `source` is answered 400 and the store is not touched. Any other
   * source goes to `addFractal`; when that rejects, so does the handler (`Err`). A source that
   * is truthy but no string fails the directive test.
   */
  method Publish(store: FractalStore, id: string, req: PublishRequest, esbuild: string -> Result<string>,
                 random: nat -> string, now: int, encode: StoredFractal -> string)
    returns (r: Result<Response>)
    modifies store, store.disk
    ensures !Truthy(req.source) ==> r == Ok(SourceRequired) && store.cache == old(store.cache)
                                    && store.disk.files == old(store.disk.files)
    ensures Truthy(req.source) && !req.source.Str? ==>
              r == Err(RegistryTransform.MissingDirective) && store.cache == old(store.cache)
              && store.disk.files == old(store.disk.files)
    ensures Truthy(req.source) && req.source.Str? ==>
              var t := RegistryTransform.TransformFractal(req.source.s, id, esbuild, random);
              && (t.Err? ==> r == Err(t.message) && store.cache == old(store.cache)
                             && store.disk.files == old(store.disk.files))
              && (t.Ok? ==>
                    var f := NewRecord(id, req.source.s, t.value, req.manifest, now);
                    && store.cache == old(store.cache)[id := f]
                    && (r.Ok? <==> RecordFile(store.path, id) !in store.disk.readOnly)
                    && (r.Ok? ==> r.value == PublishedResponse(f)
                                  && store.disk.files == old(store.disk.files)[RecordFile(store.path, id) := encode(f)])
                    && (r.Err? ==> r == Err(WriteFailed) && store.disk.files == old(store.disk.files)))
    ensures store.disk.dirs == old(store.disk.dirs)
  {
    if !Truthy(req.source) {
      return Ok(Response(400, ErrorBody("Source required"), Json));
    }
    if !req.source.Str? {
      return Err(RegistryTransform.MissingDirective);
    }
    var added := store.AddFractal(id, req.source.s, req.manifest, esbuild, random, now, encode);
    if added.Err? {
      return Err(added.message);
    }
    r := Ok(Response(200, PublishedBody(added.value.id, added.value.createdAt, Truthy(added.value.manifest)), Json));
  }
}
