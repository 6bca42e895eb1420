/**
 * packages/fractal-cli/src/utils/registry-uploader.ts: posts every bundle of the output
 * directory to the registry, one after the other, and stops at the first failure.
 * The directory listing, the file contents and the registry's answers are parameters.
 */
module RegistryUploader {
  import opened Wrappers
  import opened JsStrings
  import opened JsValues
  import opened Paths

  /** The body `{ name, code, metadata }` posted to `url`. */
  datatype Upload = Upload(url: string, name: string, code: string, metadata: JsValue)

  /** What the uploader looks at in the registry's answer. */
  datatype Response = Response(ok: bool, statusText: string)

  /** The message `fs.readFile` rejects with when the bundle cannot be read. */
  const ReadFailed: string := "ENOENT: no such file or directory"

  /** A bundle to upload: a `.js` file that is not one of the builder's temporary entries. */
  predicate IsUploadable(f: string) {
    EndsWith(f, ".js") && !StartsWith(f, ".temp-")
  }

  /** `files.filter(...)`: the uploadable entries, in listing order. */
  function SelectFractals(files: seq<string>): (r: seq<string>)
    ensures |r| <= |files|
    ensures forall k :: 0 <= k < |r| ==> IsUploadable(r[k])
  {
    if files == [] then []
    else if IsUploadable(files[0]) then [files[0]] + SelectFractals(files[1..])
    else SelectFractals(files[1..])
  }

  /** Exactly the uploadable entries are selected. */
  lemma {:induction false} SelectFractalsSpec(files: seq<string>)
    ensures forall f :: f in SelectFractals(files) <==> f in files && IsUploadable(f)
  {
    if files != [] {
      SelectFractalsSpec(files[1..]);
      assert files == [files[0]] + files[1..];
    }
  }

  /** Source maps written next to a bundle are never uploaded. */
  lemma SourceMapNotUploaded(f: string)
    ensures !IsUploadable(f + ".js.map")
  {
    var s := f + ".js.map";
    assert s[|s| - 1] == 'p';
  }

  /** `path.basename(fractalFile, '.js')`. */
  function UploadName(f: string): string {
    StripSuffix(f, ".js")
  }

  /** A bundle `<name>.js` is uploaded under `name`. */
  lemma UploadNameOfBundle(name: string)
    ensures UploadName(name + ".js") == name
  {
    var f := name + ".js";
    assert EndsWith(f, ".js") by {
      assert f[|f| - 3..] == ".js";
    }
    assert f[..|f| - 3] == name;
  }

  /** `<out>/<name>.meta.json`, the record the builder wrote beside the bundle. */
  function MetaPath(outputDir: Path, name: string): (p: Path)
    ensures Dirname(p) == outputDir
  {
    PathJoin(outputDir, name + ".meta.json")
  }

  /** `readFile(metaPath).then(JSON.parse).catch(() => ({}))`. */
  function Metadata(fs: FileTree, parse: string -> Option<JsValue>, outputDir: Path, name: string): JsValue {
    var p := MetaPath(outputDir, name);
    if p in fs && parse(fs[p]).Some? then parse(fs[p]).value else EmptyObject
  }

  /** A missing or unparseable metadata file is sent as `{}`; a readable one as parsed. */
  lemma MetadataDefault(fs: FileTree, parse: string -> Option<JsValue>, outputDir: Path, name: string)
    ensures var p := MetaPath(outputDir, name);
            && (p !in fs || parse(fs[p]).None? ==> Metadata(fs, parse, outputDir, name) == EmptyObject)
            && (p in fs && parse(fs[p]).Some? ==> Metadata(fs, parse, outputDir, name) == parse(fs[p]).value)
  {
  }

  /** The endpoint every bundle is posted to. */
  function Endpoint(registryUrl: string): string {
    registryUrl + "/api/fractals"
  }

  /** The request for one bundle, or `None` when reading its code rejects. */
  function RequestFor(fs: FileTree, parse: string -> Option<JsValue>, outputDir: Path,
                      registryUrl: string, f: string): (u: Option<Upload>)
    ensures u.Some? <==> PathJoin(outputDir, f) in fs
    ensures u.Some? ==> u.value.url == Endpoint(registryUrl) && u.value.name == UploadName(f)
                        && u.value.code == fs[PathJoin(outputDir, f)]
                        && u.value.metadata == Metadata(fs, parse, outputDir, UploadName(f))
  {
    var jsPath := PathJoin(outputDir, f);
    if jsPath in fs
    then Some(Upload(Endpoint(registryUrl), UploadName(f), fs[jsPath], Metadata(fs, parse, outputDir, UploadName(f))))
    else None
  }

  /** The requests for the selected bundles, in order. */
  function Requests(fs: FileTree, parse: string -> Option<JsValue>, outputDir: Path,
                    registryUrl: string, files: seq<string>): (r: seq<Option<Upload>>)
    ensures |r| == |files|
  {
    if files == [] then []
    else [RequestFor(fs, parse, outputDir, registryUrl, files[0])] + Requests(fs, parse, outputDir, registryUrl, files[1..])
  }

  lemma {:induction false} RequestsAt(fs: FileTree, parse: string -> Option<JsValue>, outputDir: Path,
                                      registryUrl: string, files: seq<string>, j: nat)
    requires j < |files|
    ensures Requests(fs, parse, outputDir, registryUrl, files)[j] == RequestFor(fs, parse, outputDir, registryUrl, files[j])
  {
    if j > 0 {
      RequestsAt(fs, parse, outputDir, registryUrl, files[1..], j - 1);
    }
  }

  /** Whether the bundle behind `u` got through: its code was read, the request went out and the registry answered OK. */
  predicate Acknowledged(u: Option<Upload>, respond: Upload -> Option<Response>) {
    u.Some? && respond(u.value).Some? && respond(u.value).value.ok
  }

  /** The message `fetch` rejects with when the request cannot be made. */
  const FetchFailed: string := "fetch failed"

  /**
   * The error a posted bundle that did not get through is reported with: the network error
   * when `fetch` rejects, otherwise the bundle's name and the registry's status text.
   */
  function UploadFailure(u: Upload, respond: Upload -> Option<Response>): (e: string)
    ensures respond(u).None? ==> e == FetchFailed
    ensures respond(u).Some? ==> e == "Failed to upload " + u.name + ": " + respond(u).value.statusText
  {
    match respond(u)
    case None => FetchFailed
    case Some(resp) => "Failed to upload " + u.name + ": " + resp.statusText
  }

  /** Index of the first bundle that does not get through, or the number of bundles. */
  function FirstFailure(reqs: seq<Option<Upload>>, respond: Upload -> Option<Response>): (k: nat)
    ensures k <= |reqs|
    ensures forall j :: 0 <= j < k ==> Acknowledged(reqs[j], respond)
    ensures k < |reqs| ==> !Acknowledged(reqs[k], respond)
  {
    if reqs == [] || !Acknowledged(reqs[0], respond) then 0
    else 1 + FirstFailure(reqs[1..], respond)
  }

  /**
   * `uploadToRegistry(outputDir, registryUrl)`. `entries` is what `fs.readdir(outputDir)`
   * resolves to (`None` when it rejects); `sent` lists the requests posted, in order.
   * The bundles up to the first failure are posted; a bundle whose code cannot be read is
   * not posted, one whose request rejects or that the registry refuses is; nothing is posted
   * after it, and the failure is rethrown.
   */
  method UploadToRegistry(fs: FileTree, parse: string -> Option<JsValue>, respond: Upload -> Option<Response>,
                          entries: Option<seq<string>>, outputDir: Path, registryUrl: string)
    returns (sent: seq<Upload>, r: Result<()>)
    ensures entries.None? ==> sent == [] && r.Err?
    ensures entries.Some? ==>
              Reported(Requests(fs, parse, outputDir, registryUrl, SelectFractals(entries.value)), respond, sent, r)
  {
    sent := [];
    if entries.None? {
      r := Err(ReadFailed);
      return;
    }
    var fractals := SelectFractals(entries.value);
    ghost var reqs := Requests(fs, parse, outputDir, registryUrl, fractals);
    var i := 0;
    while i < |fractals|
      invariant i <= |fractals| && |sent| == i
      invariant AllGotThrough(reqs, respond, sent)
    {
      var fractalFile := fractals[i];
      var name := UploadName(fractalFile);
      var jsPath := PathJoin(outputDir, fractalFile);
      RequestsAt(fs, parse, outputDir, registryUrl, fractals, i);
      ghost var before := sent;
      if jsPath !in fs {
        r := Err(ReadFailed);
        ReportedFailure(reqs, respond, before, sent, r);
        return;
      }
      var upload := Upload(Endpoint(registryUrl), name, fs[jsPath], Metadata(fs, parse, outputDir, name));
      sent := sent + [upload];
      var response := respond(upload);
      if response.None? {
        r := Err(FetchFailed);
        ReportedFailure(reqs, respond, before, sent, r);
        return;
      }
      if !response.value.ok {
        r := Err("Failed to upload " + name + ": " + response.value.statusText);
        ReportedFailure(reqs, respond, before, sent, r);
        return;
      }
      GotThrough(reqs, respond, before, upload);
      i := i + 1;
    }
    r := Ok(());
    AllAcknowledged(reqs, respond);
  }

  /**
   * What an upload run reports, with `k` the first bundle that does not get through: success
   * exactly when every bundle got through; the bundles before `k` posted, in order, and the
   * one at `k` too when its code was read; a failed read, a rejected request, or the refused
   * bundle's name and the registry's status text, as the error.
   */
  ghost predicate Reported(reqs: seq<Option<Upload>>, respond: Upload -> Option<Response>, sent: seq<Upload>, r: Result<()>) {
    var k := FirstFailure(reqs, respond);
    && (r.Ok? <==> k == |reqs|)
    && |sent| == (if k < |reqs| && reqs[k].Some? then k + 1 else k)
    && (forall j :: 0 <= j < |sent| ==> reqs[j] == Some(sent[j]))
    && (k < |reqs| && reqs[k].None? ==> r == Err(ReadFailed))
    && (k < |reqs| && reqs[k].Some? ==>
          r == Err(UploadFailure(reqs[k].value, respond)))
  }

  /** The bundles in `sent` are the first requests, each posted and accepted. */
  ghost predicate AllGotThrough(reqs: seq<Option<Upload>>, respond: Upload -> Option<Response>, sent: seq<Upload>) {
    && |sent| <= |reqs|
    && forall j :: 0 <= j < |sent| ==> reqs[j] == Some(sent[j]) && Acknowledged(reqs[j], respond)
  }

  lemma {:induction false} GotThrough(reqs: seq<Option<Upload>>, respond: Upload -> Option<Response>, sent: seq<Upload>, u: Upload)
    requires AllGotThrough(reqs, respond, sent)
    requires |sent| < |reqs| && reqs[|sent|] == Some(u) && respond(u).Some? && respond(u).value.ok
    ensures AllGotThrough(reqs, respond, sent + [u])
  {
    var s := sent + [u];
    forall j | 0 <= j < |s|
      ensures reqs[j] == Some(s[j]) && Acknowledged(reqs[j], respond)
    {
      if j < |sent| {
        assert s[j] == sent[j];
      }
    }
  }

  /** A run that stops at the first bundle that does not get through reports that bundle. */
  lemma {:induction false} ReportedFailure(reqs: seq<Option<Upload>>, respond: Upload -> Option<Response>,
                                           before: seq<Upload>, sent: seq<Upload>, r: Result<()>)
    requires AllGotThrough(reqs, respond, before)
    requires |before| < |reqs| && !Acknowledged(reqs[|before|], respond)
    requires sent == if reqs[|before|].Some? then before + [reqs[|before|].value] else before
    requires reqs[|before|].None? ==> r == Err(ReadFailed)
    requires reqs[|before|].Some? ==> r == Err(UploadFailure(reqs[|before|].value, respond))
    ensures Reported(reqs, respond, sent, r)
  {
    FailureAt(reqs, respond, |before|);
    forall j | 0 <= j < |sent|
      ensures reqs[j] == Some(sent[j])
    {
      if j < |before| {
        assert sent[j] == before[j];
      }
    }
  }

  /** The first bundle that does not get through, after a run of ones that do, is the first failure. */
  lemma {:induction false} FailureAt(reqs: seq<Option<Upload>>, respond: Upload -> Option<Response>, i: nat)
    requires i < |reqs| && !Acknowledged(reqs[i], respond)
    requires forall j :: 0 <= j < i ==> Acknowledged(reqs[j], respond)
    ensures FirstFailure(reqs, respond) == i
  {
  }

  /** When every bundle is readable and accepted, all of them are posted and the upload succeeds. */
  lemma {:induction false} AllAcknowledged(reqs: seq<Option<Upload>>, respond: Upload -> Option<Response>)
    requires forall j :: 0 <= j < |reqs| ==> Acknowledged(reqs[j], respond)
    ensures FirstFailure(reqs, respond) == |reqs|
  {
    if reqs != [] {
      AllAcknowledged(reqs[1..], respond);
    }
  }

  /** Every request goes to the registry's upload endpoint. */
  lemma RequestsToEndpoint(fs: FileTree, parse: string -> Option<JsValue>, outputDir: Path,
                           registryUrl: string, files: seq<string>)
    ensures var reqs := Requests(fs, parse, outputDir, registryUrl, files);
            forall j :: 0 <= j < |reqs| && reqs[j].Some? ==> reqs[j].value.url == Endpoint(registryUrl)
  {
    forall j | 0 <= j < |files|
      ensures var u := Requests(fs, parse, outputDir, registryUrl, files)[j];
              u.Some? ==> u.value.url == Endpoint(registryUrl)
    {
      RequestsAt(fs, parse, outputDir, registryUrl, files, j);
    }
  }

  /** A refused bundle stops the upload: the bundles after it are never posted. */
  lemma RefusedStops(reqs: seq<Option<Upload>>, respond: Upload -> Option<Response>, i: nat)
    requires i < |reqs| && !Acknowledged(reqs[i], respond)
    ensures FirstFailure(reqs, respond) <= i
  {
  }
}
