/**
 * packages/fractal-plugin/src/detector.ts: the build plugin's own fractal detection and upload.
 * A file is a fractal when its text mentions `use fractal` anywhere; its id is its
 * project-relative path without the script extension, separators turned into dashes. The
 * glob run is an input (a list of relative paths and what reading each gave), SHA-256 is the parameter
 * `hash` and the registry POST is the parameter `post`.
 */
module PluginDetector {
  import opened Wrappers
  import opened JsStrings

  /** `/\.(tsx?|jsx?)$/` removed: the script extension at the very end, if any. */
  function StripScriptExtension(s: string): (r: string)
    ensures |r| <= |s| && r == s[..|r|]
    ensures |s| - |r| in {0, 3, 4}
  {
    if EndsWith(s, ".tsx") || EndsWith(s, ".jsx") then s[..|s| - 4]
    else if EndsWith(s, ".ts") || EndsWith(s, ".js") then s[..|s| - 3]
    else s
  }

  /** The four script extensions are removed exactly. */
  lemma {:induction false} StripScriptExtensionOf(base: string, ext: string)
    requires ext in {".ts", ".tsx", ".js", ".jsx"}
    ensures StripScriptExtension(base + ext) == base
  {
    var s := base + ext;
    assert s[..|base|] == base;
    assert s[|s| - |ext|..] == ext;
    if |ext| == 3 {
      assert s[|s| - 1] == ext[2] && ext[2] != 'x';
    }
  }

  /** A name that ends in none of them is left alone. */
  lemma {:induction false} StripScriptExtensionOther(s: string)
    requires !EndsWith(s, ".ts") && !EndsWith(s, ".tsx") && !EndsWith(s, ".js") && !EndsWith(s, ".jsx")
    ensures StripScriptExtension(s) == s
  {
  }

  /** `[\/\\]`: the characters both plugin id schemes treat as path separators. */
  predicate IsPathSeparator(c: char) {
    c == '/' || c == '\\'
  }

  /** `.replace(/[\/\\]/g, '-')`. */
  function Slug(s: string): (r: string)
    ensures |r| == |s|
    ensures forall k :: 0 <= k < |s| ==> r[k] == (if IsPathSeparator(s[k]) then '-' else s[k])
  {
    if s == [] then [] else [if IsPathSeparator(s[0]) then '-' else s[0]] + Slug(s[1..])
  }

  /** The id `detectFractals` gives a project-relative path. */
  function FractalId(file: string): string {
    Slug(StripScriptExtension(file))
  }

  /** Ids name no directory: they contain no separator, and only the separators became dashes. */
  lemma {:induction false} FractalIdFlat(file: string)
    ensures forall k :: 0 <= k < |FractalId(file)| ==> !IsPathSeparator(FractalId(file)[k])
    ensures |FractalId(file)| == |StripScriptExtension(file)|
    ensures forall k :: 0 <= k < |FractalId(file)| && FractalId(file)[k] != '-' ==> FractalId(file)[k] == file[k]
  {
  }

  /** A detected fractal. */
  datatype DetectedFractal = DetectedFractal(id: string, filePath: string, source: string, hash: string)

  /** `join(projectRoot, file)`. */
  function JoinPath(root: string, file: string): string {
    root + "/" + file
  }

  /** The record for one globbed file, when its content mentions the directive. */
  function Detect(root: string, file: string, content: string, hash: string -> string): (d: Option<DetectedFractal>)
    ensures d.Some? <==> Contains(content, "use fractal")
    ensures d.Some? ==> d.value == DetectedFractal(FractalId(file), JoinPath(root, file), content, hash(content))
  {
    if Contains(content, "use fractal") then
      Some(DetectedFractal(FractalId(file), JoinPath(root, file), content, hash(content)))
    else None
  }

  /** `detectFractals()`: the records of the globbed files that mention the directive, in glob order. */
  function DetectFractals(root: string, files: seq<(string, string)>, hash: string -> string): (ds: seq<DetectedFractal>)
    ensures |ds| <= |files|
    decreases |files|
  {
    if files == [] then []
    else
      var last := files[|files| - 1];
      var d := Detect(root, last.0, last.1, hash);
      DetectFractals(root, files[..|files| - 1], hash) + (if d.Some? then [d.value] else [])
  }

  /** Every record comes from a globbed file that mentions the directive and carries its full source. */
  lemma {:induction false} DetectFractalsSound(root: string, files: seq<(string, string)>, hash: string -> string, j: nat)
    requires j < |DetectFractals(root, files, hash)|
    ensures exists k :: 0 <= k < |files| && Contains(files[k].1, "use fractal")
                        && DetectFractals(root, files, hash)[j] == Detect(root, files[k].0, files[k].1, hash).value
    decreases |files|
  {
    var n := |files|;
    var pre := DetectFractals(root, files[..n - 1], hash);
    if j < |pre| {
      DetectFractalsSound(root, files[..n - 1], hash, j);
      var k :| 0 <= k < n - 1 && Contains(files[..n - 1][k].1, "use fractal")
               && pre[j] == Detect(root, files[..n - 1][k].0, files[..n - 1][k].1, hash).value;
      assert files[..n - 1][k] == files[k];
    } else {
      assert Contains(files[n - 1].1, "use fractal");
    }
  }

  /** Every globbed file that mentions the directive is detected. */
  lemma {:induction false} DetectFractalsComplete(root: string, files: seq<(string, string)>, hash: string -> string, k: nat)
    requires k < |files| && Contains(files[k].1, "use fractal")
    ensures Detect(root, files[k].0, files[k].1, hash).value in DetectFractals(root, files, hash)
    decreases |files|
  {
    var n := |files|;
    var d := Detect(root, files[n - 1].0, files[n - 1].1, hash);
    var pre := DetectFractals(root, files[..n - 1], hash);
    assert DetectFractals(root, files, hash) == pre + (if d.Some? then [d.value] else []);
    if k < n - 1 {
      assert files[..n - 1][k] == files[k];
      DetectFractalsComplete(root, files[..n - 1], hash, k);
    }
  }

  /**
   * The globbed files paired with their text, when every `readFile` resolved; `None` as soon
   * as one rejects. Each entry of `files` is a relative path and its text, if it could be read.
   */
  function AllRead(files: seq<(string, Option<string>)>): (r: Option<seq<(string, string)>>)
    ensures r.Some? <==> forall k :: 0 <= k < |files| ==> files[k].1.Some?
    ensures r.Some? ==> |r.value| == |files|
    ensures r.Some? ==> forall k :: 0 <= k < |files| ==> r.value[k] == (files[k].0, files[k].1.value)
  {
    if files == [] then Some([])
    else
      var rest := AllRead(files[1..]);
      if files[0].1.None? || rest.None? then None
      else Some([(files[0].0, files[0].1.value)] + rest.value)
  }

  /**
   * `detectFractals()` including its reads: `Promise.all` rejects when reading any globbed file
   * rejects, and otherwise the records are those `DetectFractals` selects from the texts.
   */
  function DetectAll(root: string, files: seq<(string, Option<string>)>, hash: string -> string)
    : (r: Option<seq<DetectedFractal>>)
    ensures r.None? <==> exists k :: 0 <= k < |files| && files[k].1.None?
    ensures r.Some? ==> r.value == DetectFractals(root, AllRead(files).value, hash)
  {
    match AllRead(files)
    case None => None
    case Some(read) => Some(DetectFractals(root, read, hash))
  }

  // ---------------------------------------------------------------------------------------
  // uploadFractals

  /** What the registry answers a POST, as far as the upload reads it. */
  datatype UploadResponse = UploadResponse(ok: bool, statusText: string)

  /** The POST of `{ source }` to a URL; `None` when the request rejects. */
  type Post = (string, string) -> Option<UploadResponse>

  /** The error of a request that rejects. */
  const FetchFailed: string := "fetch failed"

  /** `${registryUrl}/fractals/${id}`. */
  function UploadUrl(registryUrl: string, id: string): string {
    registryUrl + "/fractals/" + id
  }

  /** The error one upload records, if it fails: a rejected request or a response that is not ok. */
  function UploadError(registryUrl: string, f: DetectedFractal, post: Post): (e: Option<string>)
    ensures e.None? <==> post(UploadUrl(registryUrl, f.id), f.source).Some? && post(UploadUrl(registryUrl, f.id), f.source).value.ok
  {
    match post(UploadUrl(registryUrl, f.id), f.source)
    case None => Some(FetchFailed)
    case Some(r) => if r.ok then None else Some("Upload failed: " + r.statusText)
  }

  /** The error map after uploading `fractals` in order: each failure is recorded under its id. */
  function UploadErrors(registryUrl: string, fractals: seq<DetectedFractal>, post: Post): map<string, string>
    decreases |fractals|
  {
    if fractals == [] then map[]
    else
      var f := fractals[|fractals| - 1];
      var before := UploadErrors(registryUrl, fractals[..|fractals| - 1], post);
      match UploadError(registryUrl, f, post)
      case None => before
      case Some(e) => before[f.id := e]
  }

  /**
   * An id is in the error map exactly when some upload under that id failed; so an id that is
   * absent was uploaded, every time, with an ok response.
   */
  lemma {:induction false} UploadErrorsIff(registryUrl: string, fractals: seq<DetectedFractal>, post: Post, id: string)
    ensures id in UploadErrors(registryUrl, fractals, post)
            <==> exists k :: 0 <= k < |fractals| && fractals[k].id == id && UploadError(registryUrl, fractals[k], post).Some?
    decreases |fractals|
  {
    if fractals != [] {
      var n := |fractals|;
      var pre := fractals[..n - 1];
      UploadErrorsIff(registryUrl, pre, post, id);
      if exists k :: 0 <= k < n - 1 && pre[k].id == id && UploadError(registryUrl, pre[k], post).Some? {
        var k :| 0 <= k < n - 1 && pre[k].id == id && UploadError(registryUrl, pre[k], post).Some?;
        assert fractals[k] == pre[k];
      }
      if exists k :: 0 <= k < n && fractals[k].id == id && UploadError(registryUrl, fractals[k], post).Some? {
        var k :| 0 <= k < n && fractals[k].id == id && UploadError(registryUrl, fractals[k], post).Some?;
        if k < n - 1 {
          assert pre[k] == fractals[k];
        }
      }
    }
  }

  /** The recorded error is that of the last failed upload under the id. */
  lemma {:induction false} UploadErrorOfLast(registryUrl: string, fractals: seq<DetectedFractal>, post: Post)
    requires fractals != [] && UploadError(registryUrl, fractals[|fractals| - 1], post).Some?
    ensures UploadErrors(registryUrl, fractals, post)[fractals[|fractals| - 1].id]
            == UploadError(registryUrl, fractals[|fractals| - 1], post).value
  {
  }

  /**
   * `uploadFractals(fractals)`: POST every fractal's source under its id and collect the
   * failures; it never rejects. The source uploads concurrently; here in list order.
   */
  method UploadFractals(registryUrl: string, fractals: seq<DetectedFractal>, post: Post)
    returns (errors: map<string, string>)
    ensures errors == UploadErrors(registryUrl, fractals, post)
  {
    errors := map[];
    var i := 0;
    while i < |fractals|
      invariant 0 <= i <= |fractals|
      invariant errors == UploadErrors(registryUrl, fractals[..i], post)
    {
      assert fractals[..i + 1][..i] == fractals[..i];
      var f := fractals[i];
      var response := post(registryUrl + "/fractals/" + f.id, f.source);
      if response.None? {
        errors := errors[f.id := FetchFailed];
      } else if !response.value.ok {
        errors := errors[f.id := "Upload failed: " + response.value.statusText];
      }
      i := i + 1;
    }
    assert fractals[..|fractals|] == fractals;
  }
}
