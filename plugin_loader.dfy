/**
 * packages/fractal-plugin/src/loaders/fractal-loader.ts: the webpack loader that turns a
 * fractal source into a module registering its default export with the runtime. Sources
 * without the directive pass through. The webpack loader context is reduced to what the
 * loader reads: whether an async callback exists, the resource path and the options.
 */
module PluginLoader {
  import opened Wrappers
  import opened JsStrings
  import opened PluginDetector

  /** The characters `.` does not match. */
  const LineTerminators: set<char> := {'\n', '\r', '\U{2028}', '\U{2029}'}

  /**
   * `FRACTAL_DIRECTIVE` at the start of the source: the length of its match, or `None`. The
   * first alternative is a quoted directive (either quote at either end, an optional
   * semicolon, then all following whitespace); the second a line or block comment (`//` or slash-star) whose text,
   * after whitespace, begins with `use fractal`, up to the end of its line and one `\n`.
   * Leading whitespace is allowed before both. Each greedy run is the only one that can lead
   * to a match, so no backtracking changes the length.
   */
  function DirectiveMatch(s: string): (n: Option<nat>)
    ensures n.Some? ==> n.value <= |s|
  {
    var p := SpaceRun(s, 0);
    if p + 13 <= |s| && IsQuote(s[p]) && s[p + 1..p + 12] == "use fractal" && IsQuote(s[p + 12]) then
      var q := if p + 13 < |s| && s[p + 13] == ';' then p + 14 else p + 13;
      Some(q + SpaceRun(s, q))
    else if p + 2 <= |s| && s[p] == '/' && (s[p + 1] == '/' || s[p + 1] == '*') then
      var r := p + 2 + SpaceRun(s, p + 2);
      if r + 11 <= |s| && s[r..r + 11] == "use fractal" then
        var e := r + 11 + RunUntil(s, r + 11, LineTerminators);
        Some(if e < |s| && s[e] == '\n' then e + 1 else e)
      else None
    else None
  }

  /** The options the loader reads. */
  datatype LoaderOptions = LoaderOptions(registryUrl: string, isServer: bool)

  /** The last `n` elements (`slice(-n)`), or all of them when there are fewer. */
  function LastN<T>(xs: seq<T>, n: nat): (r: seq<T>)
    ensures |r| == if |xs| < n then |xs| else n
    ensures r == xs[|xs| - |r|..]
  {
    if |xs| <= n then xs else xs[|xs| - n..]
  }

  /**
   * The fractal id: the resource path without its script extension, split at separators,
   * the last three pieces joined with `-`, lower-cased.
   */
  function LoaderId(resourcePath: string): string {
    ToLower(Join(LastN(Split(StripScriptExtension(resourcePath), IsPathSeparator), 3), "-"))
  }

  /** The id holds no upper-case letter and no path separator, so it names no directory. */
  lemma {:induction false} LoaderIdShape(resourcePath: string)
    ensures forall k :: 0 <= k < |LoaderId(resourcePath)| ==> !IsUpper(LoaderId(resourcePath)[k])
    ensures forall k :: 0 <= k < |LoaderId(resourcePath)| ==> !IsPathSeparator(LoaderId(resourcePath)[k])
  {
    var parts := Split(StripScriptExtension(resourcePath), IsPathSeparator);
    var last := LastN(parts, 3);
    forall j, k | 0 <= j < |last| && 0 <= k < |last[j]|
      ensures !IsPathSeparator(last[j][k])
    {
      assert last[j] == parts[|parts| - |last| + j];
    }
    JoinChars(last, "-", c => !IsPathSeparator(c));
  }

  /**
   * The two plugin id schemes do not agree: an id from `detectFractals` that keeps an
   * upper-case letter is never the loader's id of any resource.
   */
  lemma {:induction false} DetectorIdNotLoaderId(file: string, resourcePath: string, k: nat)
    requires k < |FractalId(file)| && IsUpper(FractalId(file)[k])
    ensures FractalId(file) != LoaderId(resourcePath)
  {
    LoaderIdShape(resourcePath);
  }

  /** The fixed text before the embedded source. */
  const EmitPrelude: string := "\nimport { createFractalComponent } from '@fractal/runtime';\n"

  /** The text after the source: wrap the default export, if any, with the fractal's markers. */
  function EmitEpilogue(id: string, options: LoaderOptions): string {
    WrapOpen + id + RegistryField + options.registryUrl + ServerField
    + (if options.isServer then "true" else "false") + WrapClose
  }

  // The fixed pieces of the epilogue.
  const WrapOpen: string :=
    "\nif (exports.default) {\n  exports.default = createFractalComponent(exports.default, {\n"
    + "    __fractal: true,\n    __fractalId: '"
  const RegistryField: string := "',\n    __fractalRegistry: '"
  const ServerField: string := "',\n    __fractalServer: "
  const WrapClose: string := "\n  });\n}"

  /** The module text emitted for a fractal: the runtime import, the source, and the registration of its default export. */
  function Emit(body: string, id: string, options: LoaderOptions): string {
    EmitPrelude + body + EmitEpilogue(id, options)
  }

  const NoAsync: string := "Fractal loader requires async mode"

  /**
   * `fractalLoader(source)`: what it hands the webpack callback, or the error it throws when
   * there is no async callback. A source without the directive is handed on unchanged;
   * otherwise the first directive match is cut and the rest wrapped.
   */
  function FractalLoader(source: string, resourcePath: string, options: LoaderOptions, hasCallback: bool)
    : (r: Result<string>)
    ensures !hasCallback <==> r == Err(NoAsync)
    ensures hasCallback && DirectiveMatch(source).None? ==> r == Ok(source)
    ensures hasCallback && DirectiveMatch(source).Some? ==>
              r == Ok(Emit(source[DirectiveMatch(source).value..], LoaderId(resourcePath), options))
  {
    if !hasCallback then Err(NoAsync)
    else
      match DirectiveMatch(source)
      case None => Ok(source)
      case Some(n) => Ok(Emit(source[n..], LoaderId(resourcePath), options))
  }

  /** The emitted module holds the source after the directive verbatim, right after the import line. */
  lemma {:induction false} EmitEmbedsSource(body: string, id: string, options: LoaderOptions)
    ensures var out := Emit(body, id, options);
            && StartsWith(out, EmitPrelude)
            && out[|EmitPrelude|..|EmitPrelude| + |body|] == body
  {
    var out := Emit(body, id, options);
    assert out[..|EmitPrelude|] == EmitPrelude;
    assert out[|EmitPrelude|..|EmitPrelude| + |body|] == body;
  }

  /** The quoted alternative, once the leading whitespace is known to end at `p`. */
  lemma {:induction false} QuotedAt(s: string, p: nat)
    requires SpaceRun(s, 0) == p && p + 13 <= |s|
    requires IsQuote(s[p]) && s[p + 1..p + 12] == "use fractal" && IsQuote(s[p + 12])
    ensures DirectiveMatch(s).Some?
  {
  }

  /** A quoted directive after leading whitespace is recognised, with either quote character. */
  lemma {:induction false} QuotedDirectiveRecognised(ws: string, open: char, close: char, rest: string)
    requires forall k :: 0 <= k < |ws| ==> IsSpace(ws[k])
    requires IsQuote(open) && IsQuote(close)
    ensures DirectiveMatch(ws + [open] + "use fractal" + [close] + rest).Some?
  {
    var s := ws + [open] + "use fractal" + [close] + rest;
    SpaceRunPrefix(s, ws);
    assert s[|ws| + 1..|ws| + 12] == "use fractal";
  }

  /** A line comment `// use fractal` is recognised, up to and including its line break. */
  lemma {:induction false} CommentDirectiveRecognised(rest: string)
    ensures DirectiveMatch("// use fractal\n" + rest) == Some(15)
  {
    var s := "// use fractal\n" + rest;
    SpaceRunPrefix(s, "");
    assert SpaceRun(s, 2) == 1 by {
      assert IsSpace(s[2]) && !IsSpace(s[3]);
    }
    assert s[3..14] == "use fractal";
    assert RunUntil(s, 14, LineTerminators) == 0;
  }

  /** A source opening with anything else, such as an import, passes through. */
  lemma {:induction false} OtherSourcePassesThrough(rest: string)
    ensures DirectiveMatch("import" + rest).None?
  {
    var s := "import" + rest;
    SpaceRunPrefix(s, "");
  }

  /** A whitespace prefix followed by a non-space character is exactly the leading run. */
  lemma {:induction false} SpaceRunPrefix(s: string, ws: string)
    requires |ws| < |s| && s[..|ws|] == ws
    requires forall k :: 0 <= k < |ws| ==> IsSpace(ws[k])
    requires !IsSpace(s[|ws|])
    ensures SpaceRun(s, 0) == |ws|
  {
    SpaceRunFrom(s, 0, |ws|);
  }

  lemma {:induction false} SpaceRunFrom(s: string, i: nat, n: nat)
    requires i + n < |s|
    requires forall k :: i <= k < i + n ==> IsSpace(s[k])
    requires !IsSpace(s[i + n])
    ensures SpaceRun(s, i) == n
    decreases n
  {
    if n > 0 {
      SpaceRunFrom(s, i + 1, n - 1);
    }
  }
}
