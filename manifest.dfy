/**
 * packages/fractal-cli/src/utils/manifest-generator.ts: the manifest record written next to
 * each built fractal, and the filesystem-safe form of a fractal name it shares with
 * packages/fractal-cli/src/utils/fractal-builder.ts.
 */
module ManifestGenerator {
  import opened Wrappers
  import opened Paths
  import opened InsertionSets
  import opened PackageFinder
  import opened DependencyAnalyzer
  import FractalAnalyzer
  import GitInfo
  import opened Disk

  // ---------------------------------------------------------------------------------------
  // `fractalName.replace(/::/g, '_').replace(/[^a-zA-Z0-9_-]/g, '_')`

  /** `replace(/::/g, '_')`: non-overlapping occurrences, left to right. */
  function CollapseSeparators(s: string): (r: string)
    ensures |r| <= |s|
    decreases |s|
  {
    if |s| >= 2 && s[0] == ':' && s[1] == ':' then "_" + CollapseSeparators(s[2..])
    else if s == [] then []
    else [s[0]] + CollapseSeparators(s[1..])
  }

  predicate IsSafeChar(c: char) {
    ('a' <= c <= 'z') || ('A' <= c <= 'Z') || ('0' <= c <= '9') || c == '_' || c == '-'
  }

  /** `replace(/[^a-zA-Z0-9_-]/g, '_')`. */
  function ReplaceUnsafe(s: string): (r: string)
    ensures |r| == |s|
    ensures forall k :: 0 <= k < |s| ==> r[k] == (if IsSafeChar(s[k]) then s[k] else '_')
  {
    if s == [] then []
    else [if IsSafeChar(s[0]) then s[0] else '_'] + ReplaceUnsafe(s[1..])
  }

  /** `createSafeFileName(fractalName)`: only letters, digits, '_' and '-', and never longer. */
  function SafeFileName(fractalName: string): (r: string)
    ensures |r| <= |fractalName|
    ensures forall k :: 0 <= k < |r| ==> IsSafeChar(r[k])
  {
    ReplaceUnsafe(CollapseSeparators(fractalName))
  }

  /** A name already made of safe characters is its own safe form. */
  lemma SafeNameUnchanged(s: string)
    requires forall k :: 0 <= k < |s| ==> IsSafeChar(s[k])
    ensures SafeFileName(s) == s
  {
    CollapseWithoutColon(s);
  }

  lemma {:induction false} CollapseWithoutColon(s: string)
    requires NoColon(s)
    ensures CollapseSeparators(s) == s
    decreases |s|
  {
    if s != [] {
      CollapseWithoutColon(s[1..]);
    }
  }

  /** Each "::" between colon-free parts becomes one '_', and the parts are made safe on their own. */
  lemma SafeOfJoined(a: string, b: string)
    requires NoColon(a)
    ensures SafeFileName(a + "::" + b) == SafeFileName(a) + "_" + SafeFileName(b)
  {
    var l := CollapseSeparators(b);
    calc {
      SafeFileName(a + "::" + b);
      { CollapseJoined(a, b); }
      ReplaceUnsafe(a + "_" + l);
      { assert a + "_" + l == a + ("_" + l); ReplaceUnsafeConcat(a, "_" + l); }
      ReplaceUnsafe(a) + ReplaceUnsafe("_" + l);
      { ReplaceUnsafeConcat("_", l); assert ReplaceUnsafe("_") == "_"; }
      ReplaceUnsafe(a) + ("_" + ReplaceUnsafe(l));
      { CollapseWithoutColon(a); }
      SafeFileName(a) + "_" + SafeFileName(b);
    }
  }

  lemma ReplaceUnsafeConcat(x: string, y: string)
    ensures ReplaceUnsafe(x + y) == ReplaceUnsafe(x) + ReplaceUnsafe(y)
  {
    var l := ReplaceUnsafe(x + y);
    var r := ReplaceUnsafe(x) + ReplaceUnsafe(y);
    forall k | 0 <= k < |l|
      ensures l[k] == r[k]
    {
      if k < |x| {
        assert (x + y)[k] == x[k];
      } else {
        assert (x + y)[k] == y[k - |x|];
      }
    }
  }

  lemma {:induction false} CollapseJoined(a: string, b: string)
    requires NoColon(a)
    ensures CollapseSeparators(a + "::" + b) == a + "_" + CollapseSeparators(b)
    decreases |a|
  {
    if a == [] {
      assert ("" + "::" + b)[2..] == b;
    } else {
      assert (a + "::" + b)[1..] == a[1..] + "::" + b;
      CollapseJoined(a[1..], b);
    }
  }

  /**
   * The safe form of an identity `pkg::kebab::version` keeps its three parts apart with single
   * underscores.
   */
  lemma SafeIdentity(pkg: PackageInfo, fileName: string)
    requires NoColon(pkg.name) && NoColon(StripExtension(fileName))
    ensures SafeFileName(FractalName(pkg, fileName))
         == SafeFileName(CleanPackageName(pkg.name)) + "_"
            + SafeFileName(KebabName(StripExtension(fileName))) + "_"
            + SafeFileName(pkg.version)
  {
    CleanNoColon(pkg.name);
    KebabNoColon(StripExtension(fileName));
    SafeOfParts(CleanPackageName(pkg.name), KebabName(StripExtension(fileName)), pkg.version);
  }

  lemma SafeOfParts(a: string, b: string, v: string)
    requires NoColon(a) && NoColon(b)
    ensures SafeFileName(a + "::" + b + "::" + v)
         == SafeFileName(a) + "_" + SafeFileName(b) + "_" + SafeFileName(v)
  {
    calc {
      SafeFileName(a + "::" + b + "::" + v);
      { assert a + "::" + b + "::" + v == a + "::" + (b + "::" + v); }
      SafeFileName(a + "::" + (b + "::" + v));
      { SafeOfJoined(a, b + "::" + v); }
      SafeFileName(a) + "_" + SafeFileName(b + "::" + v);
      { SafeOfJoined(b, v); }
      SafeFileName(a) + "_" + SafeFileName(b) + "_" + SafeFileName(v);
    }
  }

  /** Replacement is left to right: ":::" collapses to "_:" before the second pass, giving "__". */
  lemma TripleColon()
    ensures CollapseSeparators(":::") == "_:"
    ensures SafeFileName(":::") == "__"
  {
    assert ":::"[2..] == ":";
    assert ":"[1..] == "";
  }

  // ---------------------------------------------------------------------------------------
  // The manifest record

  datatype SourceRef = SourceRef(filePath: Path, relativePath: string)

  /** `FractalManifest`; `parentApplication` carries the package's name, version and descriptor path. */
  datatype Manifest = Manifest(
    name: string,
    version: string,
    generationDate: string,
    dependencies: DependencyInfo,
    internalFractals: seq<string>,
    repository: GitInfo.Info,
    parentApplication: PackageInfo,
    source: SourceRef)

  /** The record `generateManifest` serialises; `now` is the clock's ISO timestamp. */
  function ManifestOf(fs: FileTree, parse: Parser, git: GitInfo.Git, fractalName: string,
                      fractalPath: Path, pkg: PackageInfo, now: string): Manifest
  {
    Manifest(
      fractalName,
      pkg.version,
      now,
      AnalyzeDependencies(fs, parse, pkg.path),
      FractalAnalyzer.InternalFractals(fs, fractalPath),
      GitInfo.GitInfoOf(git, fractalPath),
      PackageInfo(pkg.name, pkg.version, pkg.path),
      SourceRef(fractalPath, Relative(Dirname(pkg.path), fractalPath)))
  }

  /** `<out>/<safe>.manifest.json`. */
  function ManifestPath(outputDir: Path, fractalName: string): (p: Path)
    ensures Dirname(p) == outputDir
  {
    PathJoin(outputDir, SafeFileName(fractalName) + ".manifest.json")
  }

  /**
   * The manifest names the fractal and its package's version, copies the package record,
   * lists every declared dependency (not only the imported ones) and the internal fractals
   * without repeats.
   */
  lemma ManifestSpec(fs: FileTree, parse: Parser, git: GitInfo.Git, fractalName: string,
                     fractalPath: Path, pkg: PackageInfo, now: string)
    ensures var m := ManifestOf(fs, parse, git, fractalName, fractalPath, pkg, now);
      && m.name == fractalName && m.version == pkg.version
      && m.parentApplication == pkg
      && m.dependencies == AnalyzeDependencies(fs, parse, pkg.path)
      && NoDuplicates(m.internalFractals)
      && m.source.filePath == fractalPath
  {
    FractalAnalyzer.InternalFractalsSpec(fs, fractalPath);
  }

  /** A fractal below its package's directory is named by the path down from that directory. */
  lemma RelativePathBelowPackage(fs: FileTree, parse: Parser, git: GitInfo.Git, fractalName: string,
                                 pkg: PackageInfo, now: string, rest: seq<string>)
    requires |rest| > 0
    ensures ManifestOf(fs, parse, git, fractalName, Dirname(pkg.path) + rest, pkg, now).source.relativePath
         == Render(rest)
  {
    RelativeBelow(Dirname(pkg.path), rest);
  }

  /**
   * `generateManifest(...)`: assembles the record, writes its serialisation (`encode`, for
   * `JSON.stringify`) to the manifest path and returns that path; a failed write throws.
   */
  method GenerateManifest<A>(disk: Disk<A>, encode: Manifest -> A, fs: FileTree, parse: Parser,
                             git: GitInfo.Git, fractalName: string, fractalPath: Path,
                             packageInfo: PackageInfo, outputDir: Path, now: string)
    returns (r: Option<Path>)
    modifies disk
    ensures r.Some? <==> ManifestPath(outputDir, fractalName) !in disk.readOnly
    ensures r.Some? ==> r.value == ManifestPath(outputDir, fractalName)
    ensures disk.files == if r.Some? then
              old(disk.files)[ManifestPath(outputDir, fractalName)
                := encode(ManifestOf(fs, parse, git, fractalName, fractalPath, packageInfo, now))]
            else old(disk.files)
    ensures disk.dirs == old(disk.dirs)
  {
    var dependencies := AnalyzeDependencies(fs, parse, packageInfo.path);
    var internalFractals := FractalAnalyzer.FindInternalFractals(fs, fractalPath);
    var repository := GitInfo.ExtractGitInfo(git, fractalPath);
    var manifest := Manifest(
      fractalName, packageInfo.version, now, dependencies, internalFractals, repository,
      PackageInfo(packageInfo.name, packageInfo.version, packageInfo.path),
      SourceRef(fractalPath, Relative(Dirname(packageInfo.path), fractalPath)));
    var safeFileName := SafeFileName(fractalName);
    var manifestPath := PathJoin(outputDir, safeFileName + ".manifest.json");
    var ok := disk.WriteFile(manifestPath, encode(manifest));
    r := if ok then Some(manifestPath) else None;
  }
}
