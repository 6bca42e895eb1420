/**
 * packages/fractal-cli/src/utils/fractal-builder.ts: build every fractal of a project into
 * the output directory. Per fractal: find its package, name it, write the transformed entry
 * to a temp file, bundle it (esbuild is an oracle), remove the temp file, then write the
 * manifest and the meta record. The per-fractal builds run concurrently in the source; here
 * they run one after another in candidate order.
 */
module FractalBuilder {
  import opened Wrappers
  import opened Paths
  import opened PackageFinder
  import CliDetector
  import CliTransformer
  import GitInfo
  import opened ManifestGenerator
  import opened Disk

  /** `{ outputSize, buildTime }` from `executeBuild`. */
  datatype BuildMetadata = BuildMetadata(outputSize: nat, buildTime: string)

  /** The record written to `<safe>.meta.json`: the fractal and package facts, then the build metadata. */
  datatype Meta = Meta(
    name: string,
    originalPath: Path,
    packageName: string,
    packageVersion: string,
    packagePath: Path,
    manifestPath: Path,
    outputSize: nat,
    buildTime: string)

  datatype BuildResult = BuildResult(
    name: string,
    filePath: Path,
    outputPath: Path,
    manifestPath: Path,
    metadata: BuildMetadata)

  /** What the output directory holds: the temp entry, esbuild's bundle and source map, and the JSON records. */
  datatype Artifact =
    | Entry(text: string)
    | Bundle(code: string)
    | SourceMap(text: string)
    | ManifestJson(manifest: Manifest)
    | MetaJson(meta: Meta)

  /** What esbuild produces for an entry: the bundle, its source map and the metafile's byte count, if any. */
  datatype BundleOutput = BundleOutput(code: string, sourceMap: string, outputBytes: Option<nat>)

  /** The world one build runs in: files, the package.json parser, git, esbuild and the clock. */
  datatype Env = Env(
    fs: FileTree,
    parse: Parser,
    git: GitInfo.Git,
    esbuild: string -> Option<BundleOutput>,
    now: string)

  function OutputPath(outputDir: Path, safe: string): Path {
    PathJoin(outputDir, safe + ".js")
  }

  function MapPath(outputDir: Path, safe: string): Path {
    PathJoin(outputDir, safe + ".js.map")
  }

  function TempPath(outputDir: Path, safe: string): Path {
    PathJoin(outputDir, ".temp-" + safe + ".js")
  }

  function MetaPath(outputDir: Path, safe: string): Path {
    PathJoin(outputDir, safe + ".meta.json")
  }

  /** The five files one build may write are different files: their names differ in length. */
  lemma ArtifactPathsDistinct(outputDir: Path, fractalName: string)
    ensures var safe := SafeFileName(fractalName);
      var out := OutputPath(outputDir, safe);
      var map_ := MapPath(outputDir, safe);
      var temp := TempPath(outputDir, safe);
      var manifest := ManifestPath(outputDir, fractalName);
      var meta := MetaPath(outputDir, safe);
      && out != map_ && out != temp && out != manifest && out != meta
      && map_ != temp && map_ != manifest && map_ != meta
      && temp != manifest && temp != meta
      && manifest != meta
  {
    var safe := SafeFileName(fractalName);
    assert Basename(OutputPath(outputDir, safe)) == safe + ".js";
    assert Basename(MapPath(outputDir, safe)) == safe + ".js.map";
    assert Basename(TempPath(outputDir, safe)) == ".temp-" + safe + ".js";
    assert Basename(ManifestPath(outputDir, fractalName)) == safe + ".manifest.json";
    assert Basename(MetaPath(outputDir, safe)) == safe + ".meta.json";
  }

  /** `buildResult.metafile?.outputs[outputPath]?.bytes || 0`. */
  function OutputSize(bytes: Option<nat>): (n: nat)
    ensures bytes.Some? ==> n == bytes.value
    ensures bytes.None? ==> n == 0
  {
    match bytes
    case None => 0
    case Some(b) => if b != 0 then b else 0
  }

  /** The files a successful bundle leaves: the entry's bundle and its source map. */
  function Bundled(files: map<Path, Artifact>, outputPath: Path, mapPath: Path, b: BundleOutput): map<Path, Artifact> {
    files[outputPath := Bundle(b.code)][mapPath := SourceMap(b.sourceMap)]
  }

  /**
   * After a successful build of `fractal` with package `pkg`, the result names the fractal
   * and its artifacts, and the output directory holds the bundle, the manifest and the meta
   * record, which copies the fractal's and package's facts and the build metadata.
   */
  ghost predicate Built(files: map<Path, Artifact>, env: Env, fractal: CliDetector.FractalInfo, pkg: PackageInfo,
                        outputDir: Path, r: BuildResult)
  {
    var name := FractalName(pkg, fractal.fileName);
    var safe := SafeFileName(name);
    && r.name == name && r.filePath == fractal.filePath
    && r.outputPath == OutputPath(outputDir, safe)
    && r.manifestPath == ManifestPath(outputDir, name)
    && OutputPath(outputDir, safe) in files && files[OutputPath(outputDir, safe)].Bundle?
    && ManifestPath(outputDir, name) in files
    && files[ManifestPath(outputDir, name)]
       == ManifestJson(ManifestOf(env.fs, env.parse, env.git, name, fractal.filePath, pkg, env.now))
    && MetaPath(outputDir, safe) in files
    && files[MetaPath(outputDir, safe)]
       == MetaJson(Meta(name, fractal.filePath, pkg.name, pkg.version, pkg.path,
                        ManifestPath(outputDir, name), r.metadata.outputSize, r.metadata.buildTime))
  }

  /** The temp entry of a build does not outlive it, unless it was there before or cannot be touched. */
  ghost predicate NoTempLeft(before: map<Path, Artifact>, after: map<Path, Artifact>, readOnly: set<Path>,
                             outputDir: Path, fractalName: string)
  {
    var temp := TempPath(outputDir, SafeFileName(fractalName));
    temp !in before && temp !in readOnly ==> temp !in after
  }

  /**
   * When a build with package `pkg` gets through every step of `buildFractal`: the source is
   * read, the temp entry can be written, esbuild accepts the entry, and the bundle, its source
   * map, the manifest and the meta record can all be written. Each step that fails throws,
   * and the catch turns that into `null`.
   */
  predicate BuildSucceeds(env: Env, fractal: CliDetector.FractalInfo, pkg: PackageInfo, readOnly: set<Path>,
                          outputDir: Path)
  {
    var name := FractalName(pkg, fractal.fileName);
    var safe := SafeFileName(name);
    var t := CliTransformer.TransformFixed(ReadFile(env.fs, fractal.filePath), fractal.filePath, name);
    && t.Some?
    && TempPath(outputDir, safe) !in readOnly
    && env.esbuild(t.value).Some?
    && OutputPath(outputDir, safe) !in readOnly && MapPath(outputDir, safe) !in readOnly
    && ManifestPath(outputDir, name) !in readOnly && MetaPath(outputDir, safe) !in readOnly
  }

  /** A candidate builds when the package walk finds a package and the build with it succeeds. */
  predicate CandidateBuilds(env: Env, fractal: CliDetector.FractalInfo, readOnly: set<Path>, outputDir: Path) {
    var pkg := ClosestPackage(env.fs, env.parse, Dirname(fractal.filePath));
    pkg.Some? && BuildSucceeds(env, fractal, pkg.value, readOnly, outputDir)
  }

  /**
   * The record a candidate's build returns: named after the fractal within the package the walk
   * finds, with its bundle and manifest paths in the output directory.
   */
  predicate RecordFor(env: Env, fractal: CliDetector.FractalInfo, outputDir: Path, r: BuildResult) {
    var pkg := ClosestPackage(env.fs, env.parse, Dirname(fractal.filePath));
    && pkg.Some?
    && var name := FractalName(pkg.value, fractal.fileName);
    && r.name == name && r.filePath == fractal.filePath
    && r.outputPath == OutputPath(outputDir, SafeFileName(name))
    && r.manifestPath == ManifestPath(outputDir, name)
  }

  /** The verdict `ok` gives each candidate, in candidate order. */
  ghost function Verdicts(fractals: seq<CliDetector.FractalInfo>, ok: CliDetector.FractalInfo -> bool): (v: seq<bool>)
    ensures |v| == |fractals|
    decreases |fractals|
  {
    if fractals == [] then [] else Verdicts(fractals[..|fractals| - 1], ok) + [ok(fractals[|fractals| - 1])]
  }

  /** The verdict at index `i` is the one candidate `i` gets. */
  lemma {:induction false} VerdictAt(fractals: seq<CliDetector.FractalInfo>, ok: CliDetector.FractalInfo -> bool, i: nat)
    requires i < |fractals|
    ensures Verdicts(fractals, ok)[i] == ok(fractals[i])
    decreases |fractals|
  {
    var n := |fractals|;
    if i < n - 1 {
      VerdictAt(fractals[..n - 1], ok, i);
      assert fractals[..n - 1][i] == fractals[i];
    }
  }

  /** Each result so far is that of the candidate at its index. */
  predicate ForFiles(outcomes: seq<Option<BuildResult>>, fractals: seq<CliDetector.FractalInfo>) {
    |outcomes| <= |fractals|
    && forall j :: 0 <= j < |outcomes| && outcomes[j].Some? ==> outcomes[j].value.filePath == fractals[j].filePath
  }

  lemma ForFilesAppend(outcomes: seq<Option<BuildResult>>, fractals: seq<CliDetector.FractalInfo>, r: Option<BuildResult>)
    requires ForFiles(outcomes, fractals) && |outcomes| < |fractals|
    requires r.Some? ==> r.value.filePath == fractals[|outcomes|].filePath
    ensures ForFiles(outcomes + [r], fractals)
  {
    assert forall j :: 0 <= j < |outcomes| ==> (outcomes + [r])[j] == outcomes[j];
  }

  /** Each result so far satisfies `fits` with the candidate at its index. */
  predicate Fit(outcomes: seq<Option<BuildResult>>, fractals: seq<CliDetector.FractalInfo>,
                fits: (CliDetector.FractalInfo, BuildResult) -> bool)
  {
    |outcomes| <= |fractals|
    && forall j :: 0 <= j < |outcomes| && outcomes[j].Some? ==> fits(fractals[j], outcomes[j].value)
  }

  lemma FitAppend(outcomes: seq<Option<BuildResult>>, fractals: seq<CliDetector.FractalInfo>,
                  fits: (CliDetector.FractalInfo, BuildResult) -> bool, r: Option<BuildResult>)
    requires Fit(outcomes, fractals, fits) && |outcomes| < |fractals|
    requires r.Some? ==> fits(fractals[|outcomes|], r.value)
    ensures Fit(outcomes + [r], fractals, fits)
  {
    assert forall j :: 0 <= j < |outcomes| ==> (outcomes + [r])[j] == outcomes[j];
  }

  /** Results that fit their candidates' records are, index by index, those records. */
  lemma {:induction false} OutcomesAreRecords(env: Env, fractals: seq<CliDetector.FractalInfo>,
                                              outcomes: seq<Option<BuildResult>>, outputDir: Path)
    requires Fit(outcomes, fractals, (f, r) => RecordFor(env, f, outputDir, r))
    ensures forall i :: 0 <= i < |outcomes| && outcomes[i].Some? ==> RecordFor(env, fractals[i], outputDir, outcomes[i].value)
  {
    forall i | 0 <= i < |outcomes| && outcomes[i].Some?
      ensures RecordFor(env, fractals[i], outputDir, outcomes[i].value)
    {
      var fits := (f, r) => RecordFor(env, f, outputDir, r);
      assert fits(fractals[i], outcomes[i].value);
    }
  }

  /** Each outcome is a result exactly when the verdict at its index holds. */
  predicate Matches(outcomes: seq<Option<BuildResult>>, verdicts: seq<bool>) {
    |outcomes| == |verdicts| && forall j :: 0 <= j < |outcomes| ==> (outcomes[j].Some? <==> verdicts[j])
  }

  lemma MatchesAppend(outcomes: seq<Option<BuildResult>>, verdicts: seq<bool>, r: Option<BuildResult>, b: bool)
    requires Matches(outcomes, verdicts) && (r.Some? <==> b)
    ensures Matches(outcomes + [r], verdicts + [b])
  {
    assert forall j :: 0 <= j < |outcomes| ==> (outcomes + [r])[j] == outcomes[j];
  }

  lemma VerdictsStep(fractals: seq<CliDetector.FractalInfo>, ok: CliDetector.FractalInfo -> bool, i: nat,
                     outcomes: seq<Option<BuildResult>>, r: Option<BuildResult>)
    requires i < |fractals|
    requires Matches(outcomes, Verdicts(fractals[..i], ok))
    requires r.Some? <==> ok(fractals[i])
    ensures Matches(outcomes + [r], Verdicts(fractals[..i + 1], ok))
  {
    assert fractals[..i + 1][..i] == fractals[..i];
    MatchesAppend(outcomes, Verdicts(fractals[..i], ok), r, ok(fractals[i]));
  }

  /** Outcomes that match the verdicts say, candidate by candidate, which ones build. */
  lemma {:induction false} OutcomesTrackCandidates(env: Env, fractals: seq<CliDetector.FractalInfo>,
                                                   outcomes: seq<Option<BuildResult>>, readOnly: set<Path>, outputDir: Path)
    requires Matches(outcomes, Verdicts(fractals, f => CandidateBuilds(env, f, readOnly, outputDir)))
    ensures forall i :: 0 <= i < |outcomes| ==> (outcomes[i].Some? <==> CandidateBuilds(env, fractals[i], readOnly, outputDir))
  {
    forall i | 0 <= i < |outcomes|
      ensures outcomes[i].Some? <==> CandidateBuilds(env, fractals[i], readOnly, outputDir)
    {
      VerdictAt(fractals, f => CandidateBuilds(env, f, readOnly, outputDir), i);
    }
  }

  class Builder {
    const finder: Finder
    const disk: Disk<Artifact>

    constructor (disk0: Disk<Artifact>)
      ensures finder.cache == map[] && disk == disk0
    {
      finder := new Finder();
      disk := disk0;
    }

    /**
     * `prepareBuild`: transform the fractal (a failed read throws) and write the result to
     * `<out>/.temp-<safe>.js`.
     */
    method PrepareBuild(env: Env, fractal: CliDetector.FractalInfo, fractalName: string, outputDir: Path, safe: string)
      returns (tempFile: Option<Path>)
      modifies disk
      ensures var t := CliTransformer.TransformFixed(ReadFile(env.fs, fractal.filePath), fractal.filePath, fractalName);
        && (tempFile.Some? <==> t.Some? && TempPath(outputDir, safe) !in disk.readOnly)
        && (tempFile.Some? ==> tempFile.value == TempPath(outputDir, safe))
        && disk.files == if tempFile.Some? then old(disk.files)[TempPath(outputDir, safe) := Entry(t.value)]
                         else old(disk.files)
      ensures disk.dirs == old(disk.dirs)
    {
      var transformed := CliTransformer.TransformFixed(ReadFile(env.fs, fractal.filePath), fractal.filePath, fractalName);
      if transformed.None? {
        return None;
      }
      var temp := TempPath(outputDir, safe);
      var ok := disk.WriteFile(temp, Entry(transformed.value));
      tempFile := if ok then Some(temp) else None;
    }

    /**
     * `executeBuild`: bundle the temp entry into `outputPath` and its source map; whatever
     * happens, the temp file is then unlinked.
     */
    method ExecuteBuild(env: Env, tempFile: Path, outputPath: Path, mapPath: Path)
      returns (metadata: Option<BuildMetadata>)
      requires tempFile in disk.files && disk.files[tempFile].Entry? && tempFile !in disk.readOnly
      requires tempFile != outputPath && tempFile != mapPath && outputPath != mapPath
      modifies disk
      ensures var b := env.esbuild(old(disk.files)[tempFile].text);
        && (metadata.Some? <==> b.Some? && outputPath !in disk.readOnly && mapPath !in disk.readOnly)
        && (metadata.Some? ==> metadata.value == BuildMetadata(OutputSize(b.value.outputBytes), env.now))
        && disk.files == (if metadata.Some? then Bundled(old(disk.files), outputPath, mapPath, b.value)
                          else old(disk.files)) - {tempFile}
      ensures metadata.Some? ==> outputPath in disk.files && disk.files[outputPath].Bundle?
      ensures tempFile !in disk.files
      ensures disk.dirs == old(disk.dirs)
    {
      var bundle := env.esbuild(disk.files[tempFile].text);
      if bundle.Some? && outputPath !in disk.readOnly && mapPath !in disk.readOnly {
        var _ := disk.WriteFile(outputPath, Bundle(bundle.value.code));
        var _ := disk.WriteFile(mapPath, SourceMap(bundle.value.sourceMap));
        metadata := Some(BuildMetadata(OutputSize(bundle.value.outputBytes), env.now));
      } else {
        metadata := None;
      }
      disk.Unlink(tempFile);
    }

    /** `generateArtifacts`: the manifest, then `<out>/<safe>.meta.json`; a failed write throws. */
    method GenerateArtifacts(env: Env, fractalName: string, fractal: CliDetector.FractalInfo, packageInfo: PackageInfo,
                             outputDir: Path, safe: string, metadata: BuildMetadata)
      returns (manifestPath: Option<Path>)
      requires safe == SafeFileName(fractalName)
      requires ManifestPath(outputDir, fractalName) != MetaPath(outputDir, safe)
      modifies disk
      ensures var mp := ManifestPath(outputDir, fractalName);
        var manifest := ManifestOf(env.fs, env.parse, env.git, fractalName, fractal.filePath, packageInfo, env.now);
        var meta := Meta(fractalName, fractal.filePath, packageInfo.name, packageInfo.version, packageInfo.path,
                         mp, metadata.outputSize, metadata.buildTime);
        && (manifestPath.Some? <==> mp !in disk.readOnly && MetaPath(outputDir, safe) !in disk.readOnly)
        && (manifestPath.Some? ==>
              (manifestPath.value == mp
               && disk.files == old(disk.files)[mp := ManifestJson(manifest)][MetaPath(outputDir, safe) := MetaJson(meta)]))
        && (manifestPath.None? ==> disk.files == old(disk.files)
                                   || disk.files == old(disk.files)[mp := ManifestJson(manifest)])
        && (manifestPath.Some? ==> mp in disk.files && disk.files[mp] == ManifestJson(manifest)
                                   && MetaPath(outputDir, safe) in disk.files
                                   && disk.files[MetaPath(outputDir, safe)] == MetaJson(meta))
      ensures forall p :: p in old(disk.files) && p != ManifestPath(outputDir, fractalName) && p != MetaPath(outputDir, safe)
                          ==> p in disk.files && disk.files[p] == old(disk.files)[p]
      ensures forall p :: p !in old(disk.files) && p != ManifestPath(outputDir, fractalName) && p != MetaPath(outputDir, safe)
                          ==> p !in disk.files
      ensures disk.dirs == old(disk.dirs)
    {
      var written := GenerateManifest(disk, m => ManifestJson(m), env.fs, env.parse, env.git, fractalName,
                                      fractal.filePath, packageInfo, outputDir, env.now);
      if written.None? {
        return None;
      }
      var meta := Meta(fractalName, fractal.filePath, packageInfo.name, packageInfo.version, packageInfo.path,
                       written.value, metadata.outputSize, metadata.buildTime);
      var ok := disk.WriteFile(MetaPath(outputDir, safe), MetaJson(meta));
      manifestPath := if ok then written else None;
    }

    /**
     * `buildFractal`: never throws. A missing package or any failing step gives `None`
     * (`null`); on success the bundle, manifest and meta record are in the output directory
     * (`Built`). `pkg` is the package the walk found.
     */
    method BuildFractal(env: Env, fractal: CliDetector.FractalInfo, outputDir: Path)
      returns (r: Option<BuildResult>, ghost pkg: Option<PackageInfo>)
      modifies finder, disk
      ensures old(finder.Consistent(env.fs, env.parse)) ==>
        finder.Consistent(env.fs, env.parse) && pkg == ClosestPackage(env.fs, env.parse, Dirname(fractal.filePath))
      ensures pkg.None? ==> r.None? && disk.files == old(disk.files)
      ensures r.Some? ==> pkg.Some? && r.value.filePath == fractal.filePath
      ensures r.Some? ==> Built(disk.files, env, fractal, pkg.value, outputDir, r.value)
      ensures r.Some? <==> pkg.Some? && BuildSucceeds(env, fractal, pkg.value, disk.readOnly, outputDir)
      ensures pkg.Some? ==> NoTempLeft(old(disk.files), disk.files, disk.readOnly, outputDir, FractalName(pkg.value, fractal.fileName))
      ensures disk.dirs == old(disk.dirs)
    {
      var packageInfo, _ := finder.FindClosestPackage(env.fs, env.parse, fractal.filePath);
      pkg := packageInfo;
      if packageInfo.None? {
        return None, pkg;
      }
      r := BuildWithPackage(env, fractal, packageInfo.value, outputDir);
    }

    /** `buildFractal` as the batch sees it: whether the candidate built, and the record it returned. */
    method BuildCandidate(env: Env, fractal: CliDetector.FractalInfo, outputDir: Path) returns (r: Option<BuildResult>)
      modifies finder, disk
      ensures r.Some? ==> r.value.filePath == fractal.filePath
      ensures old(finder.Consistent(env.fs, env.parse)) ==>
        && finder.Consistent(env.fs, env.parse)
        && (r.Some? <==> CandidateBuilds(env, fractal, disk.readOnly, outputDir))
        && (r.Some? ==> RecordFor(env, fractal, outputDir, r.value))
      ensures disk.dirs == old(disk.dirs)
    {
      ghost var pkg;
      r, pkg := BuildFractal(env, fractal, outputDir);
    }

    /** The steps of `buildFractal` after the package was found, up to the returned record. */
    method BuildWithPackage(env: Env, fractal: CliDetector.FractalInfo, packageInfo: PackageInfo, outputDir: Path)
      returns (r: Option<BuildResult>)
      modifies disk
      ensures r.Some? ==> r.value.filePath == fractal.filePath && Built(disk.files, env, fractal, packageInfo, outputDir, r.value)
      ensures r.Some? <==> BuildSucceeds(env, fractal, packageInfo, disk.readOnly, outputDir)
      ensures NoTempLeft(old(disk.files), disk.files, disk.readOnly, outputDir, FractalName(packageInfo, fractal.fileName))
      ensures disk.dirs == old(disk.dirs)
    {
      var fractalName := FractalName(packageInfo, fractal.fileName);
      var safeFileName := SafeFileName(fractalName);
      var outputPath := OutputPath(outputDir, safeFileName);
      ghost var temp := TempPath(outputDir, safeFileName);
      ArtifactPathsDistinct(outputDir, fractalName);
      var tempFile := PrepareBuild(env, fractal, fractalName, outputDir, safeFileName);
      if tempFile.None? {
        return None;
      }
      var metadata := ExecuteBuild(env, tempFile.value, outputPath, MapPath(outputDir, safeFileName));
      assert temp !in disk.files;
      if metadata.None? {
        return None;
      }
      ghost var afterBundle := disk.files;
      var manifestPath := GenerateArtifacts(env, fractalName, fractal, packageInfo, outputDir,
                                            safeFileName, metadata.value);
      if manifestPath.None? {
        return None;
      }
      assert disk.files[outputPath] == afterBundle[outputPath];
      r := Some(BuildResult(fractalName, fractal.filePath, outputPath, manifestPath.value, metadata.value));
    }

    /**
     * `build(options)`: find the candidates; with none, return before the output directory is
     * made; otherwise build each and keep the non-null results in candidate order. `failed`
     * counts rejected builds, and `buildFractal` never rejects. `outcomes` is each candidate's
     * own result.
     */
    method Build(env: Env, jsxMatches: seq<Path>, tsxMatches: seq<Path>, outputDir: Path)
      returns (successful: seq<BuildResult>, failed: nat, outcomes: seq<Option<BuildResult>>)
      modifies finder, disk
      ensures var fractals := CliDetector.Selected(env.fs, jsxMatches) + CliDetector.Selected(env.fs, tsxMatches);
        && |outcomes| == |fractals|
        && successful == Successes(outcomes)
        && (forall i :: 0 <= i < |outcomes| && outcomes[i].Some? ==> outcomes[i].value.filePath == fractals[i].filePath)
        && (fractals == [] ==> disk.dirs == old(disk.dirs) && disk.files == old(disk.files))
        && (fractals != [] ==> disk.dirs == old(disk.dirs) + {outputDir})
      ensures failed == 0
      ensures old(finder.Consistent(env.fs, env.parse)) ==> finder.Consistent(env.fs, env.parse)
      ensures old(finder.Consistent(env.fs, env.parse)) ==>
        var fractals := CliDetector.Selected(env.fs, jsxMatches) + CliDetector.Selected(env.fs, tsxMatches);
        forall i :: 0 <= i < |outcomes| ==> (outcomes[i].Some? <==> CandidateBuilds(env, fractals[i], disk.readOnly, outputDir))
      ensures old(finder.Consistent(env.fs, env.parse)) ==>
        var fractals := CliDetector.Selected(env.fs, jsxMatches) + CliDetector.Selected(env.fs, tsxMatches);
        forall i :: 0 <= i < |outcomes| && outcomes[i].Some? ==> RecordFor(env, fractals[i], outputDir, outcomes[i].value)
    {
      ghost var wasConsistent := finder.Consistent(env.fs, env.parse);
      ghost var builds := f => CandidateBuilds(env, f, disk.readOnly, outputDir);
      ghost var fits := (f, r) => RecordFor(env, f, outputDir, r);
      var fractals := CliDetector.FindFractals(env.fs, jsxMatches, tsxMatches);
      outcomes := [];
      successful := [];
      failed := 0;
      if |fractals| == 0 {
        return;
      }
      disk.Mkdir(outputDir);
      for i := 0 to |fractals|
        invariant |outcomes| == i
        invariant ForFiles(outcomes, fractals)
        invariant disk.dirs == old(disk.dirs) + {outputDir}
        invariant old(finder.Consistent(env.fs, env.parse)) ==> finder.Consistent(env.fs, env.parse)
        invariant wasConsistent ==> Matches(outcomes, Verdicts(fractals[..i], builds))
        invariant wasConsistent ==> Fit(outcomes, fractals, fits)
      {
        var result := BuildCandidate(env, fractals[i], outputDir);
        ForFilesAppend(outcomes, fractals, result);
        if wasConsistent {
          VerdictsStep(fractals, builds, i, outcomes, result);
          FitAppend(outcomes, fractals, fits, result);
        }
        outcomes := outcomes + [result];
      }
      successful := Successes(outcomes);
      if wasConsistent {
        assert fractals[..|fractals|] == fractals;
        OutcomesTrackCandidates(env, fractals, outcomes, disk.readOnly, outputDir);
        OutcomesAreRecords(env, fractals, outcomes, outputDir);
      }
    }
  }

  /** The fulfilled, non-null results, in order. */
  function Successes(outcomes: seq<Option<BuildResult>>): (r: seq<BuildResult>)
    ensures |r| <= |outcomes|
    ensures forall x :: x in r <==> Some(x) in outcomes
  {
    if outcomes == [] then []
    else (if outcomes[0].Some? then [outcomes[0].value] else []) + Successes(outcomes[1..])
  }

  /** A failing candidate is dropped and the others' results are kept, in order. */
  lemma {:induction false} SuccessesAppend(a: seq<Option<BuildResult>>, b: seq<Option<BuildResult>>)
    ensures Successes(a + b) == Successes(a) + Successes(b)
  {
    if a == [] {
      assert a + b == b;
    } else {
      assert (a + b)[1..] == a[1..] + b;
      SuccessesAppend(a[1..], b);
    }
  }
}
