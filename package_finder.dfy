/**
 * packages/fractal-cli/src/utils/package-finder.ts: the owning package of a source file,
 * found by walking up from its directory with a per-directory cache, and the
 * deterministic `package::kebab-name::version` identity built from it.
 */
module PackageFinder {
  import opened Wrappers
  import opened JsStrings
  import opened Paths

  /**
   * The fields of a parsed package.json that the pipeline reads. A field that is absent
   * is `None`; string fields of another JSON type are not modelled.
   */
  datatype PackageJson = PackageJson(
    name: Option<string>,
    version: Option<string>,
    dependencies: Option<map<string, string>>,
    devDependencies: Option<map<string, string>>,
    peerDependencies: Option<map<string, string>>)

  /** `JSON.parse` of a descriptor's text; `None` where it throws. */
  type Parser = string -> Option<PackageJson>

  datatype PackageInfo = PackageInfo(name: string, version: string, path: Path)

  const DescriptorName: string := "package.json"

  /** A string field is truthy when present and non-empty. */
  predicate Present(field: Option<string>) {
    field.Some? && field.value != ""
  }

  /** One step of the walk: the descriptor in `dir`, if it reads, parses and has a truthy name and version. */
  function Probe(fs: FileTree, parse: Parser, dir: Path): (r: Option<PackageInfo>)
    ensures r.Some? ==> r.value.path == PathJoin(dir, DescriptorName)
    ensures r.Some? ==> r.value.name != "" && r.value.version != ""
    ensures r.Some? <==> PathJoin(dir, DescriptorName) in fs && parse(fs[PathJoin(dir, DescriptorName)]).Some?
                         && Present(parse(fs[PathJoin(dir, DescriptorName)]).value.name)
                         && Present(parse(fs[PathJoin(dir, DescriptorName)]).value.version)
  {
    var p := PathJoin(dir, DescriptorName);
    match ReadFile(fs, p)
    case None => None
    case Some(text) =>
      match parse(text)
      case None => None
      case Some(pkg) =>
        if Present(pkg.name) && Present(pkg.version) then Some(PackageInfo(pkg.name.value, pkg.version.value, p))
        else None
  }

  /** The first directory of `dirs` whose probe succeeds. */
  function FirstFound(fs: FileTree, parse: Parser, dirs: seq<Path>): Option<PackageInfo> {
    if dirs == [] then None
    else if Probe(fs, parse, dirs[0]).Some? then Probe(fs, parse, dirs[0])
    else FirstFound(fs, parse, dirs[1..])
  }

  /** What an uncached `findClosestPackage` returns for a file in `dir`. */
  function ClosestPackage(fs: FileTree, parse: Parser, dir: Path): Option<PackageInfo> {
    FirstFound(fs, parse, Ancestors(dir))
  }

  /** The result is the nearest directory upward whose probe succeeds; null means none below the root did. */
  lemma {:induction false} FirstFoundIsNearest(fs: FileTree, parse: Parser, dirs: seq<Path>)
    ensures FirstFound(fs, parse, dirs).None? <==> forall k :: 0 <= k < |dirs| ==> Probe(fs, parse, dirs[k]).None?
    ensures FirstFound(fs, parse, dirs).Some? ==>
      exists k :: 0 <= k < |dirs| && FirstFound(fs, parse, dirs) == Probe(fs, parse, dirs[k])
                  && forall j :: 0 <= j < k ==> Probe(fs, parse, dirs[j]).None?
  {
    if dirs != [] {
      FirstFoundIsNearest(fs, parse, dirs[1..]);
      if Probe(fs, parse, dirs[0]).None? && FirstFound(fs, parse, dirs).Some? {
        var k :| 0 <= k < |dirs[1..]| && FirstFound(fs, parse, dirs[1..]) == Probe(fs, parse, dirs[1..][k])
                 && forall j :: 0 <= j < k ==> Probe(fs, parse, dirs[1..][j]).None?;
        assert FirstFound(fs, parse, dirs) == Probe(fs, parse, dirs[k + 1]);
        assert forall j :: 0 <= j < k + 1 ==> Probe(fs, parse, dirs[j]).None? by {
          forall j | 0 <= j < k + 1 ensures Probe(fs, parse, dirs[j]).None? {
            if j > 0 { assert dirs[j] == dirs[1..][j - 1]; }
          }
        }
      }
      if Probe(fs, parse, dirs[0]).None? {
        assert forall k :: 0 < k < |dirs| ==> dirs[k] == dirs[1..][k - 1];
      }
    }
  }

  /** The root is never examined: a file directly under the root has no owning package. */
  lemma RootHasNoPackage(fs: FileTree, parse: Parser)
    ensures ClosestPackage(fs, parse, Root) == None
  {
  }

  /** Every cached answer is the one an uncached walk over `fs` would give. */
  ghost predicate CacheAgrees(cache: map<Path, Option<PackageInfo>>, fs: FileTree, parse: Parser) {
    forall d :: d in cache ==> cache[d] == ClosestPackage(fs, parse, d)
  }

  /** Caching a fresh walk's answer keeps the cache agreeing with the filesystem. */
  lemma CacheAgreesUpdate(cache: map<Path, Option<PackageInfo>>, fs: FileTree, parse: Parser, dir: Path)
    requires CacheAgrees(cache, fs, parse)
    ensures CacheAgrees(cache[dir := ClosestPackage(fs, parse, dir)], fs, parse)
  {
  }

  /**
   * The uncached walk: probe `dir` and each ancestor below the root, nearest first, and stop
   * at the first success. `examined` lists the directories probed, in order.
   */
  method WalkUp(fs: FileTree, parse: Parser, dir: Path) returns (r: Option<PackageInfo>, examined: seq<Path>)
    ensures r == ClosestPackage(fs, parse, dir)
    ensures |examined| <= |dir| && examined == Ancestors(dir)[..|examined|]
    ensures r.None? ==> examined == Ancestors(dir)
    ensures r.Some? ==> examined != [] && r.value.path == PathJoin(examined[|examined| - 1], DescriptorName)
  {
    var currentDir := dir;
    examined := [];
    ghost var all := Ancestors(dir);
    AncestorsSpec(dir);
    ghost var k := 0;
    while currentDir != Root
      invariant 0 <= k <= |dir| && currentDir == dir[..|dir| - k]
      invariant examined == all[..k]
      invariant FirstFound(fs, parse, all) == FirstFound(fs, parse, all[k..])
      decreases |dir| - k
    {
      assert all[k] == currentDir;
      examined := examined + [currentDir];
      assert examined == all[..k + 1];
      var found := Probe(fs, parse, currentDir);
      if found.Some? {
        assert all[k..][0] == currentDir;
        r := found;
        return;
      }
      assert all[k..][1..] == all[k + 1..];
      currentDir := Dirname(currentDir);
      k := k + 1;
    }
    assert all[k..] == [];
    r := None;
  }

  /** `findClosestPackage` and its cache, keyed by the directory of the file. */
  class Finder {
    var cache: map<Path, Option<PackageInfo>>

    constructor ()
      ensures cache == map[]
    {
      cache := map[];
    }

    /** Every cached answer is the one an uncached walk over `fs` would give. */
    ghost predicate Consistent(fs: FileTree, parse: Parser)
      reads this
    {
      CacheAgrees(cache, fs, parse)
    }

    /**
     * `findClosestPackage(filePath)`. `examined` lists the directories whose package.json
     * the call reads, in order: none on a cache hit, otherwise the walk from the file's
     * directory up to the first success, or all the way to (but excluding) the root.
     */
    method FindClosestPackage(fs: FileTree, parse: Parser, filePath: Path)
      returns (r: Option<PackageInfo>, examined: seq<Path>)
      modifies this
      ensures Dirname(filePath) in old(cache) ==>
        r == old(cache)[Dirname(filePath)] && examined == [] && cache == old(cache)
      ensures Dirname(filePath) !in old(cache) ==>
        && r == ClosestPackage(fs, parse, Dirname(filePath))
        && cache == old(cache)[Dirname(filePath) := r]
        && |examined| <= |Dirname(filePath)|
        && examined == Ancestors(Dirname(filePath))[..|examined|]
        && (r.None? ==> examined == Ancestors(Dirname(filePath)))
        && (r.Some? ==> examined != [] && r.value.path == PathJoin(examined[|examined| - 1], DescriptorName))
      ensures old(Consistent(fs, parse)) ==> Consistent(fs, parse) && r == ClosestPackage(fs, parse, Dirname(filePath))
    {
      var dir := Dirname(filePath);
      if dir in cache {
        r := cache[dir];
        examined := [];
        return;
      }
      r, examined := WalkUp(fs, parse, dir);
      if old(Consistent(fs, parse)) {
        CacheAgreesUpdate(cache, fs, parse, dir);
      }
      cache := cache[dir := r];
    }

    /** `clearCache`. */
    method ClearCache()
      modifies this
      ensures cache == map[]
    {
      cache := map[];
    }
  }

  /** `replace(/([A-Z])/g, '-$1')`: a hyphen before every upper-case letter. */
  function Hyphenate(s: string): (r: string)
    ensures |r| >= |s|
  {
    if s == [] then []
    else (if IsUpper(s[0]) then ['-', s[0]] else [s[0]]) + Hyphenate(s[1..])
  }

  /** `replace(/^-/, '')`: at most one leading hyphen removed. */
  function DropLeadingHyphen(s: string): (r: string)
    ensures r == s || (s != [] && s[0] == '-' && r == s[1..])
  {
    if s != [] && s[0] == '-' then s[1..] else s
  }

  /** The kebab segment of the identity: hyphenate, lower-case, drop one leading hyphen. */
  function KebabName(base: string): (r: string)
    ensures forall k :: 0 <= k < |r| ==> !IsUpper(r[k])
  {
    DropLeadingHyphen(ToLower(Hyphenate(base)))
  }

  /** `replace(/[@/]/g, '-')`. */
  function ReplaceScopeChars(s: string): (r: string)
    ensures |r| == |s|
    ensures forall k :: 0 <= k < |s| ==> r[k] == (if s[k] == '@' || s[k] == '/' then '-' else s[k])
  {
    if s == [] then [] else [if s[0] == '@' || s[0] == '/' then '-' else s[0]] + ReplaceScopeChars(s[1..])
  }

  /** `replace(/^-+/, '')`. */
  function TrimLeadingHyphens(s: string): (r: string)
    ensures |r| <= |s| && r == s[|s| - |r|..]
    ensures r == [] || r[0] != '-'
  {
    if s != [] && s[0] == '-' then TrimLeadingHyphens(s[1..]) else s
  }

  /** `replace(/-+$/, '')`. */
  function TrimTrailingHyphens(s: string): (r: string)
    ensures |r| <= |s| && r == s[..|r|]
    ensures r == [] || r[|r| - 1] != '-'
  {
    if s != [] && s[|s| - 1] == '-' then TrimTrailingHyphens(s[..|s| - 1]) else s
  }

  /** The package-name segment: '@' and '/' become '-', then leading and trailing hyphens go. */
  function CleanPackageName(name: string): (r: string)
    ensures forall k :: 0 <= k < |r| ==> r[k] != '@' && r[k] != '/'
    ensures r == [] || (r[0] != '-' && r[|r| - 1] != '-')
    ensures |r| <= |name|
  {
    var replaced := ReplaceScopeChars(name);
    TrimmedFrom(replaced);
    TrimTrailingHyphens(TrimLeadingHyphens(replaced))
  }

  /** Trimming hyphens at both ends leaves a contiguous piece of the text. */
  lemma {:induction false} TrimmedFrom(s: string)
    ensures var t := TrimLeadingHyphens(s);
            forall k :: 0 <= k < |TrimTrailingHyphens(t)| ==> TrimTrailingHyphens(t)[k] == s[|s| - |t| + k]
  {
    var t := TrimLeadingHyphens(s);
    var r := TrimTrailingHyphens(t);
    forall k | 0 <= k < |r|
      ensures r[k] == s[|s| - |t| + k]
    {
      assert r[k] == t[..|r|][k] == t[k];
      assert t[k] == s[|s| - |t|..][k];
    }
  }

  /** `generateFractalName(packageInfo, fileName)`. */
  function FractalName(pkg: PackageInfo, fileName: string): string {
    CleanPackageName(pkg.name) + "::" + KebabName(StripExtension(fileName)) + "::" + pkg.version
  }

  /** Reads an identity back into its three segments, splitting at the first two "::" separators. */
  function ParseIdentity(id: string): Option<(string, string, string)> {
    var i := IndexOfChar(id, ':');
    if i + 1 < |id| && id[i + 1] == ':' then
      var rest := id[i + 2..];
      var j := IndexOfChar(rest, ':');
      if j + 1 < |rest| && rest[j + 1] == ':' then Some((id[..i], rest[..j], rest[j + 2..]))
      else None
    else None
  }

  predicate NoColon(s: string) {
    forall k :: 0 <= k < |s| ==> s[k] != ':'
  }

  lemma {:induction false} IndexOfCharPrefix(a: string, b: string, c: char)
    requires forall k :: 0 <= k < |a| ==> a[k] != c
    requires b != [] && b[0] == c
    ensures IndexOfChar(a + b, c) == |a|
    decreases |a|
  {
    if a != [] {
      assert (a + b)[1..] == a[1..] + b;
      IndexOfCharPrefix(a[1..], b, c);
    }
  }

  /**
   * The identity round-trips: when neither the package name nor the file's base name
   * contains ':', the cleaned name, the kebab name and the verbatim version are read back.
   */
  lemma IdentityRoundTrip(pkg: PackageInfo, fileName: string)
    requires NoColon(pkg.name) && NoColon(StripExtension(fileName))
    ensures ParseIdentity(FractalName(pkg, fileName))
         == Some((CleanPackageName(pkg.name), KebabName(StripExtension(fileName)), pkg.version))
  {
    CleanNoColon(pkg.name);
    KebabNoColon(StripExtension(fileName));
    ParseJoined(CleanPackageName(pkg.name), KebabName(StripExtension(fileName)), pkg.version);
  }

  lemma ParseJoined(a: string, b: string, v: string)
    requires NoColon(a) && NoColon(b)
    ensures ParseIdentity(a + "::" + b + "::" + v) == Some((a, b, v))
  {
    var id := a + "::" + b + "::" + v;
    assert id == a + ("::" + b + "::" + v);
    IndexOfCharPrefix(a, "::" + b + "::" + v, ':');
    var rest := id[|a| + 2..];
    assert rest == b + ("::" + v);
    IndexOfCharPrefix(b, "::" + v, ':');
    assert id[..|a|] == a;
    assert rest[..|b|] == b;
    assert rest[|b| + 2..] == v;
  }

  lemma CleanNoColon(name: string)
    requires NoColon(name)
    ensures NoColon(CleanPackageName(name))
  {
    var replaced := ReplaceScopeChars(name);
    TrimmedFrom(replaced);
  }

  lemma KebabNoColon(base: string)
    requires NoColon(base)
    ensures NoColon(KebabName(base))
  {
    HyphenateNoColon(base);
  }

  lemma {:induction false} HyphenateNoColon(s: string)
    requires NoColon(s)
    ensures NoColon(Hyphenate(s))
  {
    if s != [] {
      HyphenateNoColon(s[1..]);
    }
  }

  /** Two packages that differ only in version get different identities. */
  lemma VersionDistinguishes(pkg: PackageInfo, fileName: string, otherVersion: string)
    requires otherVersion != pkg.version
    ensures FractalName(pkg, fileName) != FractalName(pkg.(version := otherVersion), fileName)
  {
    var prefix := CleanPackageName(pkg.name) + "::" + KebabName(StripExtension(fileName)) + "::";
    var a := FractalName(pkg, fileName);
    var b := FractalName(pkg.(version := otherVersion), fileName);
    assert a == prefix + pkg.version && b == prefix + otherVersion;
    assert a[|prefix|..] == pkg.version;
    assert b[|prefix|..] == otherVersion;
  }

  predicate NoScopeChars(s: string) {
    forall k :: 0 <= k < |s| ==> s[k] != '@' && s[k] != '/'
  }

  /** An unscoped name without hyphens at its ends is used unchanged. */
  lemma UnscopedNameUnchanged(name: string)
    requires NoScopeChars(name)
    requires name == [] || (name[0] != '-' && name[|name| - 1] != '-')
    ensures CleanPackageName(name) == name
  {
    assert ReplaceScopeChars(name) == name;
  }

  /** A scoped name `@scope/pkg` becomes `scope-pkg`. */
  lemma ScopedNameJoined(scope: string, pkg: string)
    requires scope != [] && pkg != []
    requires NoScopeChars(scope) && NoScopeChars(pkg)
    requires scope[0] != '-' && pkg[|pkg| - 1] != '-'
    ensures CleanPackageName("@" + scope + "/" + pkg) == scope + "-" + pkg
  {
    var name := "@" + scope + "/" + pkg;
    var replaced := ReplaceScopeChars(name);
    assert replaced == "-" + scope + "-" + pkg;
    assert replaced[1..] == scope + "-" + pkg;
    assert (scope + "-" + pkg)[0] == scope[0];
    assert TrimLeadingHyphens(replaced) == scope + "-" + pkg;
  }

  /** Without upper-case letters the base name is kept, unless it begins with a hyphen. */
  lemma {:induction false} KebabOfLowerName(base: string)
    requires forall k :: 0 <= k < |base| ==> !IsUpper(base[k])
    requires base == [] || base[0] != '-'
    ensures KebabName(base) == base
  {
    HyphenateNoUpper(base);
  }

  lemma {:induction false} HyphenateNoUpper(s: string)
    requires forall k :: 0 <= k < |s| ==> !IsUpper(s[k])
    ensures Hyphenate(s) == s
  {
    if s != [] {
      HyphenateNoUpper(s[1..]);
    }
  }

  /** A leading capital does not produce a leading hyphen: "Card" gives "card", and each later capital starts a new hyphenated word. */
  lemma KebabOfCapitalised(c: char, rest: string)
    requires IsUpper(c)
    ensures KebabName([c] + rest) == [ToLowerChar(c)] + ToLower(Hyphenate(rest))
  {
    assert ([c] + rest)[1..] == rest;
    assert Hyphenate([c] + rest) == ['-', c] + Hyphenate(rest);
    assert ToLower(['-', c] + Hyphenate(rest)) == ['-', ToLowerChar(c)] + ToLower(Hyphenate(rest));
  }
}
