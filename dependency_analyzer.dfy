/**
 * packages/fractal-cli/src/utils/dependency-analyzer.ts: the declared dependencies of a
 * package, the package names a source file imports, and the declared dependencies it uses.
 */
module DependencyAnalyzer {
  import opened Wrappers
  import opened JsStrings
  import opened Paths
  import opened PackageFinder
  import opened InsertionSets
  import opened RegexScan

  datatype DependencyInfo = DependencyInfo(
    production: map<string, string>,
    development: map<string, string>,
    peer: map<string, string>)

  const NoDependencies: DependencyInfo := DependencyInfo(map[], map[], map[])

  /**
   * `analyzeDependencies(packageJsonPath)`: the three declared maps, each `{}` when absent;
   * three empty maps when the descriptor cannot be read or parsed.
   */
  function AnalyzeDependencies(fs: FileTree, parse: Parser, packageJsonPath: Path): (info: DependencyInfo)
    ensures (packageJsonPath !in fs || parse(fs[packageJsonPath]).None?) ==> info == NoDependencies
    ensures packageJsonPath in fs && parse(fs[packageJsonPath]).Some? ==>
      var pkg := parse(fs[packageJsonPath]).value;
      && (pkg.dependencies.Some? ==> info.production == pkg.dependencies.value)
      && (pkg.devDependencies.Some? ==> info.development == pkg.devDependencies.value)
      && (pkg.peerDependencies.Some? ==> info.peer == pkg.peerDependencies.value)
      && (pkg.dependencies.None? ==> info.production == map[])
      && (pkg.devDependencies.None? ==> info.development == map[])
      && (pkg.peerDependencies.None? ==> info.peer == map[])
  {
    match ReadFile(fs, packageJsonPath)
    case None => NoDependencies
    case Some(text) =>
      match parse(text)
      case None => NoDependencies
      case Some(pkg) =>
        DependencyInfo(
          pkg.dependencies.GetOr(map[]),
          pkg.devDependencies.GetOr(map[]),
          pkg.peerDependencies.GetOr(map[]))
  }

  /** The quote class `['"`]` of both patterns. */
  predicate IsQuoteChar(c: char) {
    c == '\'' || c == '"' || c == '`'
  }

  /** Length of the maximal run of non-quote characters from `i`: a greedy `[^'"`]+`, which also crosses newlines. */
  function NonQuoteRun(s: string, i: nat): (n: nat)
    requires i <= |s|
    ensures i + n <= |s|
    ensures forall k :: i <= k < i + n ==> !IsQuoteChar(s[k])
    ensures i + n == |s| || IsQuoteChar(s[i + n])
    decreases |s| - i
  {
    if i < |s| && !IsQuoteChar(s[i]) then 1 + NonQuoteRun(s, i + 1) else 0
  }

  /**
   * `['"`]([^'"`]+)['"`]` at `q`. The run cannot give back characters, since what follows it
   * must be a quote; the closing quote need not match the opening one.
   */
  function QuotedAt(s: string, q: nat): (c: Option<Capture>)
    requires q <= |s|
    ensures c.Some? ==> q < c.value.end <= |s| && c.value.text != []
  {
    if q < |s| && IsQuoteChar(s[q]) then
      var n := NonQuoteRun(s, q + 1);
      if n > 0 && q + 1 + n < |s| then Some(Capture(q + 2 + n, s[q + 1..q + 1 + n])) else None
    else None
  }

  /** `\s+from\s+['"`]([^'"`]+)['"`]` at `c`; each `\s+` is followed by a non-space, so it takes its whole run. */
  function FromClauseAt(s: string, c: nat): (m: Option<Capture>)
    requires c <= |s|
    ensures m.Some? ==> c < m.value.end <= |s| && m.value.text != []
  {
    var n1 := SpaceRun(s, c);
    var f := c + n1;
    if n1 == 0 || !StartsWith(s[f..], "from") then None
    else
      var n2 := SpaceRun(s, f + 4);
      if n2 == 0 then None else QuotedAt(s, f + 4 + n2)
  }

  /**
   * The lazy `.*?` before the from-clause: try the clause at `c`, and only then let `.*?`
   * take the character at `c`, which it cannot when that is a line terminator.
   */
  function LazyFromClause(s: string, c: nat): (m: Option<Capture>)
    requires c <= |s|
    ensures m.Some? ==> c < m.value.end <= |s| && m.value.text != []
    decreases |s| - c
  {
    match FromClauseAt(s, c)
    case Some(m) => Some(m)
    case None =>
      if c < |s| && !IsLineTerminator(s[c]) then LazyFromClause(s, c + 1) else None
  }

  /**
   * `import\s+.*?\s+from\s+['"`]([^'"`]+)['"`]` anchored at `p`. With the greedy `\s+` after
   * `import` taking its whole run of `m` spaces, `.*?` scans forward from the first non-space.
   * If that fails the engine gives one space back; the from-clause may then start on that
   * space, and every other attempt repeats one already made.
   */
  function ImportAt(s: string, p: nat): (m: Option<Capture>)
    ensures m.Some? ==> p < m.value.end <= |s| && m.value.text != []
  {
    if p > |s| || !StartsWith(s[p..], "import") then None
    else
      var m := SpaceRun(s, p + 6);
      if m == 0 then None
      else
        match LazyFromClause(s, p + 6 + m)
        case Some(c) => Some(c)
        case None => if m >= 2 then FromClauseAt(s, p + 6 + m - 1) else None
  }

  /**
   * `require\s*\(\s*['"`]([^'"`]+)['"`]\s*\)` anchored at `p`; both `\s*` runs before a fixed
   * character are taken whole.
   */
  function RequireAt(s: string, p: nat): (m: Option<Capture>)
    ensures m.Some? ==> p < m.value.end <= |s| && m.value.text != []
  {
    if p > |s| || !StartsWith(s[p..], "require") then None
    else
      var o := p + 7 + SpaceRun(s, p + 7);
      if o < |s| && s[o] == '(' then
        match QuotedAt(s, o + 1 + SpaceRun(s, o + 1))
        case None => None
        case Some(c) =>
          var e := c.end + SpaceRun(s, c.end);
          if e < |s| && s[e] == ')' then Some(Capture(e + 1, c.text)) else None
      else None
  }

  /** Neither pattern can match the empty string, so both `exec` loops advance. */
  lemma PatternsAdvance(s: string)
    ensures Advances(ImportAt, s) && Advances(RequireAt, s)
  {
  }

  /**
   * The package an import path names, or `None` for a relative path (one starting with '.').
   * A scoped path keeps its first two '/'-segments, any other path its first.
   */
  function PackageName(importPath: string): (name: Option<string>)
    ensures name.None? <==> StartsWith(importPath, ".")
  {
    if StartsWith(importPath, ".") then None
    else
      var parts := Split(importPath, c => c == '/');
      if StartsWith(importPath, "@") then Some(JsStrings.Join(parts[..if |parts| < 2 then |parts| else 2], "/"))
      else Some(parts[0])
  }

  /** The package names of a list of captured paths, relative paths dropped. */
  function Names(paths: seq<string>): seq<string> {
    if paths == [] then []
    else
      match PackageName(paths[0])
      case None => Names(paths[1..])
      case Some(n) => [n] + Names(paths[1..])
  }

  /** The names `extractImports` returns: those of `import` matches, then those of `require` matches. */
  function ImportedPackages(content: string): seq<string> {
    PatternsAdvance(content);
    AddAll([], Names(Captures(ImportAt, content, 0)) + Names(Captures(RequireAt, content, 0)))
  }

  /** The name list has no duplicates and holds exactly the names of all matches of both patterns. */
  lemma ImportedPackagesSpec(content: string)
    ensures NoDuplicates(ImportedPackages(content))
    ensures forall x :: x in ImportedPackages(content) <==>
              (x in Names(Captures(ImportAt, content, 0)) || x in Names(Captures(RequireAt, content, 0)))
  {
    AddAllSpec([], Names(Captures(ImportAt, content, 0)) + Names(Captures(RequireAt, content, 0)));
  }

  /** A name never starts with '.', so relative imports contribute nothing. */
  lemma {:induction false} NamesNotRelative(paths: seq<string>)
    requires forall k :: 0 <= k < |paths| ==> paths[k] != []
    ensures forall x :: x in Names(paths) ==> !StartsWith(x, ".")
  {
    if paths != [] {
      NamesNotRelative(paths[1..]);
      var p := paths[0];
      if !StartsWith(p, ".") {
        var parts := Split(p, c => c == '/');
        SplitFirstIsPrefix(p, c => c == '/');
        if StartsWith(p, "@") {
          var n := PackageName(p).value;
          assert parts[0] != [] && parts[0][0] == '@';
          if |parts| < 2 {
            assert parts[..|parts|] == [parts[0]];
          } else {
            assert parts[..2] == [parts[0], parts[1]];
            JoinTwo(parts[0], parts[1], "/");
          }
          assert n[0] == '@';
        }
      }
    }
  }

  /** The first piece of a split is a prefix of the text, ending at the first separator. */
  lemma {:induction false} SplitFirstIsPrefix(s: string, isSep: char -> bool)
    ensures StartsWith(s, Split(s, isSep)[0])
    ensures |Split(s, isSep)[0]| < |s| ==> isSep(s[|Split(s, isSep)[0]|])
    decreases |s|
  {
    if s != [] {
      SplitFirstIsPrefix(s[1..], isSep);
    }
  }

  /** Splitting text that opens with a separator-free piece and a separator gives that piece, then the rest's pieces. */
  lemma SplitAfterPiece(a: string, b: string, isSep: char -> bool, sep: char)
    requires isSep(sep)
    requires forall k :: 0 <= k < |a| ==> !isSep(a[k])
    ensures Split(a + [sep] + b, isSep) == [a] + Split(b, isSep)
    decreases |a|
  {
    if a == [] {
      assert ([sep] + b)[1..] == b;
    } else {
      assert (a + [sep] + b)[0] == a[0];
      assert (a + [sep] + b)[1..] == a[1..] + [sep] + b;
      SplitAfterPiece(a[1..], b, isSep, sep);
      assert [a[0]] + a[1..] == a;
    }
  }

  predicate NoSlash(s: string) {
    forall k :: 0 <= k < |s| ==> s[k] != '/'
  }

  /** A scoped path keeps its scope and package segments: `@s/p/x` names `@s/p`. */
  lemma ScopedPackageName(scope: string, pkg: string, rest: string)
    requires NoSlash(scope) && NoSlash(pkg)
    ensures PackageName("@" + scope + "/" + pkg + "/" + rest) == Some("@" + scope + "/" + pkg)
  {
    var isSep := c => c == '/';
    var path := "@" + scope + "/" + pkg + "/" + rest;
    assert path == ("@" + scope) + ['/'] + (pkg + "/" + rest);
    SplitAfterPiece("@" + scope, pkg + "/" + rest, isSep, '/');
    assert pkg + "/" + rest == pkg + ['/'] + rest;
    SplitAfterPiece(pkg, rest, isSep, '/');
    var parts := Split(path, isSep);
    assert parts[..2] == ["@" + scope, pkg];
    JoinTwo("@" + scope, pkg, "/");
  }

  lemma JoinTwo(a: string, b: string, sep: string)
    ensures JsStrings.Join([a, b], sep) == a + sep + b
  {
    assert [a, b][1..] == [b];
  }

  /** An unscoped path keeps its first segment: `lodash/fp` names `lodash`. */
  lemma UnscopedPackageName(name: string, rest: string)
    requires NoSlash(name) && !StartsWith(name, "@") && !StartsWith(name, ".") && name != []
    ensures PackageName(name + "/" + rest) == Some(name)
  {
    assert name + "/" + rest == name + ['/'] + rest;
    SplitAfterPiece(name, rest, c => c == '/', '/');
    assert (name + "/" + rest)[..1] == name[..1];
  }

  /**
   * `extractImports(content)`: two `exec` loops, each resuming at the end of the previous
   * match, adding each non-relative package name to an insertion-ordered set.
   */
  method ExtractImports(content: string) returns (imports: seq<string>)
    ensures imports == ImportedPackages(content)
  {
    imports := [];
    var lastIndex := 0;
    while true
      invariant lastIndex <= |content|
      invariant AddAll(imports, Names(Captures(ImportAt, content, lastIndex)))
             == AddAll([], Names(Captures(ImportAt, content, 0)))
      decreases |content| - lastIndex
    {
      var m := Exec(ImportAt, content, lastIndex);
      if m.None? {
        break;
      }
      var importPath := m.value.text;
      if !StartsWith(importPath, ".") {
        var packageName := PackageName(importPath).value;
        if packageName !in imports {
          imports := imports + [packageName];
        }
      }
      lastIndex := m.value.end;
    }
    ghost var afterImports := imports;
    assert imports == AddAll([], Names(Captures(ImportAt, content, 0)));
    lastIndex := 0;
    while true
      invariant lastIndex <= |content|
      invariant AddAll(imports, Names(Captures(RequireAt, content, lastIndex)))
             == AddAll(afterImports, Names(Captures(RequireAt, content, 0)))
      decreases |content| - lastIndex
    {
      var m := Exec(RequireAt, content, lastIndex);
      if m.None? {
        break;
      }
      var importPath := m.value.text;
      if !StartsWith(importPath, ".") {
        var packageName := PackageName(importPath).value;
        if packageName !in imports {
          imports := imports + [packageName];
        }
      }
      lastIndex := m.value.end;
    }
    AddAllConcat([], Names(Captures(ImportAt, content, 0)), Names(Captures(RequireAt, content, 0)));
  }

  /** The entries of `declared` whose key is imported and whose version is truthy (non-empty). */
  ghost predicate IsUsedPart(used: map<string, string>, declared: map<string, string>, imported: seq<string>) {
    && (forall k :: k in used <==> k in declared && declared[k] != "" && k in imported)
    && (forall k :: k in used ==> used[k] == declared[k])
  }

  /**
   * `getUsedDependencies(fractalPath, allDependencies)`: the declared entries the file imports,
   * per category, with their versions; the input unchanged when the file cannot be read.
   */
  method GetUsedDependencies(content: Option<string>, all: DependencyInfo) returns (used: DependencyInfo)
    ensures content.None? ==> used == all
    ensures content.Some? ==>
      && IsUsedPart(used.production, all.production, ImportedPackages(content.value))
      && IsUsedPart(used.development, all.development, ImportedPackages(content.value))
      && IsUsedPart(used.peer, all.peer, ImportedPackages(content.value))
  {
    if content.None? {
      return all;
    }
    var imports := ExtractImports(content.value);
    var production: map<string, string> := map[];
    var development: map<string, string> := map[];
    var peer: map<string, string> := map[];
    for i := 0 to |imports|
      invariant IsUsedPart(production, all.production, imports[..i])
      invariant IsUsedPart(development, all.development, imports[..i])
      invariant IsUsedPart(peer, all.peer, imports[..i])
    {
      var importName := imports[i];
      assert forall k :: k in imports[..i + 1] <==> k in imports[..i] || k == importName;
      if importName in all.production && all.production[importName] != "" {
        production := production[importName := all.production[importName]];
      }
      if importName in all.development && all.development[importName] != "" {
        development := development[importName := all.development[importName]];
      }
      if importName in all.peer && all.peer[importName] != "" {
        peer := peer[importName := all.peer[importName]];
      }
    }
    assert imports[..|imports|] == imports;
    used := DependencyInfo(production, development, peer);
  }

  /** What the filter keeps is a sub-map of what was declared: no entry added, no version changed. */
  lemma UsedIsSubmap(used: map<string, string>, declared: map<string, string>, imported: seq<string>)
    requires IsUsedPart(used, declared, imported)
    ensures used.Keys <= declared.Keys
    ensures forall k :: k in used ==> used[k] == declared[k] && used[k] != ""
  {
  }
}
