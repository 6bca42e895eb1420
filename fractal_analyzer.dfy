/**
 * packages/fractal-cli/src/utils/fractal-analyzer.ts: the fractals a fractal's source uses.
 * Candidates are imported component names that appear as JSX elements and resolve to a
 * fractal file next to it; names passed to `registerModule(...)` are always included.
 */
module FractalAnalyzer {
  import opened Wrappers
  import opened JsStrings
  import opened Paths
  import opened InsertionSets
  import opened RegexScan
  import DependencyAnalyzer

  /** `['"`][^'"`]*['"`]` at `q`: where it ends; the quoted text may be empty. */
  function QuotedAnyEnd(s: string, q: nat): (e: Option<nat>)
    requires q <= |s|
    ensures e.Some? ==> q < e.value <= |s|
  {
    if q < |s| && DependencyAnalyzer.IsQuoteChar(s[q]) then
      var n := DependencyAnalyzer.NonQuoteRun(s, q + 1);
      if q + 1 + n < |s| then Some(q + 2 + n) else None
    else None
  }

  /** `from\s+['"`][^'"`]*['"`]` at `f`. */
  function FromEnd(s: string, f: nat): (e: Option<nat>)
    requires f <= |s|
    ensures e.Some? ==> f < e.value <= |s|
  {
    if !StartsWith(s[f..], "from") then None
    else
      var n := SpaceRun(s, f + 4);
      if n == 0 then None else QuotedAnyEnd(s, f + 4 + n)
  }

  /**
   * `import\s+(\w+)\s+from\s+['"`][^'"`]*['"`]` anchored at `p`. Each run is followed by a
   * character it cannot contain, so no run gives anything back.
   */
  function DefaultImportAt(s: string, p: nat): (m: Option<Capture>)
    ensures m.Some? ==> p < m.value.end <= |s| && m.value.text != []
    ensures m.Some? ==> forall k :: 0 <= k < |m.value.text| ==> IsWordChar(m.value.text[k])
  {
    if p > |s| || !StartsWith(s[p..], "import") then None
    else
      var n1 := SpaceRun(s, p + 6);
      var w := p + 6 + n1;
      var len := WordRun(s, w);
      if n1 == 0 || len == 0 then None
      else
        var n2 := SpaceRun(s, w + len);
        if n2 == 0 then None
        else
          match FromEnd(s, w + len + n2)
          case None => None
          case Some(e) => Some(Capture(e, s[w..w + len]))
  }

  /** The first '}' at or after `i`, or `|s|`. */
  function CloseBrace(s: string, i: nat): (c: nat)
    requires i <= |s|
    ensures i <= c <= |s|
    ensures forall k :: i <= k < c ==> s[k] != '}'
    ensures c < |s| ==> s[c] == '}'
    decreases |s| - i
  {
    if i < |s| && s[i] != '}' then CloseBrace(s, i + 1) else i
  }

  /**
   * `import\s*\{\s*([^}]+)\s*\}\s*from\s+['"`][^'"`]*['"`]` anchored at `p`. The capture runs
   * from the first non-space after '{' to the first '}'; when only spaces lie between the
   * braces the leading `\s*` gives one back and the capture is that single space. Any other
   * redistribution of the runs reaches the same '}' and the same failure.
   */
  function NamedImportAt(s: string, p: nat): (m: Option<Capture>)
    ensures m.Some? ==> p < m.value.end <= |s| && m.value.text != []
  {
    if p > |s| || !StartsWith(s[p..], "import") then None
    else
      var b := p + 6 + SpaceRun(s, p + 6);
      if b >= |s| || s[b] != '{' then None
      else
        var close := CloseBrace(s, b + 1);
        if close >= |s| || close == b + 1 then None
        else
          var lead := SpaceRun(s, b + 1);
          var start := if b + 1 + lead < close then b + 1 + lead else close - 1;
          match FromEnd(s, close + 1 + SpaceRun(s, close + 1))
          case None => None
          case Some(e) => Some(Capture(e, s[start..close]))
  }

  /** `registerModule\s*\(\s*['"`]([^'"`]+)['"`]` anchored at `p`. */
  function RegisterCallAt(s: string, p: nat): (m: Option<Capture>)
    ensures m.Some? ==> p < m.value.end <= |s| && m.value.text != []
  {
    if p > |s| || !StartsWith(s[p..], "registerModule") then None
    else
      var o := p + 14 + SpaceRun(s, p + 14);
      if o < |s| && s[o] == '(' then DependencyAnalyzer.QuotedAt(s, o + 1 + SpaceRun(s, o + 1))
      else None
  }

  lemma PatternsAdvance(s: string)
    ensures Advances(DefaultImportAt, s) && Advances(NamedImportAt, s) && Advances(RegisterCallAt, s)
  {
  }

  /** `/^[A-Z]/.test(name)`. */
  predicate IsComponentName(name: string) {
    name != [] && IsUpper(name[0])
  }

  function ComponentNames(names: seq<string>): (r: seq<string>)
    ensures forall x :: x in r <==> x in names && IsComponentName(x)
  {
    if names == [] then []
    else (if IsComponentName(names[0]) then [names[0]] else []) + ComponentNames(names[1..])
  }

  /** Index of the first occurrence of `p` in `s`, or `|s|`. */
  function IndexOf(s: string, p: string): (i: nat)
    ensures i <= |s|
    ensures i < |s| ==> StartsWith(s[i..], p)
    decreases |s|
  {
    if s == [] then 0
    else if StartsWith(s, p) then 0
    else 1 + IndexOf(s[1..], p)
  }

  /** No occurrence of `p` starts before `IndexOf(s, p)`. */
  lemma {:induction false} IndexOfFirst(s: string, p: string)
    ensures forall j :: 0 <= j < IndexOf(s, p) && j < |s| ==> !StartsWith(s[j..], p)
    decreases |s|
  {
    if s != [] && !StartsWith(s, p) {
      IndexOfFirst(s[1..], p);
      assert forall j :: 0 < j <= |s| ==> s[1..][j - 1..] == s[j..];
    }
  }

  /** `imp.split(' as ')[0].trim()` of a trimmed list entry: the imported name, not its alias. */
  function ImportedName(entry: string): string {
    var t := Trim(entry);
    Trim(t[..IndexOf(t, " as ")])
  }

  /** The component names of one `{ ... }` list: entries split on ',' and trimmed. */
  function ListedComponents(entries: seq<string>): seq<string> {
    if entries == [] then []
    else
      var name := ImportedName(entries[0]);
      (if IsComponentName(name) then [name] else []) + ListedComponents(entries[1..])
  }

  function NamedComponents(lists: seq<string>): seq<string> {
    if lists == [] then []
    else ListedComponents(Split(lists[0], c => c == ',')) + NamedComponents(lists[1..])
  }

  /** What `extractImportedComponents` returns: default-import names, then named-import names. */
  function ImportedComponents(content: string): seq<string> {
    PatternsAdvance(content);
    AddAll([], ComponentNames(Captures(DefaultImportAt, content, 0))
               + NamedComponents(Captures(NamedImportAt, content, 0)))
  }

  /** `extractImportedComponents(content)`: two `exec` loops filling an insertion-ordered set. */
  method ExtractImportedComponents(content: string) returns (components: seq<string>)
    ensures components == ImportedComponents(content)
  {
    PatternsAdvance(content);
    components := [];
    var lastIndex := 0;
    while true
      invariant lastIndex <= |content|
      invariant AddAll(components, ComponentNames(Captures(DefaultImportAt, content, lastIndex)))
             == AddAll([], ComponentNames(Captures(DefaultImportAt, content, 0)))
      decreases |content| - lastIndex
    {
      var m := Exec(DefaultImportAt, content, lastIndex);
      if m.None? {
        break;
      }
      var componentName := m.value.text;
      ghost var rest := Captures(DefaultImportAt, content, m.value.end);
      assert Captures(DefaultImportAt, content, lastIndex) == [componentName] + rest;
      assert ([componentName] + rest)[1..] == rest;
      AddAllConcat(components, if IsComponentName(componentName) then [componentName] else [],
                   ComponentNames(rest));
      if IsComponentName(componentName) && componentName !in components {
        components := components + [componentName];
      }
      lastIndex := m.value.end;
    }
    ghost var afterDefault := components;
    lastIndex := 0;
    while true
      invariant lastIndex <= |content|
      invariant AddAll(components, NamedComponents(Captures(NamedImportAt, content, lastIndex)))
             == AddAll(afterDefault, NamedComponents(Captures(NamedImportAt, content, 0)))
      decreases |content| - lastIndex
    {
      var m := Exec(NamedImportAt, content, lastIndex);
      if m.None? {
        break;
      }
      var namedImports := Split(m.value.text, c => c == ',');
      ghost var rest := Captures(NamedImportAt, content, m.value.end);
      assert Captures(NamedImportAt, content, lastIndex) == [m.value.text] + rest;
      assert ([m.value.text] + rest)[1..] == rest;
      AddAllConcat(components, ListedComponents(namedImports), NamedComponents(rest));
      components := AddListed(components, namedImports);
      lastIndex := m.value.end;
    }
    AddAllConcat([], ComponentNames(Captures(DefaultImportAt, content, 0)),
                 NamedComponents(Captures(NamedImportAt, content, 0)));
  }

  /** One `{ ... }` list's component names added in order, as the inner loop of `extractImportedComponents` does. */
  method AddListed(components: seq<string>, entries: seq<string>) returns (r: seq<string>)
    ensures r == AddAll(components, ListedComponents(entries))
  {
    r := components;
    for i := 0 to |entries|
      invariant AddAll(r, ListedComponents(entries[i..])) == AddAll(components, ListedComponents(entries))
    {
      var componentName := ImportedName(entries[i]);
      AddListedStep(r, entries, i);
      if IsComponentName(componentName) && componentName !in r {
        r := r + [componentName];
      }
    }
    assert entries[|entries|..] == [];
  }

  /** Adding the names of `entries[i..]` is adding the name of entry `i`, if any, then the rest. */
  lemma AddListedStep(acc: seq<string>, entries: seq<string>, i: nat)
    requires i < |entries|
    ensures var name := ImportedName(entries[i]);
      AddAll(acc, ListedComponents(entries[i..]))
      == AddAll(if IsComponentName(name) && name !in acc then acc + [name] else acc, ListedComponents(entries[i + 1..]))
  {
    var name := ImportedName(entries[i]);
    var piece := if IsComponentName(name) then [name] else [];
    assert entries[i..][0] == entries[i] && entries[i..][1..] == entries[i + 1..];
    assert ListedComponents(entries[i..]) == piece + ListedComponents(entries[i + 1..]);
    AddAllConcat(acc, piece, ListedComponents(entries[i + 1..]));
  }

  /**
   * `new RegExp('<\\s*' + name + '(?:\\s|>|/)')` anchored at `p`. The name is used as literal
   * text; a candidate is trimmed and starts with a letter, so the `\s*` run gives nothing back.
   */
  predicate JsxAt(s: string, name: string, p: nat) {
    && p < |s| && s[p] == '<'
    && var q := p + 1 + SpaceRun(s, p + 1);
       q + |name| < |s| && s[q..q + |name|] == name
       && (IsSpace(s[q + |name|]) || s[q + |name|] == '>' || s[q + |name|] == '/')
  }

  /** `isUsedAsJSXElement`: the pattern matches somewhere at or after `from`. */
  predicate UsedAsJsx(s: string, name: string, from: nat)
    decreases |s| - from
  {
    from < |s| && (JsxAt(s, name, from) || UsedAsJsx(s, name, from + 1))
  }

  lemma {:induction false} UsedAsJsxIff(s: string, name: string, from: nat)
    ensures UsedAsJsx(s, name, from) <==> exists p :: from <= p && JsxAt(s, name, p)
    decreases |s| - from
  {
    if from < |s| {
      UsedAsJsxIff(s, name, from + 1);
      if exists p :: from <= p && JsxAt(s, name, p) {
        var p :| from <= p && JsxAt(s, name, p);
        if p != from {
          assert from + 1 <= p;
        }
      }
    }
  }

  /** A longer tag that merely starts with the name is not a use: `<CardHeader` is not a use of `Card`. */
  lemma LongerTagIsNoUse(s: string, name: string, p: nat)
    requires p < |s| && s[p] == '<'
    requires var q := p + 1 + SpaceRun(s, p + 1); q + |name| < |s| && IsWordChar(s[q + |name|])
    ensures !JsxAt(s, name, p)
  {
  }

  /** The six places a component file may be, in the order they are tried. */
  function CandidatePaths(fractalPath: Path, name: string): (paths: seq<Path>)
    ensures |paths| == 6
  {
    var dir := Dirname(fractalPath);
    [ dir + [name + ".tsx"], dir + [name + ".jsx"],
      dir + [name, "index.tsx"], dir + [name, "index.jsx"],
      dir + ["components", name + ".tsx"], dir + ["components", name + ".jsx"] ]
  }

  function FirstExisting(fs: FileTree, paths: seq<Path>): (r: Option<Path>)
    ensures r.Some? ==> r.value in fs && r.value in paths
    ensures r.None? ==> forall k :: 0 <= k < |paths| ==> paths[k] !in fs
  {
    if paths == [] then None
    else if paths[0] in fs then Some(paths[0])
    else FirstExisting(fs, paths[1..])
  }

  lemma {:induction false} FirstExistingIsFirst(fs: FileTree, paths: seq<Path>, k: nat)
    requires k < |paths| && paths[k] in fs
    requires forall j :: 0 <= j < k ==> paths[j] !in fs
    ensures FirstExisting(fs, paths) == Some(paths[k])
  {
    if k > 0 {
      FirstExistingIsFirst(fs, paths[1..], k - 1);
    }
  }

  /** `resolveComponentPath`: the first candidate that exists, else null. */
  method ResolveComponentPath(fs: FileTree, fractalPath: Path, componentName: string) returns (r: Option<Path>)
    ensures r == FirstExisting(fs, CandidatePaths(fractalPath, componentName))
  {
    var possiblePaths := CandidatePaths(fractalPath, componentName);
    for i := 0 to |possiblePaths|
      invariant forall j :: 0 <= j < i ==> possiblePaths[j] !in fs
    {
      if possiblePaths[i] in fs {
        FirstExistingIsFirst(fs, possiblePaths, i);
        return Some(possiblePaths[i]);
      }
    }
    r := None;
  }

  /** `isFractalFile`: either quote style after leading whitespace; unreadable means no. */
  predicate IsFractalFile(content: Option<string>) {
    content.Some?
    && (StartsWith(TrimStart(content.value), "\"use fractal\"")
        || StartsWith(TrimStart(content.value), "'use fractal'"))
  }

  /** An imported component is kept when it is used as an element and resolves to a fractal file. */
  predicate Kept(fs: FileTree, fractalPath: Path, content: string, name: string) {
    && UsedAsJsx(content, name, 0)
    && var r := FirstExisting(fs, CandidatePaths(fractalPath, name));
       r.Some? && IsFractalFile(ReadFile(fs, r.value))
  }

  function KeptComponents(fs: FileTree, fractalPath: Path, content: string, names: seq<string>): (r: seq<string>)
    ensures forall x :: x in r <==> x in names && Kept(fs, fractalPath, content, x)
  {
    if names == [] then []
    else (if Kept(fs, fractalPath, content, names[0]) then [names[0]] else [])
         + KeptComponents(fs, fractalPath, content, names[1..])
  }

  /** What `findInternalFractals` returns; nothing when the file cannot be read. */
  function InternalFractals(fs: FileTree, fractalPath: Path): seq<string> {
    match ReadFile(fs, fractalPath)
    case None => []
    case Some(content) =>
      AddAll([], KeptComponents(fs, fractalPath, content, ImportedComponents(content))
                 + RegisteredNames(content))
  }

  /** The names passed to `registerModule(...)`, in order. */
  function RegisteredNames(content: string): (names: seq<string>)
    ensures forall x :: x in names ==> x != []
  {
    PatternsAdvance(content);
    CapturesMatched(RegisterCallAt, content, 0);
    Captures(RegisterCallAt, content, 0)
  }

  /** The test the loop of `findInternalFractals` applies to one imported component. */
  method IsInternalComponent(fs: FileTree, fractalPath: Path, content: string, component: string)
    returns (keep: bool)
    ensures keep == Kept(fs, fractalPath, content, component)
  {
    keep := false;
    if UsedAsJsx(content, component, 0) {
      var componentPath := ResolveComponentPath(fs, fractalPath, component);
      if componentPath.Some? && IsFractalFile(ReadFile(fs, componentPath.value)) {
        keep := true;
      }
    }
  }

  /** `findInternalFractals(fractalPath)`. */
  method FindInternalFractals(fs: FileTree, fractalPath: Path) returns (names: seq<string>)
    ensures names == InternalFractals(fs, fractalPath)
  {
    var read := ReadFile(fs, fractalPath);
    if read.None? {
      return [];
    }
    var content := read.value;
    var importedComponents := ExtractImportedComponents(content);
    names := KeepInternal(fs, fractalPath, content, importedComponents);
    names := AddRegistered(names, content);
    AddAllConcat([], KeptComponents(fs, fractalPath, content, importedComponents),
                 RegisteredNames(content));
  }

  /** The first loop of `findInternalFractals`: the kept components, each once, in order. */
  method KeepInternal(fs: FileTree, fractalPath: Path, content: string, candidates: seq<string>)
    returns (names: seq<string>)
    ensures names == AddAll([], KeptComponents(fs, fractalPath, content, candidates))
  {
    names := [];
    for i := 0 to |candidates|
      invariant names == AddAll([], KeptComponents(fs, fractalPath, content, candidates[..i]))
    {
      var component := candidates[i];
      assert candidates[..i + 1] == candidates[..i] + [component];
      KeptAppend(fs, fractalPath, content, candidates[..i], component);
      AddAllConcat([], KeptComponents(fs, fractalPath, content, candidates[..i]),
                   if Kept(fs, fractalPath, content, component) then [component] else []);
      var keep := IsInternalComponent(fs, fractalPath, content, component);
      if keep && component !in names {
        names := names + [component];
      }
    }
    assert candidates[..|candidates|] == candidates;
  }

  /** The second loop of `findInternalFractals`: every `registerModule` name is added. */
  method AddRegistered(names: seq<string>, content: string) returns (r: seq<string>)
    ensures r == AddAll(names, RegisteredNames(content))
  {
    PatternsAdvance(content);
    r := names;
    var lastIndex := 0;
    while true
      invariant lastIndex <= |content|
      invariant AddAll(r, Captures(RegisterCallAt, content, lastIndex))
             == AddAll(names, Captures(RegisterCallAt, content, 0))
      decreases |content| - lastIndex
    {
      var m := Exec(RegisterCallAt, content, lastIndex);
      if m.None? {
        break;
      }
      ghost var rest := Captures(RegisterCallAt, content, m.value.end);
      assert Captures(RegisterCallAt, content, lastIndex) == [m.value.text] + rest;
      assert ([m.value.text] + rest)[1..] == rest;
      AddAllConcat(r, [m.value.text], rest);
      if m.value.text !in r {
        r := r + [m.value.text];
      }
      lastIndex := m.value.end;
    }
  }

  lemma {:induction false} KeptAppend(fs: FileTree, fractalPath: Path, content: string, names: seq<string>, x: string)
    ensures KeptComponents(fs, fractalPath, content, names + [x])
         == KeptComponents(fs, fractalPath, content, names)
            + (if Kept(fs, fractalPath, content, x) then [x] else [])
  {
    if names == [] {
      assert [x][1..] == [];
    } else {
      assert (names + [x])[1..] == names[1..] + [x];
      KeptAppend(fs, fractalPath, content, names[1..], x);
    }
  }

  /**
   * The result has no duplicates; it holds each imported component that is used as an element
   * and resolves to a fractal file, and each name given to `registerModule`; an unreadable
   * file gives nothing.
   */
  lemma InternalFractalsSpec(fs: FileTree, fractalPath: Path)
    ensures NoDuplicates(InternalFractals(fs, fractalPath))
    ensures fractalPath !in fs ==> InternalFractals(fs, fractalPath) == []
    ensures fractalPath in fs ==>
      var content := fs[fractalPath];
      forall x :: x in InternalFractals(fs, fractalPath) <==>
        (x in ImportedComponents(content) && Kept(fs, fractalPath, content, x))
        || x in RegisteredNames(content)
  {
    if fractalPath in fs {
      var content := fs[fractalPath];
      PatternsAdvance(content);
      AddAllSpec([], KeptComponents(fs, fractalPath, content, ImportedComponents(content))
                     + RegisteredNames(content));
    }
  }

  /** Every candidate component begins with an upper-case letter. */
  lemma ImportedComponentsAreCapitalised(content: string)
    ensures forall x :: x in ImportedComponents(content) ==> IsComponentName(x)
  {
    PatternsAdvance(content);
    var defaults := ComponentNames(Captures(DefaultImportAt, content, 0));
    var named := NamedComponents(Captures(NamedImportAt, content, 0));
    AddAllSpec([], defaults + named);
    NamedComponentsCapitalised(Captures(NamedImportAt, content, 0));
  }

  lemma {:induction false} NamedComponentsCapitalised(lists: seq<string>)
    ensures forall x :: x in NamedComponents(lists) ==> IsComponentName(x)
  {
    if lists != [] {
      NamedComponentsCapitalised(lists[1..]);
      ListedCapitalised(Split(lists[0], c => c == ','));
    }
  }

  lemma {:induction false} ListedCapitalised(entries: seq<string>)
    ensures forall x :: x in ListedComponents(entries) ==> IsComponentName(x)
  {
    if entries != [] {
      ListedCapitalised(entries[1..]);
    }
  }

  /** For `A as B` the imported name `A` is recorded, not the alias. */
  lemma AliasIgnored(a: string, b: string)
    requires a != [] && forall k :: 0 <= k < |a| ==> !IsSpace(a[k])
    requires b != [] && !IsSpace(b[|b| - 1])
    ensures ImportedName(a + " as " + b) == a
  {
    var e := a + " as " + b;
    assert e[0] == a[0] && e[|e| - 1] == b[|b| - 1];
    TrimUnchanged(e);
    FirstAsAfter(a, b);
    assert e[..|a|] == a;
    TrimUnchanged(a);
  }

  /** Text with no `\s` at either end is its own trim. */
  lemma TrimUnchanged(s: string)
    requires s != [] && !IsSpace(s[0]) && !IsSpace(s[|s| - 1])
    ensures Trim(s) == s
  {
    assert TrimStart(s) == s;
  }

  /** In `A as B` with no spaces in `A`, the first " as " starts right after `A`. */
  lemma FirstAsAfter(a: string, b: string)
    requires forall k :: 0 <= k < |a| ==> !IsSpace(a[k])
    ensures IndexOf(a + " as " + b, " as ") == |a|
  {
    var e := a + " as " + b;
    IndexOfFirst(e, " as ");
    assert e[|a|..][..4] == " as ";
    forall j | 0 <= j < |a|
      ensures !StartsWith(e[j..], " as ")
    {
      assert e[j..][0] == a[j];
    }
  }
}
