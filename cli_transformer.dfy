/**
 * packages/fractal-cli/src/utils/fractal-transformer.ts: turns a detected source file into
 * the bundler entry. The directive line is removed, the component name is chosen, and the
 * registration glue is appended around the remaining text.
 */
module CliTransformer {
  import opened Wrappers
  import opened JsStrings
  import opened Paths

  /** Length of `"use fractal";`, the fixed part of the directive pattern. */
  const DirectiveLength: nat := 14

  /**
   * The directive pattern `^["']use fractal["'];` with the multiline flag matches at `p`:
   * `p` starts a line, each quote may be of either kind, and the semicolon is required.
   */
  predicate DirectiveLineAt(s: string, p: nat) {
    && p + DirectiveLength <= |s|
    && (p == 0 || IsLineTerminator(s[p - 1]))
    && IsQuote(s[p]) && s[p + 1..p + 12] == "use fractal" && IsQuote(s[p + 12])
    && s[p + 13] == ';'
  }

  /** The leftmost position at or after `from` where the directive pattern matches. */
  function FirstDirectiveLine(s: string, from: nat): (r: Option<nat>)
    requires from <= |s|
    ensures r.Some? ==> from <= r.value <= |s| && DirectiveLineAt(s, r.value)
    ensures forall j :: from <= j <= |s| && (r.None? || j < r.value) ==> !DirectiveLineAt(s, j)
    decreases |s| - from
  {
    if DirectiveLineAt(s, from) then Some(from)
    else if from == |s| then None
    else FirstDirectiveLine(s, from + 1)
  }

  /**
   * `content.replace(/^["']use fractal["'];\s*\n?/m, '')`: the first match is removed together
   * with the whole run of whitespace after it (the greedy `\s*` already takes any newline,
   * so `\n?` matches nothing). At most one directive goes.
   */
  function StripDirective(s: string): string {
    match FirstDirectiveLine(s, 0)
    case None => s
    case Some(p) => s[..p] + s[p + DirectiveLength + SpaceRun(s, p + DirectiveLength)..]
  }

  /** With no line starting with the directive the text is unchanged. */
  lemma StripNothing(s: string)
    requires forall j :: 0 <= j <= |s| ==> !DirectiveLineAt(s, j)
    ensures StripDirective(s) == s
  {
  }

  /**
   * Otherwise exactly one contiguous region goes: it starts at the first line that begins
   * with the directive and spans the directive and the whole whitespace run after it.
   */
  lemma StripFirst(s: string, p: nat)
    requires p <= |s| && DirectiveLineAt(s, p)
    requires forall j :: 0 <= j < p ==> !DirectiveLineAt(s, j)
    ensures StripDirective(s) == s[..p] + s[p + DirectiveLength + SpaceRun(s, p + DirectiveLength)..]
  {
    var r := FirstDirectiveLine(s, 0);
    assert r.Some? && r.value == p;
  }

  /** The semicolon is required: a directive written without one is never the match. */
  lemma DirectiveWithoutSemicolonKept(s: string, p: nat)
    requires p + DirectiveLength <= |s| && s[p + 13] != ';'
    ensures !DirectiveLineAt(s, p)
  {
  }

  /** The multiline flag: a directive at the start of a later line is removed when no earlier line holds one. */
  lemma LaterLineStripped(first: string, rest: string)
    requires forall k :: 0 <= k < |first| ==> !IsLineTerminator(first[k])
    requires !DirectiveLineAt(first + "\n" + rest, 0)
    requires |rest| >= DirectiveLength && DirectiveLineAt(rest, 0)
    ensures StripDirective(first + "\n" + rest)
         == first + "\n" + rest[DirectiveLength + SpaceRun(rest, DirectiveLength)..]
  {
    var line := first + "\n";
    assert FirstDirectiveLine(line + rest, 0) == Some(|line|) by {
      NoDirectiveInsideLine(first, rest);
      FirstDirectiveAfterLine(line, rest);
    }
    StripAfterLine(line, rest);
  }

  /** No directive before the end of `line`, and one right after it: that one is the first. */
  lemma FirstDirectiveAfterLine(line: string, rest: string)
    requires line != [] && IsLineTerminator(line[|line| - 1])
    requires forall j :: 0 <= j < |line| ==> !DirectiveLineAt(line + rest, j)
    requires DirectiveLineAt(rest, 0)
    ensures FirstDirectiveLine(line + rest, 0) == Some(|line|)
  {
    DirectiveLineShift(line, rest);
    var r := FirstDirectiveLine(line + rest, 0);
    assert r.Some? && r.value == |line|;
  }

  /** Removing the directive that starts right after `line` keeps `line` and what follows the whitespace run. */
  lemma StripAfterLine(line: string, rest: string)
    requires |rest| >= DirectiveLength && FirstDirectiveLine(line + rest, 0) == Some(|line|)
    ensures StripDirective(line + rest) == line + rest[DirectiveLength + SpaceRun(rest, DirectiveLength)..]
  {
    StripAtShifted(line, rest);
    SplitAfterPrefix(line, rest, DirectiveLength + SpaceRun(rest, DirectiveLength));
  }

  lemma {:induction false} StripAtShifted(line: string, rest: string)
    requires |rest| >= DirectiveLength && FirstDirectiveLine(line + rest, 0) == Some(|line|)
    ensures StripDirective(line + rest)
            == (line + rest)[..|line|] + (line + rest)[|line| + DirectiveLength + SpaceRun(rest, DirectiveLength)..]
  {
    StripAt(line + rest, |line|);
    SpaceRunShift(line, rest, DirectiveLength);
  }

  lemma {:induction false} StripAt(s: string, p: nat)
    requires FirstDirectiveLine(s, 0) == Some(p)
    ensures p + DirectiveLength <= |s|
    ensures StripDirective(s) == s[..p] + s[p + DirectiveLength + SpaceRun(s, p + DirectiveLength)..]
  {
  }

  lemma SplitAfterPrefix(a: string, b: string, i: nat)
    requires i <= |b|
    ensures (a + b)[..|a|] == a && (a + b)[|a| + i..] == b[i..]
  {
  }

  lemma NoDirectiveInsideLine(first: string, rest: string)
    requires forall k :: 0 <= k < |first| ==> !IsLineTerminator(first[k])
    requires !DirectiveLineAt(first + "\n" + rest, 0)
    ensures forall j :: 0 <= j < |first + "\n"| ==> !DirectiveLineAt(first + "\n" + rest, j)
  {
    var s := first + "\n" + rest;
    forall j | 0 < j <= |first|
      ensures !DirectiveLineAt(s, j)
    {
      assert s[j - 1] == first[j - 1];
    }
  }

  lemma DirectiveLineShift(a: string, b: string)
    requires a != [] && IsLineTerminator(a[|a| - 1])
    requires DirectiveLineAt(b, 0)
    ensures DirectiveLineAt(a + b, |a|)
  {
    var s := a + b;
    var p := |a|;
    assert s[p - 1] == a[|a| - 1];
    assert s[p] == b[0] && s[p + 12] == b[12] && s[p + 13] == b[13];
    assert s[p + 1..p + 12] == b[1..12];
  }

  lemma {:induction false} SpaceRunShift(a: string, b: string, i: nat)
    requires i <= |b|
    ensures SpaceRun(a + b, |a| + i) == SpaceRun(b, i)
    decreases |b| - i
  {
    if i < |b| {
      assert (a + b)[|a| + i] == b[i];
      SpaceRunShift(a, b, i + 1);
    }
  }

  /** Which form of export declaration named the component. */
  datatype ExportKind = DefaultExport | NamedExport

  datatype ExportMatch = ExportMatch(kind: ExportKind, name: string)

  /** The end of `function`, `const` or `class` at `r`, tried in that order. */
  function KeywordEnd(s: string, r: nat): (e: Option<nat>)
    requires r <= |s|
    ensures e.Some? ==> r < e.value <= |s|
  {
    if StartsWith(s[r..], "function") then Some(r + 8)
    else if StartsWith(s[r..], "const") then Some(r + 5)
    else if StartsWith(s[r..], "class") then Some(r + 5)
    else None
  }

  /**
   * `export\s+(?:default\s+)?(?:function|const|class)\s+(\w+)` anchored at `p`. Every `\s+`
   * is followed by a letter, so the greedy run is the only one that can succeed; when the
   * optional `default\s+` group matches but no keyword follows, retrying without the group
   * cannot help because the next character is 'd'.
   */
  function ExportAt(s: string, p: nat): (m: Option<ExportMatch>)
    requires p <= |s|
    ensures m.Some? ==> m.value.name != [] && forall k :: 0 <= k < |m.value.name| ==> IsWordChar(m.value.name[k])
  {
    if !StartsWith(s[p..], "export") then None
    else
      var n1 := SpaceRun(s, p + 6);
      if n1 == 0 then None
      else
        var q := p + 6 + n1;
        var isDefault := StartsWith(s[q..], "default") && SpaceRun(s, q + 7) > 0;
        var r := if isDefault then q + 7 + SpaceRun(s, q + 7) else q;
        match KeywordEnd(s, r)
        case None => None
        case Some(e) =>
          var n2 := SpaceRun(s, e);
          if n2 == 0 then None
          else
            var w := e + n2;
            var len := WordRun(s, w);
            if len == 0 then None
            else Some(ExportMatch(if isDefault then DefaultExport else NamedExport, s[w..w + len]))
  }

  /**
   * A non-global `String.prototype.match`: the result at the leftmost position in `from..end`
   * where the anchored pattern `at` matches, and none when it matches nowhere there.
   */
  function Leftmost<T>(at: nat -> Option<T>, from: nat, end: nat): (r: Option<T>)
    requires from <= end
    ensures r.Some? ==> exists q :: from <= q <= end && at(q) == r
                                    && forall j :: from <= j < q ==> at(j).None?
    ensures r.None? ==> forall j :: from <= j <= end ==> at(j).None?
    decreases end - from
  {
    if at(from).Some? then at(from)
    else if from == end then None
    else Leftmost(at, from + 1, end)
  }

  /** The export declaration pattern anchored at `p`, for every position of `s` and its end. */
  function ExportsOf(s: string): nat -> Option<ExportMatch> {
    (p: nat) => if p <= |s| then ExportAt(s, p) else None
  }

  /** `content.match(...)`: the leftmost export declaration at or after `from`. */
  function FirstExport(s: string, from: nat): Option<ExportMatch>
    requires from <= |s|
  {
    Leftmost(ExportsOf(s), from, |s|)
  }

  /** `charAt(0).toUpperCase() + slice(1)`. */
  function Capitalise(s: string): (r: string)
    ensures |r| == |s|
    ensures s != [] ==> r[0] == ToUpperChar(s[0]) && r[1..] == s[1..]
  {
    if s == [] then [] else [ToUpperChar(s[0])] + s[1..]
  }

  /**
   * `extractComponentName`: the identifier of the leftmost export declaration, or else the
   * file's base name without its extension, first character upper-cased.
   */
  function ComponentName(filePath: Path, content: string): (name: string)
    ensures FirstExport(content, 0).Some? ==> name == FirstExport(content, 0).value.name
    ensures FirstExport(content, 0).None? ==> name == Capitalise(StripExtension(Basename(filePath)))
  {
    match FirstExport(content, 0)
    case Some(m) => m.name
    case None => Capitalise(StripExtension(Basename(filePath)))
  }

  /** The export on the earliest declaration wins, whatever follows it. */
  lemma ComponentNameIsLeftmost(filePath: Path, content: string, q: nat)
    requires q <= |content| && ExportAt(content, q).Some?
    requires forall j :: 0 <= j < q ==> ExportAt(content, j).None?
    ensures ComponentName(filePath, content) == ExportAt(content, q).value.name
  {
    var at := ExportsOf(content);
    var m := Leftmost(at, 0, |content|);
    assert at(q) == ExportAt(content, q);
    var q' :| 0 <= q' <= |content| && at(q') == m && forall j :: 0 <= j < q' ==> at(j).None?;
    assert at(q') == ExportAt(content, q');
    assert !(q < q');
    assert !(q' < q);
  }

  /** Without any export declaration the name is the file's base name with a capital first letter. */
  lemma FallbackName(filePath: Path, content: string)
    requires forall j :: 0 <= j <= |content| ==> ExportAt(content, j).None?
    ensures var base := StripExtension(Basename(filePath));
            var name := ComponentName(filePath, content);
            |name| == |base| && (base != [] ==> !IsLower(name[0]) && name[1..] == base[1..])
  {
  }

  const Header: string := "\nimport { registerModule } from '@fractal/core';\n\n"

  /** The window-guarded registration call that follows the content. */
  function Registration(fractalName: string, componentName: string): string {
    RegistrationOpen + fractalName + "', " + componentName + RegistrationClose
  }

  // The fixed pieces of the registration call and the re-exports.
  const RegistrationOpen: string :=
    "\n\n// Register the component for module federation with the full fractal name\n"
    + "if (typeof window !== 'undefined') {\n  registerModule('"
  const RegistrationClose: string := ");\n}\n\n"
  const NamedOpen: string := "export { "
  const NamedClose: string := " };\n"
  const DefaultOpen: string := "export default "
  const DefaultClose: string := ";\n"

  /** The named and default re-exports with which the source's glue ends. */
  function Reexports(componentName: string): string {
    NamedOpen + componentName + NamedClose + DefaultOpen + componentName + DefaultClose
  }

  /** `wrapWithModuleFederation`: the template around the stripped content. */
  function Wrap(componentName: string, fractalName: string, content: string): (out: string)
    ensures |out| == |Header| + |content| + |Registration(fractalName, componentName)| + |Reexports(componentName)|
  {
    Header + content + Registration(fractalName, componentName) + Reexports(componentName)
  }

  /** Recovers the wrapped content from an entry, given the name and component it registers. */
  function Unwrap(out: string, tail: string): Option<string> {
    if StartsWith(out, Header) && |Header| + |tail| <= |out| && EndsWith(out, tail)
    then Some(out[|Header|..|out| - |tail|])
    else None
  }

  /** The content is carried verbatim: unwrapping an entry gives back exactly the text that was wrapped. */
  lemma WrapRoundTrip(componentName: string, fractalName: string, content: string)
    ensures Unwrap(Wrap(componentName, fractalName, content),
                   Registration(fractalName, componentName) + Reexports(componentName)) == Some(content)
  {
    var tail := Registration(fractalName, componentName) + Reexports(componentName);
    var out := Wrap(componentName, fractalName, content);
    assert out == Header + content + tail;
    assert out[..|Header|] == Header;
    assert out[|out| - |tail|..] == tail;
    assert out[|Header|..|out| - |tail|] == content;
  }

  /**
   * `transform(filePath, fractalName)` as written: `None` when reading the file rejects.
   * The name is chosen from the content before the directive is removed.
   */
  function Transform(content: Option<string>, filePath: Path, fractalName: string): (out: Option<string>)
    ensures out.Some? <==> content.Some?
  {
    match content
    case None => None
    case Some(c) => Some(Wrap(ComponentName(filePath, c), fractalName, StripDirective(c)))
  }

  /** The entry is the stripped file content inside the glue for the chosen component. */
  lemma TransformKeepsStrippedContent(c: string, filePath: Path, fractalName: string)
    ensures var name := ComponentName(filePath, c);
            Unwrap(Transform(Some(c), filePath, fractalName).value,
                   Registration(fractalName, name) + Reexports(name)) == Some(StripDirective(c))
  {
    WrapRoundTrip(ComponentName(filePath, c), fractalName, StripDirective(c));
  }

  /**
   * The names an ES module entry exports through the matched declaration and through the glue.
   * A module that exports one name twice is rejected by section 16.2.1.1 of ECMA-262.
   */
  function DeclaredExports(m: Option<ExportMatch>): multiset<string> {
    match m
    case None => multiset{}
    case Some(ExportMatch(DefaultExport, _)) => multiset{"default"}
    case Some(ExportMatch(NamedExport, name)) => multiset{name}
  }

  /** The characters that end the name in one of the glue's export statements. */
  const NameEnd: set<char> := {' ', ';', '\n'}

  /** A name an export statement of the glue carries whole: not empty, and none of those characters. */
  predicate IsGlueName(n: string) {
    n != [] && forall k :: 0 <= k < |n| ==> n[k] !in NameEnd
  }

  /**
   * The names a run of `export { X };` and `export default X;` statements exports, read off
   * the text: `X` for the first form, "default" for the second. Reading stops at the first
   * text that is neither.
   */
  function ExportedNames(t: string): multiset<string>
    decreases |t|
  {
    if StartsWith(t, NamedOpen) then
      var e := |NamedOpen| + RunUntil(t, |NamedOpen|, NameEnd);
      if e > |NamedOpen| && StartsWith(t[e..], NamedClose) then
        multiset{t[|NamedOpen|..e]} + ExportedNames(t[e + |NamedClose|..])
      else multiset{}
    else if StartsWith(t, DefaultOpen) then
      var e := |DefaultOpen| + RunUntil(t, |DefaultOpen|, NameEnd);
      if e > |DefaultOpen| && StartsWith(t[e..], DefaultClose) then
        multiset{"default"} + ExportedNames(t[e + |DefaultClose|..])
      else multiset{}
    else multiset{}
  }

  /** `export { X };` exports `X`, then whatever follows it does. */
  lemma {:induction false} NamedStatement(name: string, rest: string)
    requires IsGlueName(name)
    ensures ExportedNames(NamedOpen + name + NamedClose + rest) == multiset{name} + ExportedNames(rest)
  {
    var t := NamedOpen + name + NamedClose + rest;
    var o := |NamedOpen|;
    var e := o + |name|;
    assert t[..o] == NamedOpen;
    assert forall k :: o <= k < e ==> t[k] == name[k - o];
    assert t[e] == ' ';
    RunUntilExact(t, o, |name|, NameEnd);
    assert t[o..e] == name;
    assert t[e..][..|NamedClose|] == NamedClose;
    assert t[e + |NamedClose|..] == rest;
  }

  /** `export default X;` exports "default", then whatever follows it does. */
  lemma {:induction false} DefaultStatement(name: string, rest: string)
    requires IsGlueName(name)
    ensures ExportedNames(DefaultOpen + name + DefaultClose + rest) == multiset{"default"} + ExportedNames(rest)
  {
    var t := DefaultOpen + name + DefaultClose + rest;
    var o := |DefaultOpen|;
    var e := o + |name|;
    assert !StartsWith(t, NamedOpen) by {
      assert t[7] == 'd' && NamedOpen[7] == '{';
    }
    assert t[..o] == DefaultOpen;
    assert forall k :: o <= k < e ==> t[k] == name[k - o];
    assert t[e] == ';';
    RunUntilExact(t, o, |name|, NameEnd);
    assert t[e..][..|DefaultClose|] == DefaultClose;
    assert t[e + |DefaultClose|..] == rest;
  }

  /** An identifier is carried whole by the glue's statements. */
  lemma WordIsGlueName(n: string)
    requires n != [] && forall k :: 0 <= k < |n| ==> IsWordChar(n[k])
    ensures IsGlueName(n)
  {
  }

  /** The component named by a matched declaration is an identifier. */
  lemma {:induction false} FirstExportIsWord(s: string)
    requires FirstExport(s, 0).Some?
    ensures IsGlueName(FirstExport(s, 0).value.name)
  {
    var at := ExportsOf(s);
    var q :| 0 <= q <= |s| && at(q) == FirstExport(s, 0) && forall j :: 0 <= j < q ==> at(j).None?;
    assert at(q) == ExportAt(s, q);
    WordIsGlueName(FirstExport(s, 0).value.name);
  }

  /** The as-written glue's statements export the component's name and "default", whatever the declaration. */
  lemma {:induction false} ReexportsNames(name: string)
    requires IsGlueName(name)
    ensures ExportedNames(Reexports(name)) == multiset{name, "default"}
  {
    var d := DefaultOpen + name + DefaultClose;
    assert Reexports(name) == NamedOpen + name + NamedClose + d;
    assert d == DefaultOpen + name + DefaultClose + "";
    NamedStatement(name, d);
    DefaultStatement(name, "");
    assert !StartsWith("", NamedOpen) && !StartsWith("", DefaultOpen);
  }

  /**
   * The as-written glue exports again what the matched declaration already exports: a file
   * written `export default function Card` ends up exporting "default" twice, and one written
   * `export const Card` exports "Card" twice.
   */
  lemma {:induction false} DuplicateExport(content: string, filePath: Path)
    requires FirstExport(content, 0).Some?
    ensures var name := ComponentName(filePath, content);
            var exported := DeclaredExports(FirstExport(content, 0)) + ExportedNames(Reexports(name));
            exists x :: exported[x] >= 2
  {
    var m := FirstExport(content, 0).value;
    FirstExportIsWord(content);
    ReexportsNames(m.name);
    var exported := DeclaredExports(FirstExport(content, 0)) + ExportedNames(Reexports(m.name));
    if m.kind == DefaultExport {
      assert exported["default"] >= 2;
    } else {
      assert exported[m.name] >= 2;
    }
  }

  /** `export default function <name><rest>`, its parts grouped from the right. */
  function DefaultFunctionSource(name: string, rest: string): string {
    "export" + (" " + ("default" + (" " + ("function" + (" " + (name + rest))))))
  }

  predicate IsWord(w: string) {
    w != [] && forall k :: 0 <= k < |w| ==> IsWordChar(w[k])
  }

  /** The declaration pattern reads `export default function <name>` as a default export of `name`. */
  lemma DefaultFunctionMatch(name: string, rest: string)
    requires IsWord(name) && (rest == [] || !IsWordChar(rest[0]))
    ensures FirstExport(DefaultFunctionSource(name, rest), 0) == Some(ExportMatch(DefaultExport, name))
  {
    DefaultFunctionExportAt(name, rest);
  }

  lemma DefaultFunctionExportAt(name: string, rest: string)
    requires IsWord(name) && (rest == [] || !IsWordChar(rest[0]))
    ensures ExportAt(DefaultFunctionSource(name, rest), 0) == Some(ExportMatch(DefaultExport, name))
  {
    var s := DefaultFunctionSource(name, rest);
    DefaultFunctionKeywords(name, rest);
    DefaultFunctionName(name, rest);
    DefaultExportAtStart(s, name);
  }

  /** The pattern's steps, taken over any text laid out as `export default function <name>`. */
  lemma DefaultExportAtStart(s: string, name: string)
    requires 24 + |name| <= |s| && name != []
    requires StartsWith(s[0..], "export") && SpaceRun(s, 6) == 1
    requires StartsWith(s[7..], "default") && SpaceRun(s, 14) == 1
    requires KeywordEnd(s, 15) == Some(23) && SpaceRun(s, 23) == 1
    requires WordRun(s, 24) == |name| && s[24..24 + |name|] == name
    ensures ExportAt(s, 0) == Some(ExportMatch(DefaultExport, name))
  {
  }

  /** The keywords and the single spaces between them sit at fixed offsets. */
  lemma DefaultFunctionKeywords(name: string, rest: string)
    requires IsWord(name)
    ensures var s := DefaultFunctionSource(name, rest);
            && StartsWith(s[0..], "export") && SpaceRun(s, 6) == 1
            && StartsWith(s[7..], "default") && SpaceRun(s, 14) == 1
            && KeywordEnd(s, 15) == Some(23) && SpaceRun(s, 23) == 1
  {
    var tail := name + rest;
    var r4 := "function" + (" " + tail);
    var r2 := "default" + (" " + r4);
    var s := "export" + (" " + r2);
    assert StartsWith(s[0..], "export") by {
      assert s[0..][..6] == "export";
    }
    assert SpaceRun(s, 6) == 1 by {
      assert s[6] == ' ' && s[7] == 'd';
    }
    assert StartsWith(s[7..], "default") && SpaceRun(s, 14) == 1 by {
      assert s[7..] == r2;
      assert r2[..7] == "default";
      assert s[14] == ' ' && s[15] == 'f';
    }
    assert KeywordEnd(s, 15) == Some(23) by {
      assert s[15..] == r4;
      assert r4[..8] == "function";
    }
    assert SpaceRun(s, 23) == 1 by {
      assert s[23] == ' ' && s[24] == name[0];
      WordCharNotSpace(name[0]);
    }
  }

  /** The identifier after the keyword is the whole word `name`. */
  lemma DefaultFunctionName(name: string, rest: string)
    requires IsWord(name) && (rest == [] || !IsWordChar(rest[0]))
    ensures var s := DefaultFunctionSource(name, rest);
            24 + |name| <= |s| && WordRun(s, 24) == |name| && s[24..24 + |name|] == name
  {
    var s := DefaultFunctionSource(name, rest);
    assert s[24..] == name + rest;
    assert s[24 + |name|..] == rest;
    WordRunOver(s, 24, name);
  }

  lemma WordCharNotSpace(c: char)
    requires IsWordChar(c)
    ensures !IsSpace(c)
  {
  }

  /** A word followed by a non-word character (or the end) is exactly what `\w+` takes. */
  lemma WordRunOver(s: string, i: nat, w: string)
    requires IsWord(w) && i + |w| <= |s| && s[i..] == w + s[i + |w|..]
    requires i + |w| == |s| || !IsWordChar(s[i + |w|])
    ensures WordRun(s, i) == |w|
  {
    assert forall k :: 0 <= k < |w| ==> s[i + k] == s[i..][k] == w[k];
  }

  /**
   * The component `export default function <Name>` (`Card`, say) is exported as "default"
   * twice by the as-written entry: once by its own declaration and once by the glue
   * (`default` itself is a reserved word and cannot name the function).
   */
  lemma {:induction false} DefaultFunctionExportedTwice(name: string, rest: string, filePath: Path)
    requires IsWord(name) && (rest == [] || !IsWordChar(rest[0]))
    requires name != "default"
    ensures var content := DefaultFunctionSource(name, rest);
            var m := FirstExport(content, 0);
            (DeclaredExports(m) + ExportedNames(Reexports(ComponentName(filePath, content))))["default"] == 2
  {
    DefaultFunctionMatch(name, rest);
    WordIsGlueName(name);
    ReexportsNames(name);
  }

  /**
   * The glue with the duplicate removed: it adds only the export forms the matched declaration
   * does not provide, and both when no declaration matched.
   */
  function FixedReexports(m: Option<ExportMatch>, componentName: string): string {
    match m
    case Some(ExportMatch(DefaultExport, _)) => NamedOpen + componentName + NamedClose
    case Some(ExportMatch(NamedExport, _)) => DefaultOpen + componentName + DefaultClose
    case None => Reexports(componentName)
  }

  lemma PrefixOfConcat(h: string, t: string)
    ensures StartsWith(h + t, h)
  {
    assert (h + t)[..|h|] == h;
  }

  /** The template with the corrected glue around the stripped content. */
  function WrapFixed(m: Option<ExportMatch>, componentName: string, fractalName: string, content: string): string {
    Header + content + Registration(fractalName, componentName) + FixedReexports(m, componentName)
  }

  /** The corrected template keeps the content verbatim right after the import. */
  lemma WrapFixedKeepsContent(m: Option<ExportMatch>, componentName: string, fractalName: string, content: string)
    ensures StartsWith(WrapFixed(m, componentName, fractalName, content), Header + content)
  {
    PrefixOfConcat(Header + content, Registration(fractalName, componentName) + FixedReexports(m, componentName));
  }

  /** `transform` with the corrected glue; the rest of the pipeline builds from this entry. */
  function TransformFixed(content: Option<string>, filePath: Path, fractalName: string): (out: Option<string>)
    ensures out.Some? <==> content.Some?
  {
    match content
    case None => None
    case Some(c) => Some(WrapFixed(FirstExport(c, 0), ComponentName(filePath, c), fractalName, StripDirective(c)))
  }

  /**
   * With the corrected glue the entry exports the component exactly once by name and exactly
   * once as default. Without a declaration the name is the file's, which the statements carry
   * whole only when it is a glue name.
   */
  lemma {:induction false} FixedExportsOnce(content: string, filePath: Path)
    ensures var m := FirstExport(content, 0);
            var name := ComponentName(filePath, content);
            m.Some? || IsGlueName(name) ==>
              DeclaredExports(m) + ExportedNames(FixedReexports(m, name)) == multiset{name, "default"}
  {
    var m := FirstExport(content, 0);
    var name := ComponentName(filePath, content);
    if m.Some? {
      FirstExportIsWord(content);
      assert !StartsWith("", NamedOpen) && !StartsWith("", DefaultOpen);
      if m.value.kind == DefaultExport {
        assert FixedReexports(m, name) == NamedOpen + name + NamedClose + "";
        NamedStatement(name, "");
      } else {
        assert FixedReexports(m, name) == DefaultOpen + name + DefaultClose + "";
        DefaultStatement(name, "");
      }
    } else if IsGlueName(name) {
      ReexportsNames(name);
    }
  }

  /** The corrected entry still starts with the import followed verbatim by the stripped content. */
  lemma FixedKeepsStrippedContent(c: string, filePath: Path, fractalName: string)
    ensures StartsWith(TransformFixed(Some(c), filePath, fractalName).value, Header + StripDirective(c))
  {
    WrapFixedKeepsContent(FirstExport(c, 0), ComponentName(filePath, c), fractalName, StripDirective(c));
  }
}
