/**
 * packages/fractal-cli/src/utils/fractal-detector.ts: which candidate source files are
 * fractals. The glob runs are inputs (their ignore list is not modelled); the filter
 * loop and the directive test are modelled.
 */
module CliDetector {
  import opened Wrappers
  import opened JsStrings
  import opened Paths

  /** The directive the CLI recognises: the double-quoted literal only. */
  const Directive: string := "\"use fractal\""

  datatype FractalInfo = FractalInfo(filePath: Path, fileName: string)

  /** `isFractal` applied to the result of reading the file; a failed read is `None`. */
  predicate IsFractalContent(content: Option<string>) {
    content.Some? && StartsWith(TrimStart(content.value), Directive)
  }

  /** `isFractal(filePath)`: read the file and test it; a read failure yields false. */
  predicate IsFractal(fs: FileTree, p: Path) {
    IsFractalContent(ReadFile(fs, p))
  }

  /** The record `findFractals` pushes for a selected file. */
  function Info(p: Path): (info: FractalInfo)
    ensures info.filePath == p && info.fileName == Basename(p)
  {
    FractalInfo(p, Basename(p))
  }

  /** The files the filter loop keeps, in the order it visits them. */
  function Selected(fs: FileTree, files: seq<Path>): seq<FractalInfo>
  {
    if files == [] then []
    else
      var last := files[|files| - 1];
      Selected(fs, files[..|files| - 1]) + (if IsFractal(fs, last) then [Info(last)] else [])
  }

  /**
   * `findFractals`: concatenate the `.jsx` glob matches and then the `.tsx` glob matches,
   * and keep, in that order, each file that `isFractal` accepts, paired with its basename.
   */
  method FindFractals(fs: FileTree, jsxMatches: seq<Path>, tsxMatches: seq<Path>)
    returns (fractals: seq<FractalInfo>)
    ensures fractals == Selected(fs, jsxMatches) + Selected(fs, tsxMatches)
  {
    var patterns := [jsxMatches, tsxMatches];
    var files: seq<Path> := [];
    for i := 0 to |patterns|
      invariant files == if i == 0 then [] else if i == 1 then jsxMatches else jsxMatches + tsxMatches
    {
      files := files + patterns[i];
    }
    fractals := [];
    for i := 0 to |files|
      invariant fractals == Selected(fs, files[..i])
    {
      assert files[..i + 1][..i] == files[..i];
      if IsFractal(fs, files[i]) {
        fractals := fractals + [FractalInfo(files[i], Basename(files[i]))];
      }
    }
    assert files[..|files|] == files;
    SelectedAppend(fs, jsxMatches, tsxMatches);
  }

  /** Filtering a concatenation filters each part, keeping the first part's records first. */
  lemma {:induction false} SelectedAppend(fs: FileTree, a: seq<Path>, b: seq<Path>)
    ensures Selected(fs, a + b) == Selected(fs, a) + Selected(fs, b)
    decreases |b|
  {
    if b == [] {
      assert a + b == a;
    } else {
      assert (a + b)[..|a + b| - 1] == a + b[..|b| - 1];
      SelectedAppend(fs, a, b[..|b| - 1]);
    }
  }

  /** A record is selected exactly when its file is among the candidates, is a fractal, and the record names its basename. */
  lemma {:induction false} SelectedMembers(fs: FileTree, files: seq<Path>, info: FractalInfo)
    ensures info in Selected(fs, files)
        <==> info.filePath in files && IsFractal(fs, info.filePath) && info.fileName == Basename(info.filePath)
  {
    if files != [] {
      var init := files[..|files| - 1];
      SelectedMembers(fs, init, info);
      assert files == init + [files[|files| - 1]];
    }
  }

  /** No more records than candidates, and every record pairs a path with its basename. */
  lemma {:induction false} SelectedShape(fs: FileTree, files: seq<Path>)
    ensures |Selected(fs, files)| <= |files|
    ensures forall k :: 0 <= k < |Selected(fs, files)| ==>
      Selected(fs, files)[k].fileName == Basename(Selected(fs, files)[k].filePath)
  {
    if files != [] {
      SelectedShape(fs, files[..|files| - 1]);
    }
  }

  /**
   * The directive test as a statement about positions: the content opens with a run of
   * whitespace followed by the double-quoted directive.
   */
  lemma IsFractalIff(content: string)
    ensures IsFractalContent(Some(content))
        <==> exists k :: 0 <= k <= |content| && (forall i :: 0 <= i < k ==> IsSpace(content[i]))
                         && StartsWith(content[k..], Directive)
  {
    var t := TrimStart(content);
    var n := |content| - |t|;
    if exists k :: 0 <= k <= |content| && (forall i :: 0 <= i < k ==> IsSpace(content[i]))
                   && StartsWith(content[k..], Directive) {
      var k :| 0 <= k <= |content| && (forall i :: 0 <= i < k ==> IsSpace(content[i]))
               && StartsWith(content[k..], Directive);
      DirectiveAfterBlanks(content, k);
      assert content[n..] == t;
    }
    if IsFractalContent(Some(content)) {
      assert content[n..] == t;
      assert 0 <= n <= |content| && (forall i :: 0 <= i < n ==> IsSpace(content[i])) && StartsWith(content[n..], Directive);
    }
  }

  /** A directive after a run of blanks starts exactly where `trimStart` cuts. */
  lemma {:induction false} DirectiveAfterBlanks(content: string, k: nat)
    requires k <= |content| && (forall i :: 0 <= i < k ==> IsSpace(content[i]))
    requires StartsWith(content[k..], Directive)
    ensures k == |content| - |TrimStart(content)|
  {
    var t := TrimStart(content);
    var n := |content| - |t|;
    assert content[k] == content[k..][0] == '"';
    assert !IsSpace(content[k]);
    assert n < |content| ==> content[n] == t[0];
  }

  /** Whatever the first non-blank character is, if it is not '"' the file is not selected; so a single-quoted directive and a directive that follows other code are both rejected. */
  lemma FirstNonBlankDecides(content: string, k: nat)
    requires k < |content|
    requires forall i :: 0 <= i < k ==> IsSpace(content[i])
    requires !IsSpace(content[k]) && content[k] != '"'
    ensures !IsFractalContent(Some(content))
  {
    IsFractalIff(content);
    assert !IsSpace(content[k]);
    forall j | 0 <= j <= k
      ensures !StartsWith(content[j..], Directive)
    {
      assert Directive[0] == '"';
      assert j < k ==> IsSpace(content[j]);
    }
  }

  /** The single-quoted form, as written in the registry's examples, is not a CLI fractal. */
  lemma SingleQuotedRejected(rest: string)
    ensures !IsFractalContent(Some("'use fractal';" + rest))
  {
    FirstNonBlankDecides("'use fractal';" + rest, 0);
  }
}
