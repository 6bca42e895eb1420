/**
 * Node's `path` functions over resolved absolute paths. A path is the sequence of its
 * segments below the filesystem root, so the root itself is `[]`; `dirname` of the root
 * is the root, which is how the source's upward walks detect that they reached it.
 */
module Paths {
  import opened Wrappers
  import opened JsStrings

  type Path = seq<string>

  const Root: Path := []

  /** The readable text files of the filesystem; a path that is absent cannot be read. */
  type FileTree = map<Path, string>

  /** `fs.readFile(p, 'utf-8')`: the text, or `None` where the call rejects. */
  function ReadFile(fs: FileTree, p: Path): (r: Option<string>)
    ensures r.Some? <==> p in fs
    ensures p in fs ==> r.value == fs[p]
  {
    if p in fs then Some(fs[p]) else None
  }

  /** `path.dirname`: the parent directory; the root is its own parent. */
  function Dirname(p: Path): (d: Path)
    ensures p != Root ==> |d| == |p| - 1 && d == p[..|p| - 1]
    ensures p == Root ==> d == Root
  {
    if p == [] then [] else p[..|p| - 1]
  }

  /** `path.basename`: the last segment. */
  function Basename(p: Path): string {
    if p == [] then "" else p[|p| - 1]
  }

  /** `path.join(dir, name)` for a single segment `name`. */
  function PathJoin(dir: Path, name: string): (p: Path)
    ensures Dirname(p) == dir && Basename(p) == name
  {
    dir + [name]
  }

  /** Index of the last '.' of `name`, or `|name|` when there is none. */
  function LastDot(name: string): (i: nat)
    ensures i <= |name|
    ensures i < |name| ==> name[i] == '.' && forall k :: i < k < |name| ==> name[k] != '.'
    ensures i == |name| ==> forall k :: 0 <= k < |name| ==> name[k] != '.'
  {
    if name == [] then 0
    else if name[|name| - 1] == '.' then |name| - 1
    else
      var j := LastDot(name[..|name| - 1]);
      if j == |name| - 1 then |name| else j
  }

  /**
   * `path.extname`: the text from the last '.', except that a dot at the very start
   * (a dotfile such as ".env") and the name ".." have no extension.
   */
  function Extname(name: string): (ext: string)
    ensures EndsWith(name, ext)
    ensures ext == "" || (ext[0] == '.' && |ext| < |name| && forall k :: 1 <= k < |ext| ==> ext[k] != '.')
  {
    var i := LastDot(name);
    if i == |name| || i == 0 || name == ".." then "" else name[i..]
  }

  /** `path.basename(name, ext)`: drop `ext` when `name` ends with it; a name equal to `ext` gives "". */
  function StripSuffix(name: string, ext: string): (r: string)
    ensures |r| <= |name| && r == name[..|r|]
  {
    if ext != "" && name == ext then ""
    else if ext != "" && EndsWith(name, ext) then name[..|name| - |ext|]
    else name
  }

  /** `path.basename(name, path.extname(name))`: the file name without its last extension. */
  function StripExtension(name: string): (r: string)
    ensures r + Extname(name) == name
  {
    var ext := Extname(name);
    if ext == "" then name else name[..|name| - |ext|]
  }

  function Repeat(s: string, n: nat): (r: seq<string>)
    ensures |r| == n
  {
    if n == 0 then [] else [s] + Repeat(s, n - 1)
  }

  /** Length of the longest common prefix of two paths. */
  function CommonPrefix(a: Path, b: Path): (k: nat)
    ensures k <= |a| && k <= |b|
  {
    if a == [] || b == [] || a[0] != b[0] then 0
    else CommonPrefix(a[1..], b[1..]) + 1
  }

  /** The first `CommonPrefix(a, b)` segments agree, and the next ones (if both exist) differ. */
  lemma {:induction false} CommonPrefixSpec(a: Path, b: Path)
    ensures var k := CommonPrefix(a, b);
      a[..k] == b[..k] && (k < |a| && k < |b| ==> a[k] != b[k])
  {
    if !(a == [] || b == [] || a[0] != b[0]) {
      var k := CommonPrefix(a[1..], b[1..]);
      CommonPrefixSpec(a[1..], b[1..]);
      assert a[..k + 1] == [a[0]] + a[1..][..k];
      assert b[..k + 1] == [b[0]] + b[1..][..k];
    }
  }

  /** `path.relative(from, to)`: climb out of `from` to the common ancestor, then descend to `to`. */
  function Relative(from: Path, to: Path): string {
    var k := CommonPrefix(from, to);
    Render(Repeat("..", |from| - k) + to[k..])
  }

  /** Segments joined with '/'. */
  function Render(segments: seq<string>): string {
    JsStrings.Join(segments, "/")
  }

  /** A file below a directory is reached from it without climbing. */
  lemma {:induction false} RelativeBelow(dir: Path, rest: seq<string>)
    requires |rest| > 0
    ensures Relative(dir, dir + rest) == Render(rest)
  {
    var k := CommonPrefix(dir, dir + rest);
    CommonPrefixSpec(dir, dir + rest);
    assert forall i :: 0 <= i < |dir| ==> (dir + rest)[i] == dir[i];
    assert k == |dir|;
    assert (dir + rest)[k..] == rest;
    assert Repeat("..", |dir| - k) + (dir + rest)[k..] == rest;
  }

  /**
   * The directories an upward walk from `dir` examines, nearest first: `dir`, its parent,
   * and so on, stopping before the root.
   */
  function Ancestors(dir: Path): (a: seq<Path>)
    ensures |a| == |dir|
    decreases |dir|
  {
    if dir == [] then [] else [dir] + Ancestors(dir[..|dir| - 1])
  }

  /** `Ancestors(dir)[k]` is `dir` with its last `k` segments removed; the root is not among them. */
  lemma {:induction false} AncestorsSpec(dir: Path)
    ensures forall k :: 0 <= k < |dir| ==> Ancestors(dir)[k] == dir[..|dir| - k]
    ensures Root !in Ancestors(dir)
    decreases |dir|
  {
    if dir != [] {
      var rest := Ancestors(dir[..|dir| - 1]);
      AncestorsSpec(dir[..|dir| - 1]);
      assert forall k :: 0 <= k < |rest| ==> rest[k] == dir[..|dir| - 1 - k];
      assert forall k :: 1 <= k < |dir| ==> Ancestors(dir)[k] == rest[k - 1];
    }
  }
}
