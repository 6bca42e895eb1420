/**
 * packages/fractal-cli/src/utils/git-info-extractor.ts: the repository facts recorded in a
 * manifest. Each `git` command is an oracle: it either fails or prints some text.
 */
module GitInfo {
  import opened Wrappers
  import opened JsStrings
  import opened Paths

  /** What the four `git` commands print when run in a directory, and whether `git rev-parse --git-dir` succeeds there. */
  datatype Git = Git(
    isRepo: Path -> bool,
    remoteUrl: Path -> Option<string>,
    branch: Path -> Option<string>,
    commit: Path -> Option<string>,
    status: Path -> Option<string>)

  /** The `GitInfo` record; `None` is a field that was never set. */
  datatype Info = Info(url: Option<string>, branch: Option<string>, commit: Option<string>, dirty: Option<bool>)

  const NoInfo := Info(None, None, None, None)

  /** The first of `dirs` where the probe succeeds. */
  function FirstRepo(isRepo: Path -> bool, dirs: seq<Path>): Option<Path> {
    if dirs == [] then None
    else if isRepo(dirs[0]) then Some(dirs[0])
    else FirstRepo(isRepo, dirs[1..])
  }

  /** The repository root `findGitRoot` reports for a file in `dir`. */
  function GitRoot(git: Git, dir: Path): Option<Path> {
    FirstRepo(git.isRepo, Ancestors(dir))
  }

  /**
   * The root found is the nearest directory, from `dir` upward, where the probe succeeds;
   * it is never the filesystem root; and when none is found no directory except the root
   * was left unprobed. `Ancestors(dir)[k]` is `dir` with its last `k` segments removed.
   */
  lemma GitRootIsNearest(git: Git, dir: Path)
    ensures GitRoot(git, dir) != Some(Root)
    ensures GitRoot(git, dir).Some? ==>
      exists k :: 0 <= k < |dir| && GitRoot(git, dir).value == Ancestors(dir)[k]
                  && forall j :: 0 <= j < k ==> !git.isRepo(Ancestors(dir)[j])
    ensures GitRoot(git, dir).None? ==> forall k :: 0 <= k < |dir| ==> !git.isRepo(Ancestors(dir)[k])
  {
    FirstRepoIndex(git.isRepo, Ancestors(dir));
    AncestorsSpec(dir);
  }

  lemma {:induction false} FirstRepoIndex(isRepo: Path -> bool, dirs: seq<Path>)
    ensures FirstRepo(isRepo, dirs).Some? ==>
      exists k :: 0 <= k < |dirs| && FirstRepo(isRepo, dirs).value == dirs[k]
                  && forall j :: 0 <= j < k ==> !isRepo(dirs[j])
    ensures FirstRepo(isRepo, dirs).Some? ==> isRepo(FirstRepo(isRepo, dirs).value)
    ensures FirstRepo(isRepo, dirs).None? ==> forall k :: 0 <= k < |dirs| ==> !isRepo(dirs[k])
  {
    if dirs != [] && !isRepo(dirs[0]) {
      FirstRepoIndex(isRepo, dirs[1..]);
      if FirstRepo(isRepo, dirs[1..]).Some? {
        var k :| 0 <= k < |dirs[1..]| && FirstRepo(isRepo, dirs[1..]).value == dirs[1..][k]
                  && forall j :: 0 <= j < k ==> !isRepo(dirs[1..][j]);
        assert forall j :: 1 <= j < k + 1 ==> dirs[j] == dirs[1..][j - 1];
      }
    }
  }

  /**
   * `findGitRoot(startPath)`: walk up from the file's directory, probing each directory but
   * the filesystem root. `probed` lists the directories the probe ran in, in order.
   */
  method FindGitRoot(git: Git, startPath: Path) returns (root: Option<Path>, probed: seq<Path>)
    ensures root == GitRoot(git, Dirname(startPath))
    ensures |probed| <= |Dirname(startPath)| && probed == Ancestors(Dirname(startPath))[..|probed|]
    ensures Root !in probed
    ensures root.None? ==> probed == Ancestors(Dirname(startPath))
    ensures root.Some? ==> probed != [] && root.value == probed[|probed| - 1]
  {
    var dir := Dirname(startPath);
    var currentDir := dir;
    ghost var all := Ancestors(dir);
    AncestorsSpec(dir);
    ghost var k := 0;
    probed := [];
    while currentDir != Root
      invariant 0 <= k <= |dir| && currentDir == dir[..|dir| - k]
      invariant probed == all[..k]
      invariant FirstRepo(git.isRepo, all) == FirstRepo(git.isRepo, all[k..])
      decreases |dir| - k
    {
      assert all[k] == currentDir;
      probed := probed + [currentDir];
      assert probed == all[..k + 1];
      if git.isRepo(currentDir) {
        assert all[k..][0] == currentDir;
        assert FirstRepo(git.isRepo, all) == Some(currentDir);
        return Some(currentDir), probed;
      }
      assert all[k..][1..] == all[k + 1..];
      var parentDir := Dirname(currentDir);
      assert parentDir == dir[..|dir| - (k + 1)];
      // `parentDir === currentDir` holds only at the root, which the loop guard already excludes.
      currentDir := parentDir;
      k := k + 1;
    }
    assert all[k..] == [];
    assert k == |all| && probed == all;
    root := None;
  }

  predicate NoLineTerminator(s: string) {
    forall k | 0 <= k < |s| :: !IsLineTerminator(s[k])
  }

  /**
   * `/git@([^:]+):(.+)\.git$/` anchored at `p`: host and path. `[^:]+` can only stop at the
   * first ':' after "git@", and `(.+)` must reach the final ".git", which `$` (no `m` flag)
   * pins to the end of the URL.
   */
  function SshAt(url: string, p: nat): (m: Option<(string, string)>)
    ensures m.Some? ==> m.value.0 != [] && m.value.1 != [] && EndsWith(url, ".git")
  {
    if p + 4 > |url| || url[p..p + 4] != "git@" then None
    else
      var c := p + 4 + IndexOfChar(url[p + 4..], ':');
      if c == p + 4 || !EndsWith(url, ".git") || c + 1 >= |url| - 4 then None
      else if !NoLineTerminator(url[c + 1..|url| - 4]) then None
      else Some((url[p + 4..c], url[c + 1..|url| - 4]))
  }

  /** `url.match(...)`: the leftmost position where the pattern matches. */
  function SshMatch(url: string, p: nat): (m: Option<(string, string)>)
    ensures m.Some? ==> exists q :: p <= q <= |url| && SshAt(url, q) == m
    ensures m.None? ==> forall q :: p <= q <= |url| ==> SshAt(url, q).None?
    decreases |url| - p
  {
    if p > |url| then None
    else if SshAt(url, p).Some? then SshAt(url, p)
    else SshMatch(url, p + 1)
  }

  /** `normalizeGitUrl(url)`. */
  function NormalizeGitUrl(url: string): string {
    if StartsWith(url, "git@") && SshMatch(url, 0).Some? then
      var m := SshMatch(url, 0).value;
      "https://" + m.0 + "/" + m.1
    else if EndsWith(url, ".git") then url[..|url| - 4]
    else url
  }

  /** `git@host:path.git` becomes `https://host/path`, with `host` the text up to the first ':'. */
  lemma SshUrlNormalized(host: string, path: string)
    requires host != [] && forall k :: 0 <= k < |host| ==> host[k] != ':'
    requires path != [] && NoLineTerminator(path)
    ensures NormalizeGitUrl("git@" + host + ":" + path + ".git") == "https://" + host + "/" + path
  {
    var url := "git@" + host + ":" + path + ".git";
    assert url[..4] == "git@";
    assert url[4..][..|host|] == host;
    assert url[4..][|host|] == ':';
    var c := 4 + IndexOfChar(url[4..], ':');
    assert c == 4 + |host|;
    assert url[|url| - 4..] == ".git";
    assert url[c + 1..|url| - 4] == path;
    assert url[4..c] == host;
  }

  /** Otherwise one trailing ".git" is removed. */
  lemma GitSuffixRemoved(url: string)
    requires EndsWith(url, ".git")
    requires !StartsWith(url, "git@") || SshMatch(url, 0).None?
    ensures NormalizeGitUrl(url) + ".git" == url
  {
  }

  /** A URL that does not end in ".git" is returned unchanged, `git@host:path` included. */
  lemma WithoutSuffixUnchanged(url: string)
    requires !EndsWith(url, ".git")
    ensures NormalizeGitUrl(url) == url
  {
  }

  /** The trimmed output of a command that succeeded. */
  function Output(o: Option<string>): Option<string> {
    match o
    case None => None
    case Some(text) => Some(Trim(text))
  }

  /** The record `extractGitInfo(filePath)` returns. */
  function GitInfoOf(git: Git, filePath: Path): Info {
    match GitRoot(git, Dirname(filePath))
    case None => NoInfo
    case Some(root) =>
      Info(
        match git.remoteUrl(root) case None => None case Some(u) => Some(NormalizeGitUrl(Trim(u))),
        Output(git.branch(root)),
        Output(git.commit(root)),
        Some(match git.status(root) case None => false case Some(st) => |Trim(st)| > 0))
  }

  /**
   * With no repository root the record is empty; otherwise each field is its own command's
   * trimmed output (the remote URL also normalised) and a failing command leaves it unset, except `dirty`, which is always set:
   * true exactly when the status command succeeds with non-blank output.
   */
  lemma GitInfoSpec(git: Git, filePath: Path)
    ensures GitRoot(git, Dirname(filePath)).None? ==> GitInfoOf(git, filePath) == NoInfo
    ensures GitRoot(git, Dirname(filePath)).Some? ==>
      var root := GitRoot(git, Dirname(filePath)).value;
      var info := GitInfoOf(git, filePath);
      && (info.url.Some? <==> git.remoteUrl(root).Some?)
      && (info.branch.Some? <==> git.branch(root).Some?)
      && (info.commit.Some? <==> git.commit(root).Some?)
      && (info.url.Some? ==> info.url.value == NormalizeGitUrl(Trim(git.remoteUrl(root).value)))
      && (info.branch.Some? ==> info.branch.value == Trim(git.branch(root).value))
      && (info.commit.Some? ==> info.commit.value == Trim(git.commit(root).value))
      && info.dirty.Some?
      && (info.dirty.value <==> git.status(root).Some? && Trim(git.status(root).value) != [])
  {
  }

  /** `extractGitInfo(filePath)`: the fields are set one command at a time. */
  method ExtractGitInfo(git: Git, filePath: Path) returns (info: Info)
    ensures info == GitInfoOf(git, filePath)
  {
    info := NoInfo;
    var repoRoot, _ := FindGitRoot(git, filePath);
    if repoRoot.None? {
      return;
    }
    var root := repoRoot.value;
    var remote := git.remoteUrl(root);
    if remote.Some? {
      info := info.(url := Some(NormalizeGitUrl(Trim(remote.value))));
    }
    var branch := git.branch(root);
    if branch.Some? {
      info := info.(branch := Some(Trim(branch.value)));
    }
    var commit := git.commit(root);
    if commit.Some? {
      info := info.(commit := Some(Trim(commit.value)));
    }
    var status := git.status(root);
    if status.Some? {
      info := info.(dirty := Some(|Trim(status.value)| > 0));
    } else {
      info := info.(dirty := Some(false));
    }
  }
}
