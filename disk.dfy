/**
 * The output directory the CLI writes its artifacts to, as `fs/promises` sees it. Files hold
 * values of type `A` (what `JSON.stringify` or the bundler would have serialised); writes to
 * a path in `readOnly` fail the way `fs.writeFile` rejects.
 */
module Disk {
  import opened Paths

  class Disk<A> {
    var files: map<Path, A>
    var dirs: set<Path>
    const readOnly: set<Path>

    constructor (files0: map<Path, A>, readOnly0: set<Path>)
      ensures files == files0 && dirs == {} && readOnly == readOnly0
    {
      files := files0;
      dirs := {};
      readOnly := readOnly0;
    }

    /** `fs.writeFile(p, a)`: replaces the file's content, or fails and changes nothing. */
    method WriteFile(p: Path, a: A) returns (ok: bool)
      modifies this
      ensures ok <==> p !in readOnly
      ensures files == if ok then old(files)[p := a] else old(files)
      ensures dirs == old(dirs)
    {
      ok := p !in readOnly;
      if ok {
        files := files[p := a];
      }
    }

    /** `fs.unlink(p).catch(() => {})`: removes the file when allowed; an error is swallowed. */
    method Unlink(p: Path)
      modifies this
      ensures files == if p in readOnly then old(files) else old(files) - {p}
      ensures dirs == old(dirs)
    {
      if p !in readOnly {
        files := files - {p};
      }
    }

    /** `fs.mkdir(p, { recursive: true })`. */
    method Mkdir(p: Path)
      modifies this
      ensures dirs == old(dirs) + {p} && files == old(files)
    {
      dirs := dirs + {p};
    }
  }
}
