/**
 * packages/fractal-registry/src/store.ts: the registry's fractal store. Records are kept in an
 * in-process cache and written as `<path>/<id>.json`; a read falls back to that file when the
 * cache misses. `JSON.stringify` and `JSON.parse` of a record are the parameters `encode` and
 * `parse`; the transform's oracles (`esbuild`, `Math.random`) and the clock are parameters too.
 */
module RegistryStore {
  import opened Wrappers
  import opened JsStrings
  import opened JsValues
  import opened Paths
  import opened Disk
  import RegistryTransform

  /** A stored fractal; `styles` is absent rather than empty, `manifest` is whatever was posted. */
  datatype StoredFractal = StoredFractal(id: string, source: string, compiled: string,
                                         styles: Option<string>, manifest: JsValue, createdAt: int)

  type Parser = string -> Option<StoredFractal>

  /** What `fs.writeFile` rejects with when the record cannot be written. */
  const WriteFailed: string := "EACCES: permission denied"

  /** `<path>/<id>.json`, the file holding the record of `id`. */
  function RecordFile(dir: Path, id: string): Path {
    PathJoin(dir, id + ".json")
  }

  /** Distinct ids are kept in distinct files. */
  lemma {:induction false} RecordFileInjective(dir: Path, id1: string, id2: string)
    requires id1 != id2
    ensures RecordFile(dir, id1) != RecordFile(dir, id2)
  {
    var n1, n2 := id1 + ".json", id2 + ".json";
    assert n1[..|id1|] == id1 && n2[..|id2|] == id2;
    assert Basename(RecordFile(dir, id1)) == n1 && Basename(RecordFile(dir, id2)) == n2;
  }

  /** `styles || undefined`: an absent or empty style sheet is not stored. */
  function StoredStyles(styles: Option<string>): (r: Option<string>)
    ensures r.Some? <==> styles.Some? && styles.value != ""
    ensures r.Some? ==> r == styles
  {
    if styles.Some? && styles.value != "" then styles else None
  }

  /** The record `addFractal` builds from a successful transform. */
  function NewRecord(id: string, source: string, c: RegistryTransform.Compiled, manifest: JsValue, now: int): (f: StoredFractal)
    ensures f.id == id && f.source == source && f.compiled == c.code && f.manifest == manifest
    ensures f.styles.Some? ==> f.styles.value != "" && f.styles == c.styles
  {
    StoredFractal(id, source, c.code, StoredStyles(c.styles), manifest, now)
  }

  /**
   * What `getFractal(id)` answers given the cache and the files: the cached record, else the
   * parsed file, else nothing.
   */
  function Lookup(cache: map<string, StoredFractal>, files: map<Path, string>, dir: Path, parse: Parser,
                  id: string): (r: Option<StoredFractal>)
    ensures id in cache ==> r == Some(cache[id])
    ensures id !in cache ==> (r.Some? <==> RecordFile(dir, id) in files && parse(files[RecordFile(dir, id)]).Some?)
  {
    if id in cache then Some(cache[id])
    else
      var p := RecordFile(dir, id);
      if p in files then parse(files[p]) else None
  }

  /** The cache after `getFractal(id)`: a record read from its file is cached; nothing else changes. */
  function CacheAfterGet(cache: map<string, StoredFractal>, files: map<Path, string>, dir: Path, parse: Parser,
                         id: string): (c: map<string, StoredFractal>)
    ensures Lookup(cache, files, dir, parse, id).Some? ==> c == cache[id := Lookup(cache, files, dir, parse, id).value]
    ensures Lookup(cache, files, dir, parse, id).None? ==> c == cache
  {
    match Lookup(cache, files, dir, parse, id)
    case Some(f) => cache[id := f]
    case None => cache
  }

  class FractalStore {
    var cache: map<string, StoredFractal>
    const path: Path
    const disk: Disk<string>

    /** `new FractalStore(path)`: an empty cache over the storage directory, which is created. */
    constructor (path0: Path, disk0: Disk<string>)
      modifies disk0
      ensures cache == map[] && path == path0 && disk == disk0
      ensures disk.files == old(disk0.files) && disk.dirs == old(disk0.dirs) + {path0}
    {
      cache := map[];
      path := path0;
      disk := disk0;
      disk0.Mkdir(path0);
    }

    /**
     * `addFractal(id, source, manifest)`. A source the transform refuses is rejected before
     * anything changes. Otherwise the record is cached first and then written; a failed write
     * rejects but leaves the record cached.
     */
    method AddFractal(id: string, source: string, manifest: JsValue, esbuild: string -> Result<string>,
                      random: nat -> string, now: int, encode: StoredFractal -> string)
      returns (r: Result<StoredFractal>)
      modifies this, disk
      ensures var t := RegistryTransform.TransformFractal(source, id, esbuild, random);
        && (t.Err? ==> r == Err(t.message) && cache == old(cache) && disk.files == old(disk.files))
        && (t.Ok? ==>
              var f := NewRecord(id, source, t.value, manifest, now);
              var p := RecordFile(path, id);
              && cache == old(cache)[id := f]
              && (r.Ok? <==> p !in disk.readOnly)
              && (r.Ok? ==> r.value == f && disk.files == old(disk.files)[p := encode(f)])
              && (r.Err? ==> r == Err(WriteFailed) && disk.files == old(disk.files)))
      ensures disk.dirs == old(disk.dirs)
    {
      var t := RegistryTransform.TransformFractal(source, id, esbuild, random);
      if t.Err? {
        return Err(t.message);
      }
      var fractal := NewRecord(id, source, t.value, manifest, now);
      cache := cache[id := fractal];
      var ok := disk.WriteFile(RecordFile(path, id), encode(fractal));
      r := if ok then Ok(fractal) else Err(WriteFailed);
    }

    /** `getFractal(id)`: from the cache, else from the record's file, which is then cached. */
    method GetFractal(id: string, parse: Parser) returns (r: Option<StoredFractal>)
      modifies this
      ensures r == Lookup(old(cache), disk.files, path, parse, id)
      ensures cache == CacheAfterGet(old(cache), disk.files, path, parse, id)
    {
      if id in cache {
        return Some(cache[id]);
      }
      var p := PathJoin(path, id + ".json");
      if p !in disk.files {
        return None;
      }
      r := parse(disk.files[p]);
      if r.Some? {
        cache := cache[id := r.value];
      }
    }
  }

  /** Once a record is cached, `getFractal` returns it whatever the files hold. */
  lemma {:induction false} LookupAfterAdd(cache: map<string, StoredFractal>, files: map<Path, string>, dir: Path,
                                          parse: Parser, f: StoredFractal)
    ensures Lookup(cache[f.id := f], files, dir, parse, f.id) == Some(f)
  {
  }

  /**
   * Adding a record leaves every other id's answer as it was, whether or not its file was
   * written: the files may differ only in the added record's own file.
   */
  lemma {:induction false} LookupOtherAfterAdd(cache: map<string, StoredFractal>, files: map<Path, string>,
                                               files': map<Path, string>, dir: Path, parse: Parser,
                                               f: StoredFractal, id: string)
    requires id != f.id
    requires forall q :: q != RecordFile(dir, f.id) ==> (q in files' <==> q in files)
    requires forall q :: q != RecordFile(dir, f.id) && q in files ==> files'[q] == files[q]
    ensures Lookup(cache[f.id := f], files', dir, parse, id) == Lookup(cache, files, dir, parse, id)
  {
    RecordFileInjective(dir, id, f.id);
  }

  /** A lookup does not change its own answer: asking again gives the same record or none. */
  lemma {:induction false} LookupStable(cache: map<string, StoredFractal>, files: map<Path, string>, dir: Path,
                                        parse: Parser, id: string)
    ensures Lookup(CacheAfterGet(cache, files, dir, parse, id), files, dir, parse, id) == Lookup(cache, files, dir, parse, id)
  {
  }

  /** A lookup that finds nothing, a missing or unparsable file, leaves the cache as it was. */
  lemma {:induction false} MissLeavesCache(cache: map<string, StoredFractal>, files: map<Path, string>, dir: Path,
                                           parse: Parser, id: string)
    requires id !in cache
    requires RecordFile(dir, id) !in files || parse(files[RecordFile(dir, id)]).None?
    ensures CacheAfterGet(cache, files, dir, parse, id) == cache
    ensures Lookup(cache, files, dir, parse, id).None?
  {
  }

  /**
   * A written record outlives the process: a store started afresh over the same directory
   * reads it back, as far as parsing undoes serialising.
   */
  lemma {:induction false} PersistedRecordReadable(files: map<Path, string>, dir: Path, parse: Parser,
                                                   encode: StoredFractal -> string, f: StoredFractal)
    requires parse(encode(f)) == Some(f)
    ensures Lookup(map[], files[RecordFile(dir, f.id) := encode(f)], dir, parse, f.id) == Some(f)
  {
  }

  /** A transform without styles, or with an empty style sheet, stores no styles. */
  lemma {:induction false} EmptyStylesNotStored(id: string, source: string, code: string, manifest: JsValue, now: int)
    ensures NewRecord(id, source, RegistryTransform.Compiled(code, None), manifest, now).styles == None
    ensures NewRecord(id, source, RegistryTransform.Compiled(code, Some("")), manifest, now).styles == None
  {
  }
}
