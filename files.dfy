/** The file system as the engine sees it: a set of directories and a map
    from path to contents. `os.makedirs`, `shutil.rmtree`, `open(..., 'wb')`
    and `open(..., 'rb')` are the operations on it. */
module Files {
  import opened Wrappers
  import opened Bytes
  import opened Paths

  /** The files left after removing the tree rooted at `dir`. */
  function PruneFiles(files: map<string, seq<Byte>>, dir: string): (r: map<string, seq<Byte>>)
    ensures forall p :: p in r <==> p in files && p != dir && !Under(p, dir)
    ensures forall p :: p in r ==> r[p] == files[p]
  {
    map p | p in files && p != dir && !Under(p, dir) :: files[p]
  }

  /** The directories left after removing the tree rooted at `dir`. */
  function PruneDirs(dirs: set<string>, dir: string): (r: set<string>)
    ensures forall p :: p in r <==> p in dirs && p != dir && !Under(p, dir)
  {
    set p | p in dirs && p != dir && !Under(p, dir)
  }

  class FileStore {
    var dirs: set<string>
    var files: map<string, seq<Byte>>

    constructor(dirs: set<string>, files: map<string, seq<Byte>>)
      ensures this.dirs == dirs && this.files == files
    {
      this.dirs := dirs;
      this.files := files;
    }

    /** `open(path, 'rb').read()`; None when there is no such file. */
    function Read(path: string): (r: Option<seq<Byte>>)
      reads this
      ensures r.Some? <==> path in files
      ensures r.Some? ==> r.value == files[path]
    {
      if path in files then Some(files[path]) else None
    }

    /** `os.makedirs(path, exist_ok=True)`. */
    method MakeDirs(path: string)
      modifies this`dirs
      ensures dirs == old(dirs) + {path}
    {
      dirs := dirs + {path};
    }

    /** `shutil.rmtree(path, ignore_errors=True)`: the directory and
        everything below it is gone; a missing directory is not an error. */
    method RemoveTree(path: string)
      modifies this
      ensures files == PruneFiles(old(files), path)
      ensures dirs == PruneDirs(old(dirs), path)
    {
      files := PruneFiles(files, path);
      dirs := PruneDirs(dirs, path);
    }

    /** `open(path, 'wb').write(data)`: the file is created or truncated and
        then holds `data`. */
    method Write(path: string, data: seq<Byte>)
      modifies this`files
      ensures files == old(files)[path := data]
    {
      files := files[path := data];
    }

    /** Applies the files a subprocess created or overwrote. */
    method WriteAll(written: map<string, seq<Byte>>)
      modifies this`files
      ensures files == old(files) + written
    {
      files := files + written;
    }
  }
}
