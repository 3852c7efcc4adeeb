/** The local filesystem as the pipelines see it: the set of paths that exist. */
module Files {
  import opened Common

  class FileSystem {
    /** The paths that exist. */
    var files: set<string>

    constructor (initial: set<string>)
      ensures files == initial
    {
      files := initial;
    }

    /** `os.path.exists(path)`. */
    predicate Exists(path: string)
      reads this
    {
      path in files
    }

    /** Opening `path` for writing (or the converter writing it) creates it. */
    method Write(path: string)
      modifies this
      ensures files == old(files) + {path}
    {
      files := files + {path};
    }

    /** `os.remove(path)`: removes an existing file, and raises
        `FileNotFoundError` for a missing one, leaving everything as it was. */
    method Remove(path: string) returns (err: Option<Exc>)
      modifies this
      ensures path in old(files) ==> err.None? && files == old(files) - {path}
      ensures path !in old(files) ==> err == Some(FileNotFoundError(path)) && files == old(files)
    {
      if path in files {
        files := files - {path};
        err := None;
      } else {
        err := Some(FileNotFoundError(path));
      }
    }

    /** `if path and os.path.exists(path): os.remove(path)`: never raises. */
    method RemoveIfExists(path: string)
      modifies this
      ensures files == old(files) - {path}
    {
      if Exists(path) {
        var err := Remove(path);
      }
    }
  }
}
