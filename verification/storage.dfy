/**
 * The part of the operating system the extractor touches, as a value:
 * directories with their listings and regular files with their contents.
 * Paths are compared as plain strings; no normalisation is performed.
 */
module Storage {
  import opened Results

  /** What `open(path).read()` would give for a regular file. */
  datatype Contents =
    | Readable(text: string)
    /** Opening or decoding fails (permissions, bytes that are not valid text). */
    | Unreadable

  datatype FileSystem = FileSystem(
    /** Directory path to the entry names `os.listdir` / `os.scandir` yield, in that order. */
    dirs: map<string, seq<string>>,
    /** Regular-file path to its contents. */
    files: map<string, Contents>)
  {
    /** A path names a directory or a regular file, never both. A value that
        breaks this describes no real file system: `ListDir` would then
        treat the path as a directory and `Read` as a file. The operations
        below do not need it, so it is stated here rather than required. */
    predicate Valid() {
      dirs.Keys !! files.Keys
    }

    /** On a valid file system, a path that lists is one that cannot be
        read as a file, and the other way round. */
    lemma ListOrRead(path: string)
      requires Valid()
      ensures ListDir(path).Ok? ==> Read(path) == Err(IsADirectory(path))
      ensures Read(path).Ok? ==> ListDir(path) == Err(NotADirectory(path))
    {
      assert path in dirs ==> path !in files;
    }

    /** `os.path.exists(path)`. */
    predicate Exists(path: string) {
      path in dirs || path in files
    }

    /** `os.listdir(path)`, and equally the names `os.scandir(path)` yields. */
    function ListDir(path: string): (r: Result<seq<string>>)
      ensures r.Ok? <==> path in dirs
      ensures r.Ok? ==> r.value == dirs[path]
      ensures r.Err? ==> r.error == (if path in files then NotADirectory(path) else FileNotFound(path))
    {
      if path in dirs then Ok(dirs[path])
      else if path in files then Err(NotADirectory(path))
      else Err(FileNotFound(path))
    }

    /** `with open(path) as f: f.read()`. */
    function Read(path: string): (r: Result<string>)
      ensures r.Ok? <==> path in files && files[path].Readable?
      ensures r.Ok? ==> r.value == files[path].text
      ensures path !in files && path !in dirs ==> r == Err(FileNotFound(path))
    {
      if path in files then
        match files[path]
        case Readable(text) => Ok(text)
        case Unreadable => Err(ReadFailed(path))
      else if path in dirs then Err(IsADirectory(path))
      else Err(FileNotFound(path))
    }
  }
}
