/** The filesystem the pipeline reads and writes: a map from path to
    contents, changed in place by writes and removals. */
module Files {
  import opened PyStr
  import opened Errors

  type Bytes = seq<bv8>

  /** `os.path.join(dir, name)` (POSIX): an absolute `name` replaces `dir`;
      otherwise a `/` is put between them unless `dir` is empty or already
      ends in one. */
  function PathJoin(dir: string, name: string): (p: string)
    ensures |p| >= |name| && p[|p| - |name|..] == name
  {
    if name != [] && name[0] == '/' then name
    else
      Glued(DirPrefix(dir), name);
      DirPrefix(dir) + name
  }

  /** What a relative name is appended to: `dir`, followed by a `/` unless
      it is empty or already ends in one. */
  function DirPrefix(dir: string): string {
    if dir == [] || dir[|dir| - 1] == '/' then dir else dir + "/"
  }

  lemma Glued(dir: string, name: string)
    ensures var p := dir + name; p[|dir|..] == name && p[..|dir|] == dir
  {
  }

  /** A joined path ends with the name, and a relative name lands inside
      the directory. */
  lemma PathJoinShape(dir: string, name: string)
    ensures var p := PathJoin(dir, name);
      |p| >= |name| && p[|p| - |name|..] == name
      && (name != [] && name[0] != '/' ==> StartsWith(p, dir))
  {
    if !(name != [] && name[0] == '/') {
      Glued(DirPrefix(dir), name);
      if DirPrefix(dir) != dir {
        Glued(dir, "/");
      }
    }
  }

  /** Different relative names joined to the same directory give
      different paths. */
  lemma PathJoinApart(dir: string, a: string, b: string)
    requires a != [] && a[0] != '/' && b != [] && b[0] != '/'
    requires a != b
    ensures PathJoin(dir, a) != PathJoin(dir, b)
  {
    Glued(DirPrefix(dir), a);
    Glued(DirPrefix(dir), b);
  }

  class FileSystem {
    var files: map<string, Bytes>

    constructor (files: map<string, Bytes>)
      ensures this.files == files
    {
      this.files := files;
    }

    /** `os.path.exists(path)`. */
    method Exists(path: string) returns (b: bool)
      ensures b == (path in files)
    {
      b := path in files;
    }

    /** Reading a whole file: its contents, or `FileNotFoundError`. */
    method Read(path: string) returns (r: Result<Bytes>)
      ensures path in files ==> r == Ok(files[path])
      ensures path !in files ==> r == Err(FileNotFound(path))
    {
      if path in files {
        r := Ok(files[path]);
      } else {
        r := Err(FileNotFound(path));
      }
    }

    /** `open(path, "wb").write(data)`: creates or overwrites the file. */
    method Write(path: string, data: Bytes)
      modifies this
      ensures files == old(files)[path := data]
    {
      files := files[path := data];
    }

    /** `os.remove(path)`: deletes the file, or raises `FileNotFoundError`
        and changes nothing when there is none. */
    method Remove(path: string) returns (err: Option<Error>)
      modifies this
      ensures path in old(files) ==> err == None && files == old(files) - {path}
      ensures path !in old(files) ==> err == Some(FileNotFound(path)) && files == old(files)
    {
      if path in files {
        files := files - {path};
        err := None;
      } else {
        err := Some(FileNotFound(path));
      }
    }
  }
}
