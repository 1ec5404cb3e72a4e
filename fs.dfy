/** The operating system's filesystem as an object the file manager calls
    into: the store is its state, and each `std::fs` call is a method that
    reads it or replaces it by the result of the matching call in `Disk`. */
module Fs {
  import opened Io
  import opened Paths
  import opened Disk

  class FileSystem {
    var store: Store

    constructor(initial: Store)
      ensures store == initial
    {
      store := initial;
    }

    /** `Path::is_dir`: false for a path that is not there. */
    predicate IsDir(p: Path): (b: bool)
      reads this
      ensures b ==> p in store && !IsFileIn(store, p)
    {
      IsDirIn(store, p)
    }

    /** `Path::is_file`: false for a path that is not there. */
    predicate IsFile(p: Path): (b: bool)
      reads this
      ensures b ==> p in store && !IsDirIn(store, p)
    {
      IsFileIn(store, p)
    }

    /** `fs::read_dir` with its entries' paths collected: every entry of
        `dir` exactly once, in an order the filesystem chooses. */
    method ReadDir(dir: Path) returns (r: Result<seq<Path>>)
      ensures r.Failure? <==> !IsDirIn(store, dir)
      ensures r.Failure? ==> r.error == (if dir in store then NotADirectory else NotFound)
      ensures r.Success? ==> Distinct(r.value)
      ensures r.Success? ==> forall p :: p in r.value <==> p in store && IsChild(dir, p)
    {
      if dir !in store {
        return Failure(NotFound);
      }
      if store[dir].File? {
        return Failure(NotADirectory);
      }
      var pending := Children(store, dir);
      var entries: seq<Path> := [];
      while pending != {}
        invariant Distinct(entries)
        invariant forall p :: p in entries ==> p !in pending
        invariant forall p :: p in entries || p in pending <==> p in store && IsChild(dir, p)
        decreases pending
      {
        var next :| next in pending;
        entries := entries + [next];
        pending := pending - {next};
      }
      return Success(entries);
    }

    /** `fs::read_to_string` (every file's text is taken to be valid UTF-8) */
    method ReadToString(p: Path) returns (r: Result<string>)
      ensures r.Success? <==> IsFileIn(store, p)
      ensures r.Success? ==> r.value == store[p].text
      ensures r.Failure? ==> r.error == (if p in store then IsADirectory else NotFound)
    {
      if p !in store {
        return Failure(NotFound);
      }
      match store[p]
      case Dir => return Failure(IsADirectory);
      case File(text) => return Success(text);
    }

    /** `File::create` */
    method CreateFile(p: Path) returns (r: Outcome)
      modifies this
      ensures r == Status(Touch(old(store), p))
      ensures store == After(old(store), Touch(old(store), p))
    {
      var res := Touch(store, p);
      store := After(store, res);
      r := Status(res);
    }

    /** `fs::create_dir` */
    method CreateDir(p: Path) returns (r: Outcome)
      modifies this
      ensures r == Status(MkDir(old(store), p))
      ensures store == After(old(store), MkDir(old(store), p))
    {
      var res := MkDir(store, p);
      store := After(store, res);
      r := Status(res);
    }

    /** `fs::rename` */
    method Rename(from: Path, to: Path) returns (r: Outcome)
      modifies this
      ensures r == Status(Move(old(store), from, to))
      ensures store == After(old(store), Move(old(store), from, to))
    {
      var res := Move(store, from, to);
      store := After(store, res);
      r := Status(res);
    }

    /** `fs::remove_file` */
    method RemoveFile(p: Path) returns (r: Outcome)
      modifies this
      ensures r == Status(Unlink(old(store), p))
      ensures store == After(old(store), Unlink(old(store), p))
    {
      var res := Unlink(store, p);
      store := After(store, res);
      r := Status(res);
    }

    /** `fs::remove_dir_all` */
    method RemoveDirAll(p: Path) returns (r: Outcome)
      modifies this
      ensures r == Status(RemoveTree(old(store), p))
      ensures store == After(old(store), RemoveTree(old(store), p))
    {
      var res := RemoveTree(store, p);
      store := After(store, res);
      r := Status(res);
    }
  }
}
