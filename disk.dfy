/** The filesystem the file manager works on, as a store from absolute paths
    to directories and files, with the `std::fs` calls it makes: `read_dir`,
    `read_to_string`, `File::create`, `create_dir`, `rename`, `remove_file`
    and `remove_dir_all`. Each call either succeeds with a new store or fails
    with an `io::ErrorKind` and changes nothing. */
module Disk {
  import opened Io
  import opened Paths

  datatype Node = Dir | File(text: string)

  type Store = map<Path, Node>

  predicate IsDirIn(s: Store, p: Path)
  {
    p in s && s[p].Dir?
  }

  predicate IsFileIn(s: Store, p: Path)
  {
    p in s && s[p].File?
  }

  /** The entry at `p`, if there is one and it is not the root, sits in a
      directory. */
  ghost predicate InDir(s: Store, p: Path)
  {
    p in s && p != [] ==> IsDirIn(s, p[..|p| - 1])
  }

  /** The root is a directory and every other entry sits in a directory. */
  ghost predicate WellFormed(s: Store)
  {
    IsDirIn(s, []) && forall p :: InDir(s, p)
  }

  /** The parent of an entry of a well-formed store is a directory. */
  lemma ParentDir(s: Store, p: Path)
    requires WellFormed(s) && p in s && p != []
    ensures IsDirIn(s, p[..|p| - 1])
  {
    assert InDir(s, p);
  }

  /** The entries directly inside `dir`. */
  function Children(s: Store, dir: Path): set<Path>
  {
    set p | p in s && IsChild(dir, p)
  }

  predicate HasChildren(s: Store, dir: Path)
  {
    exists p | p in s :: IsChild(dir, p)
  }

  /** What `read_dir` followed by `sort` yields for a directory: its entries
      in ascending path order, each once. */
  ghost function Listing(s: Store, dir: Path): (r: seq<Path>)
    ensures StrictlySorted(r)
    ensures forall p :: p in r <==> p in s && IsChild(dir, p)
    ensures |r| == |Children(s, dir)|
  {
    SortedOf(Children(s, dir))
  }

  /** Within one directory the listing is in ascending order of the entries'
      names. */
  lemma ListingByName(s: Store, dir: Path)
    ensures var l := Listing(s, dir);
      forall i, j :: 0 <= i < j < |l| ==>
        IsChild(dir, l[i]) && IsChild(dir, l[j]) && NameLess(l[i][|dir|], l[j][|dir|])
  {
    var l := Listing(s, dir);
    forall i, j | 0 <= i < j < |l|
      ensures IsChild(dir, l[i]) && IsChild(dir, l[j]) && NameLess(l[i][|dir|], l[j][|dir|])
    {
      assert l[i] in l && l[j] in l;
      SiblingsByName(dir, l[i], l[j]);
    }
  }

  /** Two entries of one directory in path order are in name order. */
  lemma SiblingsByName(dir: Path, p: Path, q: Path)
    requires IsChild(dir, p) && IsChild(dir, q) && PathLess(p, q)
    ensures NameLess(p[|dir|], q[|dir|])
  {
    assert p == dir + [p[|dir|]];
    assert q == dir + [q[|dir|]];
    SiblingOrder(dir, p[|dir|], q[|dir|]);
  }

  /** Every ancestor of an entry of a well-formed store is a directory. */
  lemma {:induction false} AncestorIsDir(s: Store, q: Path, k: nat)
    requires WellFormed(s) && q in s && k < |q|
    ensures IsDirIn(s, q[..k])
    decreases |q| - k
  {
    var up := q[..|q| - 1];
    ParentDir(s, q);
    if k < |up| {
      AncestorIsDir(s, up, k);
      assert up[..k] == q[..k];
    }
  }

  /** Why a new entry cannot be made at the non-root path `p`: its parent is
      missing or is a file, or its last component is not a plain name. */
  function ParentError(s: Store, p: Path): Option<IoError>
    requires p != []
  {
    var parent := p[..|p| - 1];
    if !IsDirIn(s, parent) then Some(if parent in s then NotADirectory else NotFound)
    else if !ValidName(p[|p| - 1]) then Some(InvalidInput)
    else None
  }

  // ---------------------------------------------------------------------------
  // The calls.

  /** `File::create`: creates an empty file, or truncates an existing one. */
  function Touch(s: Store, p: Path): (r: Result<Store>)
    ensures r.Success? <==> p != [] && ParentError(s, p).None? && !IsDirIn(s, p)
    ensures r.Success? ==> r.value.Keys == s.Keys + {p} && r.value[p] == File("")
    ensures r.Success? ==> forall q :: q in s && q != p ==> r.value[q] == s[q]
  {
    if p == [] then Failure(IsADirectory)
    else if ParentError(s, p).Some? then Failure(ParentError(s, p).value)
    else if IsDirIn(s, p) then Failure(IsADirectory)
    else Success(s[p := File("")])
  }

  /** `fs::create_dir` */
  function MkDir(s: Store, p: Path): (r: Result<Store>)
    ensures r.Success? <==> p != [] && p !in s && ParentError(s, p).None?
    ensures r.Success? ==> r.value.Keys == s.Keys + {p} && r.value[p] == Dir
    ensures r.Success? ==> forall q :: q in s ==> r.value[q] == s[q]
  {
    if p == [] || p in s then Failure(AlreadyExists)
    else if ParentError(s, p).Some? then Failure(ParentError(s, p).value)
    else Success(s[p := Dir])
  }

  /** `fs::remove_file` */
  function Unlink(s: Store, p: Path): (r: Result<Store>)
    ensures r.Success? <==> IsFileIn(s, p)
    ensures r.Success? ==> r.value.Keys == s.Keys - {p}
    ensures r.Success? ==> forall q :: q in r.value ==> r.value[q] == s[q]
  {
    if p !in s then Failure(NotFound)
    else if s[p].Dir? then Failure(IsADirectory)
    else Success(s - {p})
  }

  /** `fs::remove_dir_all`: removes a directory with everything below it. */
  function RemoveTree(s: Store, p: Path): (r: Result<Store>)
    ensures r.Success? <==> p != [] && IsDirIn(s, p)
    ensures r.Success? ==> forall q :: q in r.value <==> q in s && !IsPrefix(p, q)
    ensures r.Success? ==> forall q :: q in r.value ==> r.value[q] == s[q]
  {
    if p !in s then Failure(NotFound)
    else if s[p].File? then Failure(NotADirectory)
    else if p == [] then Failure(ResourceBusy)
    else Success(map q | q in s && !IsPrefix(p, q) :: s[q])
  }

  /** Where the entry now at `q`, at or below `to`, was before
      `rename(from, to)`. */
  function Origin(from: Path, to: Path, q: Path): (p: Path)
    requires IsPrefix(to, q)
    ensures IsPrefix(from, p)
  {
    from + q[|to|..]
  }

  /** The entries a move leaves in place: those outside `from` and not at or
      below `to`. */
  function Kept(s: Store, from: Path, to: Path): Store
  {
    map p | p in s && !IsPrefix(from, p) && !IsPrefix(to, p) :: s[p]
  }

  /** The paths the subtree at `from` occupies once re-rooted at `to`. */
  function Targets(s: Store, from: Path, to: Path): set<Path>
  {
    set p | p in s && IsPrefix(from, p) :: to + p[|from|..]
  }

  /** The subtree at `from`, re-rooted at `to`. */
  function Moved(s: Store, from: Path, to: Path): Store
  {
    map q | q in Targets(s, from, to) && IsPrefix(to, q) && Origin(from, to, q) in s :: s[Origin(from, to, q)]
  }

  /** The store after moving the subtree at `from` to `to`, replacing what
      was at `to`. */
  function Relocated(s: Store, from: Path, to: Path): Store
  {
    Kept(s, from, to) + Moved(s, from, to)
  }

  /** Each entry at or below `from` reappears at the same place below `to`. */
  lemma MovedAt(s: Store, from: Path, to: Path, p: Path)
    requires p in s && IsPrefix(from, p)
    ensures to + p[|from|..] in Moved(s, from, to)
    ensures Moved(s, from, to)[to + p[|from|..]] == s[p]
  {
    var q := to + p[|from|..];
    assert q in Targets(s, from, to);
    assert q[|to|..] == p[|from|..];
    assert Origin(from, to, q) == p;
  }

  /** `fs::rename` with the rules of POSIX `rename(2)`: a file may replace a
      file, a directory may replace an empty directory, renaming onto itself
      does nothing, and a directory cannot move below itself. */
  function Move(s: Store, from: Path, to: Path): (r: Result<Store>)
    ensures r.Success? ==> from in s && from != [] && to != [] && ParentError(s, to).None?
    ensures r.Success? && from != to ==> !IsPrefix(from, to)
    ensures r.Success? ==> to in r.value && r.value[to] == s[from]
    ensures r.Success? && from != to && !IsPrefix(to, from) ==> from !in r.value
  {
    if from !in s then Failure(NotFound)
    else if from == [] || to == [] then Failure(ResourceBusy)
    else if ParentError(s, to).Some? then Failure(ParentError(s, to).value)
    else if from == to then Success(s)
    else if IsPrefix(from, to) then Failure(InvalidInput)
    else if to in s && s[from].Dir? && s[to].File? then Failure(NotADirectory)
    else if to in s && s[from].File? && s[to].Dir? then Failure(IsADirectory)
    else if IsDirIn(s, to) && HasChildren(s, to) then Failure(DirectoryNotEmpty)
    else
      RelocatedEnds(s, from, to);
      Success(Relocated(s, from, to))
  }

  /** The `io::Result<()>` a call returns. */
  function Status(res: Result<Store>): (o: Outcome)
    ensures o.Ok? <==> res.Success?
  {
    match res
    case Success(_) => Ok
    case Failure(e) => Err(e)
  }

  /** The store after a call on `s`: unchanged when the call failed. */
  function After(s: Store, res: Result<Store>): (t: Store)
    ensures res.Failure? ==> t == s
  {
    match res
    case Success(t) => t
    case Failure(_) => s
  }

  // ---------------------------------------------------------------------------
  // Every call keeps a store well formed.

  lemma TouchWellFormed(s: Store, p: Path)
    requires WellFormed(s) && Touch(s, p).Success?
    ensures WellFormed(Touch(s, p).value)
  {
    var t := Touch(s, p).value;
    forall q ensures InDir(t, q) {
      if q in t && q != [] && q != p {
        ParentDir(s, q);
      }
    }
  }

  lemma MkDirWellFormed(s: Store, p: Path)
    requires WellFormed(s) && MkDir(s, p).Success?
    ensures WellFormed(MkDir(s, p).value)
  {
    var t := MkDir(s, p).value;
    forall q ensures InDir(t, q) {
      if q in t && q != [] && q != p {
        ParentDir(s, q);
      }
    }
  }

  lemma UnlinkWellFormed(s: Store, p: Path)
    requires WellFormed(s) && Unlink(s, p).Success?
    ensures WellFormed(Unlink(s, p).value)
  {
    var t := Unlink(s, p).value;
    forall q ensures InDir(t, q) {
      if q in t && q != [] {
        ParentDir(s, q);
      }
    }
  }

  lemma RemoveTreeWellFormed(s: Store, p: Path)
    requires WellFormed(s) && RemoveTree(s, p).Success?
    ensures WellFormed(RemoveTree(s, p).value)
  {
    var t := RemoveTree(s, p).value;
    forall q ensures InDir(t, q) {
      if q in t && q != [] {
        assert q in s && !IsPrefix(p, q);
        ParentDir(s, q);
      }
    }
  }

  /** What a successful move of an entry to another path implies. */
  ghost predicate MoveAllowed(s: Store, from: Path, to: Path)
  {
    && from in s && from != [] && to != [] && from != to
    && IsDirIn(s, to[..|to| - 1])
    && !IsPrefix(from, to)
    && !(IsDirIn(s, to) && HasChildren(s, to))
  }

  lemma MoveWellFormed(s: Store, from: Path, to: Path)
    requires WellFormed(s) && Move(s, from, to).Success?
    ensures WellFormed(Move(s, from, to).value)
  {
    if from != to {
      assert MoveAllowed(s, from, to);
      RelocatedWellFormed(s, from, to);
    }
  }

  lemma RelocatedWellFormed(s: Store, from: Path, to: Path)
    requires WellFormed(s) && MoveAllowed(s, from, to)
    ensures WellFormed(Relocated(s, from, to))
  {
    var t := Relocated(s, from, to);
    assert [] in Kept(s, from, to);
    forall q ensures InDir(t, q) {
      if q in t && q != [] {
        RelocatedParent(s, from, to, q);
      }
    }
  }

  /** The parent of each entry after a move is a directory. */
  lemma RelocatedParent(s: Store, from: Path, to: Path, q: Path)
    requires WellFormed(s) && MoveAllowed(s, from, to)
    requires q in Relocated(s, from, to) && q != []
    ensures IsDirIn(Relocated(s, from, to), q[..|q| - 1])
  {
    if q == to {
      TargetParent(s, from, to);
    } else if q in Moved(s, from, to) {
      MovedKey(s, from, to, q);
      ParentDir(s, Origin(from, to, q));
      InnerParent(s, from, to, q);
    } else {
      KeptParent(s, from, to, q);
    }
  }

  /** The parent of `to` is a directory the move does not touch. */
  lemma TargetParent(s: Store, from: Path, to: Path)
    requires WellFormed(s) && MoveAllowed(s, from, to)
    ensures IsDirIn(Relocated(s, from, to), to[..|to| - 1])
  {
    var up := to[..|to| - 1];
    assert !IsPrefix(from, up);
    assert up in s && !IsPrefix(to, up);
    assert up in Kept(s, from, to);
  }

  /** An entry strictly below `to` after the move has its parent moved with it. */
  lemma InnerParent(s: Store, from: Path, to: Path, q: Path)
    requires q in Moved(s, from, to) && q != to
    requires IsPrefix(to, q) && IsDirIn(s, Origin(from, to, q)[..|Origin(from, to, q)| - 1])
    ensures IsDirIn(Relocated(s, from, to), q[..|q| - 1])
  {
    var up := q[..|q| - 1];
    MovedKey(s, from, to, q);
    var p := Origin(from, to, q);
    assert |q| > |to|;
    var pUp := p[..|p| - 1];
    assert IsPrefix(from, pUp) && pUp in s;
    assert to + pUp[|from|..] == up;
    MovedAt(s, from, to, pUp);
    assert IsDirIn(Moved(s, from, to), up);
  }

  lemma MovedKey(s: Store, from: Path, to: Path, q: Path)
    requires q in Moved(s, from, to)
    ensures IsPrefix(to, q) && Origin(from, to, q) in s
    ensures Moved(s, from, to)[q] == s[Origin(from, to, q)]
  {
  }

  /** The parent of an entry the move leaves in place is still a directory. */
  lemma KeptParent(s: Store, from: Path, to: Path, q: Path)
    requires WellFormed(s) && MoveAllowed(s, from, to)
    requires q in Kept(s, from, to) && q != []
    ensures IsDirIn(Relocated(s, from, to), q[..|q| - 1])
  {
    var up := q[..|q| - 1];
    assert q in s && !IsPrefix(from, q) && !IsPrefix(to, q);
    ParentDir(s, q);
    assert !IsPrefix(from, up) && !IsPrefix(to, up);
    assert up in Kept(s, from, to);
  }

  // ---------------------------------------------------------------------------
  // What the calls do to the entries around them.

  /** Nothing lies below a path that is not in a well-formed store. */
  lemma AbsentHasNoDescendants(s: Store, p: Path, q: Path)
    requires WellFormed(s) && p !in s && q in s
    ensures !IsPrefix(p, q)
  {
    if IsPrefix(p, q) {
      if |p| < |q| {
        AncestorIsDir(s, q, |p|);
      } else {
        PrefixOfSameLength(p, q);
      }
      assert false;
    }
  }

  /** In a well-formed store a successful rename onto another path always
      removes the source: the target cannot be a directory above it, since
      such a directory is not empty. */
  lemma MoveRemovesSource(s: Store, from: Path, to: Path)
    requires WellFormed(s) && Move(s, from, to).Success? && from != to
    ensures from !in Move(s, from, to).value
  {
    if IsPrefix(to, from) {
      assert |to| < |from| by {
        if |to| == |from| {
          PrefixOfSameLength(to, from);
        }
      }
      assert from[..|to|] == to;
      AncestorIsDir(s, from, |to|);
      var c := from[..|to| + 1];
      if |to| + 1 < |from| {
        AncestorIsDir(s, from, |to| + 1);
        assert c in s && IsChild(to, c);
      }
      assert false;
    }
  }

  /** `File::create` truncates: creating a file that was just created
      succeeds again and leaves the store as it was. */
  lemma TouchTwice(s: Store, p: Path)
    requires Touch(s, p).Success?
    ensures Touch(Touch(s, p).value, p) == Touch(s, p)
  {
    var t := Touch(s, p).value;
    assert p[..|p| - 1] != p;
    assert t[p := File("")] == t;
  }

  /** Removing a file that was just created restores the store. */
  lemma TouchThenUnlink(s: Store, p: Path)
    requires Touch(s, p).Success? && p !in s
    ensures Unlink(Touch(s, p).value, p) == Success(s)
  {
    assert Touch(s, p).value - {p} == s;
  }

  /** Creating a directory fails when it already exists. */
  lemma MkDirTwice(s: Store, p: Path)
    requires MkDir(s, p).Success?
    ensures MkDir(MkDir(s, p).value, p) == Failure(AlreadyExists)
  {
  }

  /** Removing a directory that was just created restores the store. */
  lemma MkDirThenRemoveTree(s: Store, p: Path)
    requires WellFormed(s) && MkDir(s, p).Success?
    ensures RemoveTree(MkDir(s, p).value, p) == Success(s)
  {
    var t := MkDir(s, p).value;
    var u := map q | q in t && !IsPrefix(p, q) :: t[q];
    forall q | q in s ensures q in u && u[q] == s[q] {
      AbsentHasNoDescendants(s, p, q);
    }
    assert u == s;
  }

  /** Removing a file twice fails the second time. */
  lemma UnlinkTwice(s: Store, p: Path)
    requires Unlink(s, p).Success?
    ensures Unlink(Unlink(s, p).value, p) == Failure(NotFound)
  {
  }

  /** A move leaves every entry outside both `from` and `to` where it was. */
  lemma RelocatedKeeps(s: Store, from: Path, to: Path, q: Path)
    requires q in s && !IsPrefix(from, q) && !IsPrefix(to, q)
    ensures q in Relocated(s, from, to) && Relocated(s, from, to)[q] == s[q]
  {
    assert q in Kept(s, from, to);
    assert q !in Moved(s, from, to);
  }

  /** After a move, `to` holds what was at `from`, and `from` is gone unless
      it lies below `to`. */
  lemma RelocatedEnds(s: Store, from: Path, to: Path)
    requires from in s
    ensures to in Relocated(s, from, to) && Relocated(s, from, to)[to] == s[from]
    ensures !IsPrefix(to, from) ==> from !in Relocated(s, from, to)
  {
    MovedAt(s, from, to, from);
    assert to + from[|from|..] == to;
  }
}
