/** Paths as sequences of name components, the order `PathBuf` sorts by, and
    sorting a directory listing into that order. */
module Paths {
  import opened Io

  type Name = string

  /** An absolute path: the root is `[]`, `/a/b` is `["a", "b"]`. */
  type Path = seq<Name>

  /** `Path::parent`: `None` for the root. */
  function Parent(p: Path): (r: Option<Path>)
    ensures r.None? <==> p == []
    ensures r.Some? ==> r.value + [p[|p| - 1]] == p
  {
    if p == [] then None else Some(p[..|p| - 1])
  }

  /** `Path::file_name`: the last component, `None` for the root. */
  function FileName(p: Path): (r: Option<Name>)
    ensures r.None? <==> p == []
    ensures r.Some? ==> p == p[..|p| - 1] + [r.value]
  {
    if p == [] then None else Some(p[|p| - 1])
  }

  /** `a` is `b` or one of its ancestors. */
  predicate IsPrefix(a: Path, b: Path)
  {
    |a| <= |b| && b[..|a|] == a
  }

  lemma PrefixOfSameLength(a: Path, b: Path)
    requires IsPrefix(a, b) && |a| == |b|
    ensures a == b
  {
    assert b[..|b|] == b;
  }

  /** `p` names an entry directly inside directory `dir`. */
  predicate IsChild(dir: Path, p: Path)
  {
    |p| == |dir| + 1 && p[..|dir|] == dir
  }

  /** A name that `PathBuf::join` appends as exactly one new component. */
  predicate ValidName(n: Name)
  {
    n != [] && n != "." && n != ".." && '/' !in n && '\0' !in n
  }

  // ---------------------------------------------------------------------------
  // Order. `Path`'s `Ord` compares component by component, each component as
  // bytes. UTF-8 preserves code point order, so comparing the characters of a
  // name by code point gives the same answer as comparing its bytes.

  /** A name sorts before every longer name it begins, and never before
      itself. */
  predicate NameLess(a: Name, b: Name): (r: bool)
    ensures |a| < |b| && b[..|a|] == a ==> r
    ensures r ==> a != b
    decreases |a|
  {
    if a == [] then b != []
    else if b == [] then false
    else if a[0] != b[0] then a[0] < b[0]
    else NameLess(a[1..], b[1..])
  }

  /** A directory sorts before every path below it, and no path before
      itself. */
  predicate PathLess(a: Path, b: Path): (r: bool)
    ensures |a| < |b| && b[..|a|] == a ==> r
    ensures r ==> a != b
    decreases |a|
  {
    if a == [] then b != []
    else if b == [] then false
    else if a[0] != b[0] then NameLess(a[0], b[0])
    else PathLess(a[1..], b[1..])
  }

  lemma {:induction false} NameLessIrreflexive(a: Name)
    ensures !NameLess(a, a)
  {
    if a != [] { NameLessIrreflexive(a[1..]); }
  }

  lemma {:induction false} NameLessTransitive(a: Name, b: Name, c: Name)
    requires NameLess(a, b) && NameLess(b, c)
    ensures NameLess(a, c)
  {
    if a != [] && a[0] == b[0] && b[0] == c[0] {
      NameLessTransitive(a[1..], b[1..], c[1..]);
    }
  }

  lemma {:induction false} NameLessTotal(a: Name, b: Name)
    requires a != b
    ensures NameLess(a, b) || NameLess(b, a)
  {
    if a != [] && b != [] && a[0] == b[0] {
      assert a == [a[0]] + a[1..] && b == [b[0]] + b[1..];
      NameLessTotal(a[1..], b[1..]);
    }
  }

  lemma {:induction false} PathLessIrreflexive(a: Path)
    ensures !PathLess(a, a)
  {
    if a != [] { PathLessIrreflexive(a[1..]); }
  }

  lemma {:induction false} PathLessTransitive(a: Path, b: Path, c: Path)
    requires PathLess(a, b) && PathLess(b, c)
    ensures PathLess(a, c)
  {
    if a != [] && b != [] && c != [] {
      if a[0] == b[0] && b[0] == c[0] {
        PathLessTransitive(a[1..], b[1..], c[1..]);
      } else if a[0] != b[0] && b[0] != c[0] {
        NameLessTransitive(a[0], b[0], c[0]);
      }
    }
  }

  lemma {:induction false} PathLessTotal(a: Path, b: Path)
    requires a != b
    ensures PathLess(a, b) || PathLess(b, a)
  {
    if a != [] && b != [] {
      if a[0] == b[0] {
        assert a == [a[0]] + a[1..] && b == [b[0]] + b[1..];
        PathLessTotal(a[1..], b[1..]);
      } else {
        NameLessTotal(a[0], b[0]);
      }
    }
  }

  /** Two children of one directory compare as their file names do. */
  lemma SiblingOrder(dir: Path, a: Name, b: Name)
    ensures PathLess(dir + [a], dir + [b]) <==> NameLess(a, b)
    decreases |dir|
  {
    if dir == [] {
      NameLessIrreflexive(a);
    } else {
      assert (dir + [a])[1..] == dir[1..] + [a];
      assert (dir + [b])[1..] == dir[1..] + [b];
      SiblingOrder(dir[1..], a, b);
    }
  }

  // ---------------------------------------------------------------------------
  // Sorted sequences of paths.

  ghost predicate StrictlySorted(s: seq<Path>)
  {
    forall i, j :: 0 <= i < j < |s| ==> PathLess(s[i], s[j])
  }

  ghost predicate Distinct(s: seq<Path>)
  {
    forall i, j :: 0 <= i < j < |s| ==> s[i] != s[j]
  }

  lemma SortedIsDistinct(s: seq<Path>)
    requires StrictlySorted(s)
    ensures Distinct(s)
  {
    forall i, j | 0 <= i < j < |s| ensures s[i] != s[j] {
      PathLessIrreflexive(s[i]);
    }
  }

  /** Inserts `x` at its place in a sorted sequence that does not hold it. */
  function InsertSorted(s: seq<Path>, x: Path): (r: seq<Path>)
    requires StrictlySorted(s) && x !in s
    ensures StrictlySorted(r)
    ensures |r| == |s| + 1
    ensures forall p :: p in r <==> p in s || p == x
  {
    if s == [] then [x]
    else if PathLess(x, s[0]) then
      assert forall j :: 0 < j < |s| ==> PathLess(x, s[j]) by {
        forall j | 0 < j < |s| ensures PathLess(x, s[j]) { PathLessTransitive(x, s[0], s[j]); }
      }
      [x] + s
    else
      PathLessTotal(x, s[0]);
      var rest := InsertSorted(s[1..], x);
      assert forall p :: p in rest ==> PathLess(s[0], p);
      [s[0]] + rest
  }

  /** The head of a non-empty sequence is one of its members. */
  lemma HeadIsMember(s: seq<Path>)
    requires s != []
    ensures s[0] in s
  {
  }

  /** Two strictly sorted sequences with the same elements are equal: a
      sorted listing is determined by the set of entries it lists. */
  lemma {:induction false} SortedUnique(a: seq<Path>, b: seq<Path>)
    requires StrictlySorted(a) && StrictlySorted(b)
    requires forall p :: p in a <==> p in b
    ensures a == b
  {
    if a == [] {
      if b != [] {
        HeadIsMember(b);
        assert false;
      }
    } else {
      assert b != [] by { assert a[0] in b; }
      if a[0] != b[0] {
        assert a[0] in b && b[0] in a;
        var k :| 0 <= k < |b| && b[k] == a[0];
        var m :| 0 <= m < |a| && a[m] == b[0];
        assert k > 0 && m > 0;
        PathLessTransitive(a[0], a[m], a[0]);
      }
      SortedIsDistinct(a);
      SortedIsDistinct(b);
      forall p ensures p in a[1..] <==> p in b[1..] {
        if p in a[1..] {
          var i :| 1 <= i < |a| && a[i] == p;
          assert p in b;
        }
        if p in b[1..] {
          var i :| 1 <= i < |b| && b[i] == p;
          assert p in a;
        }
      }
      SortedUnique(a[1..], b[1..]);
      assert a == [a[0]] + a[1..] && b == [b[0]] + b[1..];
    }
  }

  /** The sorted sequence of the elements of a finite set of paths. */
  ghost function SortedOf(entries: set<Path>): (r: seq<Path>)
    ensures StrictlySorted(r)
    ensures forall p :: p in r <==> p in entries
    ensures |r| == |entries|
    decreases entries
  {
    if entries == {} then []
    else
      var x :| x in entries;
      InsertSorted(SortedOf(entries - {x}), x)
  }

  /** `Vec::sort` on the entries of one directory listing (which never holds
      a path twice): the result is their sorted sequence. */
  method SortPaths(entries: seq<Path>) returns (sorted: seq<Path>)
    requires Distinct(entries)
    ensures StrictlySorted(sorted)
    ensures forall p :: p in sorted <==> p in entries
  {
    sorted := [];
    for i := 0 to |entries|
      invariant StrictlySorted(sorted)
      invariant forall p :: p in sorted <==> p in entries[..i]
    {
      assert entries[..i + 1] == entries[..i] + [entries[i]];
      sorted := InsertSorted(sorted, entries[i]);
    }
    assert entries[..|entries|] == entries;
  }
}
