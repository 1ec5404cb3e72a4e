/** What the session transitions guarantee: the boundary rules of each
    operation, the round trips between them, and that every operation keeps
    the session consistent with the store. */
module SessionFacts {
  import opened Io
  import opened Paths
  import opened Text
  import opened Disk
  import opened Session

  // ---------------------------------------------------------------------------
  // Selection.

  /** Wrapping up and down stays inside the list and each undoes the other. */
  lemma WrapInverse(i: nat, n: nat)
    requires i < n
    ensures WrapUp(i, n) < n && WrapDown(i, n) < n
    ensures WrapUp(WrapDown(i, n), n) == i
    ensures WrapDown(WrapUp(i, n), n) == i
  {
  }

  /** What the preview becomes: the text and line count of a selected file,
      no preview for a selected directory or a path that is not there, and
      no change at all when the selection is past the end of `files`. */
  lemma OpenedCases(v: State, s: Store)
    ensures v.selected < |v.files| && IsFileIn(s, v.files[v.selected]) ==>
      var text := s[v.files[v.selected]].text;
      Opened(v, s) == v.(content := Some(text), fileLinesCount := LineCount(text))
    ensures v.selected < |v.files| && !IsFileIn(s, v.files[v.selected]) ==>
      Opened(v, s) == v.(content := None)
    ensures v.selected >= |v.files| ==> Opened(v, s) == v
  {
  }

  /** Opening again after opening changes nothing more. */
  lemma OpenedIdempotent(v: State, s: Store)
    ensures Opened(Opened(v, s), s) == Opened(v, s)
  {
  }

  /** `up` on a non-empty list moves to the previous entry or wraps to the
      last, resets the scroll, and previews the entry it lands on. */
  lemma UpMoves(v: State, s: Store)
    requires |v.files| > 0 && v.selected < |v.files|
    ensures Up(v, s).selected == WrapUp(v.selected, |v.files|) < |v.files|
    ensures Up(v, s).fileScroll == 0
    ensures Up(v, s) == Opened(v.(selected := WrapUp(v.selected, |v.files|), fileScroll := 0), s)
  {
  }

  /** `down` opens twice on one path, but ends where one move to the next
      entry (or a wrap to the first) and a single preview would. */
  lemma {:induction false} DownMoves(v: State, s: Store)
    requires |v.files| > 0
    ensures Down(v, s) == Opened(v.(selected := WrapDown(v.selected, |v.files|), fileScroll := 0), s)
    ensures Down(v, s).selected < |v.files|
    ensures Down(v, s).fileScroll == 0
  {
    var w := v.(selected := WrapDown(v.selected, |v.files|), fileScroll := 0);
    if v.selected < |v.files| - 1 {
      OpenedIdempotent(w, s);
      assert Opened(w, s).(fileScroll := 0) == Opened(w, s);
    } else {
      assert v.(selected := 0).(fileScroll := 0) == w;
    }
  }

  /** Moving down then up returns to the same entry. */
  lemma UpAfterDown(v: State, s: Store)
    requires |v.files| > 0 && v.selected < |v.files|
    ensures Up(Down(v, s), s).selected == v.selected
  {
    DownMoves(v, s);
    WrapInverse(v.selected, |v.files|);
  }

  /** The action menu wraps over its five labels in both directions. */
  lemma MenuWraps(v: State)
    requires v.menuSelected < |ShowMenu()|
    ensures MenuUp(v).menuSelected < |ShowMenu()| && MenuDown(v).menuSelected < |ShowMenu()|
    ensures MenuUp(MenuDown(v)) == v && MenuDown(MenuUp(v)) == v
    ensures v.menuSelected == 0 ==> MenuUp(v).menuSelected == 4
    ensures v.menuSelected == 4 ==> MenuDown(v).menuSelected == 0
  {
  }

  /** The editor menu wraps forward over its six labels, but backward from
      the first label lands on the fifth and never on "Отмена", so up does
      not undo down at the last label. */
  lemma ContextWraps(v: State)
    requires v.contextSelected < |ShowContext()|
    ensures ContextDown(v).contextSelected < |ShowContext()| && ContextUp(v).contextSelected < |ShowContext()|
    ensures v.contextSelected == |ShowContext()| - 1 ==> ContextDown(v).contextSelected == 0
    ensures v.contextSelected == 0 ==> ContextUp(v).contextSelected == |ShowContext()| - 2
    ensures v.contextSelected == |ShowContext()| - 1 ==> ContextUp(ContextDown(v)) != v
    ensures v.contextSelected < |ShowContext()| - 1 ==> ContextUp(ContextDown(v)) == v
  {
  }

  // ---------------------------------------------------------------------------
  // Preview scrolling.

  /** `page_down` keeps the scroll at most two lines past the last line. */
  lemma PageDownBounded(v: State)
    requires v.fileLinesCount >= 1 && v.fileScroll <= v.fileLinesCount + 1
    ensures PageDown(v).fileScroll <= v.fileLinesCount + 1
  {
  }

  /** `page_up` never scrolls back past the top, and moves back two lines
      exactly when it can. */
  lemma PageUpBounded(v: State)
    ensures PageUp(v).fileScroll <= v.fileScroll
    ensures PageUp(v).fileScroll != v.fileScroll <==> v.fileScroll >= 2
  {
  }

  /** Each scroll step undoes the other where both move. */
  lemma PageRoundTrips(v: State)
    requires v.fileLinesCount >= 1
    ensures v.fileScroll <= v.fileLinesCount - 1 ==> PageUp(PageDown(v)) == v
    ensures 2 <= v.fileScroll <= v.fileLinesCount + 1 ==> PageDown(PageUp(v)) == v
  {
  }

  // ---------------------------------------------------------------------------
  // Moving between directories.

  /** Entering a selected directory lists it from the first entry on and
      keeps the preview. */
  lemma EnterListsDir(v: State, s: Store)
    requires Consistent(v, s) && v.selected < |v.files| && IsDirIn(s, v.files[v.selected])
    ensures EnterHandler(v, s) == Step(v.(currentDir := v.files[v.selected], files := Listing(s, v.files[v.selected]), selected := 0), s, Ok)
    ensures Consistent(EnterHandler(v, s).state, s)
  {
  }

  /** Entering a selected file previews its text and its line count, and
      stays in the directory. */
  lemma EnterOpensFile(v: State, s: Store)
    requires v.selected < |v.files| && IsFileIn(s, v.files[v.selected])
    ensures var r := EnterHandler(v, s);
      && r.outcome == Ok && r.store == s
      && r.state.currentDir == v.currentDir && r.state.files == v.files
      && r.state.content == Some(s[v.files[v.selected]].text)
      && r.state.fileLinesCount == LineCount(s[v.files[v.selected]].text)
  {
  }

  /** Nothing happens on enter when the selection is past the list. */
  lemma EnterPastEnd(v: State, s: Store)
    requires v.selected >= |v.files|
    ensures EnterHandler(v, s) == Step(v, s, Ok)
  {
  }

  /** `enter_handler` keeps the session consistent with the store. */
  lemma EnterHandlerConsistent(v: State, s: Store)
    requires Consistent(v, s)
    ensures Consistent(EnterHandler(v, s).state, s)
  {
    if v.selected < |v.files| && IsDirIn(s, v.files[v.selected]) {
      EnterListsDir(v, s);
    }
  }

  /** Going to the parent lists it from the first entry on and clears the
      preview; at the root nothing happens. */
  lemma ParentLists(v: State, s: Store)
    requires Consistent(v, s)
    ensures v.currentDir == [] ==> ToParentDir(v, s) == Step(v, s, Ok)
    ensures v.currentDir != [] ==>
      var up := v.currentDir[..|v.currentDir| - 1];
      ToParentDir(v, s) == Step(v.(currentDir := up, files := Listing(s, up), selected := 0, content := None), s, Ok)
    ensures Consistent(ToParentDir(v, s).state, s)
  {
    if v.currentDir != [] {
      ParentDir(s, v.currentDir);
    }
  }

  /** Moving the selection, scrolling and previewing keep the session
      consistent with the store. */
  lemma SelectionConsistent(v: State, s: Store)
    requires Consistent(v, s)
    ensures |v.files| > 0 ==> Consistent(Down(v, s), s)
    ensures v.selected > 0 || |v.files| > 0 ==> Consistent(Up(v, s), s)
    ensures Consistent(PageUp(v), s)
    ensures v.fileLinesCount >= 1 ==> Consistent(PageDown(v), s)
  {
  }

  /** `to_parent_dir` keeps the session consistent with the store. */
  lemma ToParentDirConsistent(v: State, s: Store)
    requires Consistent(v, s)
    ensures Consistent(ToParentDir(v, s).state, s)
  {
    ParentLists(v, s);
  }

  /** Entering a directory and going back up returns to the same directory
      and listing, at the first entry with no preview. */
  lemma EnterThenParent(v: State, s: Store)
    requires Consistent(v, s) && v.selected < |v.files| && IsDirIn(s, v.files[v.selected])
    ensures var r := ToParentDir(EnterHandler(v, s).state, s);
      r == Step(v.(selected := 0, content := None), s, Ok)
  {
    var p := v.files[v.selected];
    EnterListsDir(v, s);
    assert IsChild(v.currentDir, p);
    assert p[..|p| - 1] == v.currentDir;
    ParentLists(EnterHandler(v, s).state, s);
  }

  // ---------------------------------------------------------------------------
  // Search.

  /** A query that trims to nothing changes nothing at all. */
  lemma FindEmptyQuery(v: State, matches: (string, string) -> bool)
    requires Trim(v.searchBuffer) == []
    ensures Find(v, matches) == v
  {
  }

  /** A real query selects the first entry whose name matches it, keeps the
      selection when none does, and then clears the query and returns to
      normal mode. */
  lemma FindSelectsFirst(v: State, matches: (string, string) -> bool)
    requires Trim(v.searchBuffer) != []
    ensures var r := Find(v, matches); var q := Trim(v.searchBuffer);
      && r.searchBuffer == [] && r.mode == Mode.Normal && r.inputMode == InputMode.Normal
      && r.files == v.files && r.currentDir == v.currentDir
      && ((exists j :: 0 <= j < |v.files| && NameMatches(v.files[j], q, matches)) ==>
            && r.selected < |v.files| && NameMatches(v.files[r.selected], q, matches)
            && forall j :: 0 <= j < r.selected ==> !NameMatches(v.files[j], q, matches))
      && ((forall j :: 0 <= j < |v.files| ==> !NameMatches(v.files[j], q, matches)) ==> r.selected == v.selected)
  {
  }

  // ---------------------------------------------------------------------------
  // Changing the filesystem.

  /** In a consistent session every listed entry is a non-root child of the
      current directory, so `rename_selected` cannot panic. */
  lemma ConsistentRenameDefined(v: State, s: Store)
    requires Consistent(v, s)
    ensures RenameDefined(v)
  {
    if v.selected < |v.files| {
      assert v.files[v.selected] in v.files;
    }
  }

  /** A new name below the current directory is never the directory itself
      nor above it. */
  lemma JoinBelow(dir: Path, name: string)
    ensures IsChild(dir, Join(dir, name)) && !IsPrefix(Join(dir, name), dir)
  {
    assert Join(dir, name)[..|dir|] == dir;
  }

  /** `create_file`: an empty name only clears the buffer; otherwise the
      only possible failure is the one `File::create` reports, and on
      success the new file joins the listing and the buffer is cleared. */
  lemma CreateFileListed(v: State, s: Store)
    requires Consistent(v, s)
    ensures var r := CreateFileStep(v, s); var name := Trim(v.inputBuffer); var p := Join(v.currentDir, name);
      && Consistent(r.state, r.store)
      && (name == [] ==> r == Step(v.(inputBuffer := []), s, Ok))
      && (name != [] ==> r.outcome == Status(Touch(s, p)))
      && (r.outcome.Err? ==> r.state == v && r.store == s)
      && (name != [] && r.outcome.Ok? ==>
            && r.store == Touch(s, p).value
            && r.state == v.(files := r.state.files, inputBuffer := [])
            && forall q :: q in r.state.files <==> q in v.files || q == p)
  {
    var name := Trim(v.inputBuffer);
    if name != [] && Touch(s, Join(v.currentDir, name)).Success? {
      TouchChild(s, v.currentDir, name);
    }
  }

  /** Creating a file inside a directory adds it to the directory's listing. */
  lemma TouchChild(s: Store, dir: Path, name: string)
    requires WellFormed(s) && IsDirIn(s, dir) && Touch(s, Join(dir, name)).Success?
    ensures var t := Touch(s, Join(dir, name)).value;
      && WellFormed(t) && IsDirIn(t, dir)
      && forall q :: q in Listing(t, dir) <==> q in Listing(s, dir) || q == Join(dir, name)
  {
    JoinBelow(dir, name);
    TouchWellFormed(s, Join(dir, name));
  }

  /** `create_dir`: as `create_file`, and a name already listed fails with
      `AlreadyExists`. */
  lemma CreateDirListed(v: State, s: Store)
    requires Consistent(v, s)
    ensures var r := CreateDirStep(v, s); var name := Trim(v.inputBuffer); var p := Join(v.currentDir, name);
      && Consistent(r.state, r.store)
      && (name == [] ==> r == Step(v.(inputBuffer := []), s, Ok))
      && (name != [] ==> r.outcome == Status(MkDir(s, p)))
      && (name != [] && p in v.files ==> r.outcome == Err(AlreadyExists))
      && (r.outcome.Err? ==> r.state == v && r.store == s)
      && (name != [] && r.outcome.Ok? ==>
            && r.store == MkDir(s, p).value
            && r.state == v.(files := r.state.files, inputBuffer := [])
            && forall q :: q in r.state.files <==> q in v.files || q == p)
  {
    var name := Trim(v.inputBuffer);
    var p := Join(v.currentDir, name);
    if name != [] && MkDir(s, p).Success? {
      MkDirChild(s, v.currentDir, name);
    }
  }

  lemma MkDirChild(s: Store, dir: Path, name: string)
    requires WellFormed(s) && IsDirIn(s, dir) && MkDir(s, Join(dir, name)).Success?
    ensures var t := MkDir(s, Join(dir, name)).value;
      && WellFormed(t) && IsDirIn(t, dir)
      && forall q :: q in Listing(t, dir) <==> q in Listing(s, dir) || q == Join(dir, name)
  {
    JoinBelow(dir, name);
    MkDirWellFormed(s, Join(dir, name));
  }

  /** The children of `dir` after its child `from` is moved to its child `to`. */
  lemma SiblingMove(s: Store, dir: Path, from: Path, to: Path, q: Path)
    requires IsChild(dir, from) && IsChild(dir, to) && IsChild(dir, q) && from in s && from != to
    ensures q in Relocated(s, from, to) <==> (q in s && q != from) || q == to
  {
    RelocatedEnds(s, from, to);
    if q != from && q != to {
      assert !IsPrefix(from, q) by {
        if IsPrefix(from, q) { PrefixOfSameLength(from, q); }
      }
      assert !IsPrefix(to, q) by {
        if IsPrefix(to, q) { PrefixOfSameLength(to, q); }
      }
      if q in s {
        RelocatedKeeps(s, from, to, q);
      }
      assert q !in Moved(s, from, to) by {
        if q in Moved(s, from, to) { MovedKey(s, from, to, q); }
      }
    } else if q == from {
      assert !IsPrefix(to, from) by {
        if IsPrefix(to, from) { PrefixOfSameLength(to, from); }
      }
    }
  }

  /** A move between two children of `dir` leaves `dir` a directory. */
  lemma SiblingMoveKeepsDir(s: Store, dir: Path, from: Path, to: Path)
    requires IsDirIn(s, dir) && IsChild(dir, from) && IsChild(dir, to)
    ensures IsDirIn(Relocated(s, from, to), dir)
  {
    assert |dir| < |from| && |dir| < |to|;
    RelocatedKeeps(s, from, to, dir);
  }

  /** `rename_selected`: renaming the selected entry to a sibling either
      fails as `rename` does and changes nothing, or replaces the entry by
      its new name in the listing; the buffer is cleared whenever it does
      not fail, even with nothing selected. */
  lemma RenameListed(v: State, s: Store)
    requires Consistent(v, s)
    ensures RenameDefined(v)
    ensures var r := RenameStep(v, s); var name := Trim(v.inputBuffer);
      && Consistent(r.state, r.store)
      && (v.selected >= |v.files| || name == [] ==> r == Step(v.(inputBuffer := []), s, Ok))
      && (v.selected < |v.files| && name != [] ==>
            var from := v.files[v.selected]; var to := Join(v.currentDir, name);
            && r.outcome == Status(Move(s, from, to))
            && (r.outcome.Err? ==> r.state == v && r.store == s)
            && (r.outcome.Ok? ==>
                  && r.state == v.(files := r.state.files, inputBuffer := [])
                  && to in r.state.files && (from != to ==> from !in r.state.files)
                  && forall q :: q != from && q != to ==> (q in r.state.files <==> q in v.files)))
  {
    ConsistentRenameDefined(v, s);
    if v.selected < |v.files| && Trim(v.inputBuffer) != [] {
      RenameSelectedListed(v, s);
    }
  }

  /** The case of `RenameListed` where an entry is selected and the name is
      not empty. */
  lemma RenameSelectedListed(v: State, s: Store)
    requires Consistent(v, s) && v.selected < |v.files| && Trim(v.inputBuffer) != []
    ensures RenameDefined(v)
    ensures var r := RenameStep(v, s);
      var from := v.files[v.selected]; var to := Join(v.currentDir, Trim(v.inputBuffer));
      && Consistent(r.state, r.store)
      && r.outcome == Status(Move(s, from, to))
      && (r.outcome.Err? ==> r.state == v && r.store == s)
      && (r.outcome.Ok? ==>
            && r.state == v.(files := r.state.files, inputBuffer := [])
            && to in r.state.files && (from != to ==> from !in r.state.files)
            && forall q :: q != from && q != to ==> (q in r.state.files <==> q in v.files))
  {
    ConsistentRenameDefined(v, s);
    var name := Trim(v.inputBuffer);
    var from := v.files[v.selected];
    assert from in v.files;
    assert from[..|from| - 1] == v.currentDir;
    if Move(s, from, Join(v.currentDir, name)).Success? {
      MoveSibling(s, v.currentDir, from, name);
    }
  }

  /** Renaming a child of a directory to another name in it replaces that
      child in the directory's listing. */
  lemma MoveSibling(s: Store, dir: Path, from: Path, name: string)
    requires WellFormed(s) && IsDirIn(s, dir) && from in s && IsChild(dir, from)
    requires Move(s, from, Join(dir, name)).Success?
    ensures var t := Move(s, from, Join(dir, name)).value;
      && WellFormed(t) && IsDirIn(t, dir)
      && forall q :: q in Listing(t, dir) <==> (q in Listing(s, dir) && q != from) || q == Join(dir, name)
  {
    var to := Join(dir, name);
    JoinBelow(dir, name);
    MoveWellFormed(s, from, to);
    if from != to {
      var t := Relocated(s, from, to);
      assert Move(s, from, to).value == t;
      SiblingMoveKeepsDir(s, dir, from, to);
      SiblingMoveChildren(s, dir, from, to);
      forall q ensures q in Listing(t, dir) <==> (q in Listing(s, dir) && q != from) || q == to {
        if IsChild(dir, q) {
          assert q in t <==> (q in s && q != from) || q == to;
        }
      }
    }
  }

  lemma SiblingMoveChildren(s: Store, dir: Path, from: Path, to: Path)
    requires IsChild(dir, from) && IsChild(dir, to) && from in s && from != to
    ensures forall q :: IsChild(dir, q) ==>
      (q in Relocated(s, from, to) <==> (q in s && q != from) || q == to)
  {
    forall q | IsChild(dir, q)
      ensures q in Relocated(s, from, to) <==> (q in s && q != from) || q == to
    {
      SiblingMove(s, dir, from, to, q);
    }
  }

  /** The entries of the current directory once its child `p` is removed:
      the others stay, the current directory stays a directory and the
      removal cannot fail. */
  lemma RemoveChild(s: Store, dir: Path, p: Path)
    requires WellFormed(s) && IsDirIn(s, dir) && p in s && IsChild(dir, p)
    ensures Remove(s, p).Success?
    ensures WellFormed(Remove(s, p).value) && IsDirIn(Remove(s, p).value, dir)
    ensures Children(Remove(s, p).value, dir) == Children(s, dir) - {p}
  {
    var t := Remove(s, p).value;
    if IsDirIn(s, p) {
      RemoveTreeWellFormed(s, p);
      assert !IsPrefix(p, dir);
      forall q | q in Children(s, dir) && q != p ensures !IsPrefix(p, q) {
        if IsPrefix(p, q) { PrefixOfSameLength(p, q); }
      }
    } else {
      UnlinkWellFormed(s, p);
    }
  }

  /** `delete_selected` in a consistent session always succeeds: the
      selected entry leaves the listing, every other entry stays, and the
      selection is not moved. */
  lemma DeleteListed(v: State, s: Store)
    requires Consistent(v, s)
    ensures var r := DeleteStep(v, s);
      && Consistent(r.state, r.store) && r.outcome == Ok
      && r.state == v.(files := r.state.files)
      && (v.selected >= |v.files| ==> r == Step(v, s, Ok))
      && (v.selected < |v.files| ==>
            && r.store == Remove(s, v.files[v.selected]).value
            && |r.state.files| == |v.files| - 1
            && forall q :: q in r.state.files <==> q in v.files && q != v.files[v.selected])
  {
    if v.selected < |v.files| {
      var p := v.files[v.selected];
      assert p in v.files;
      RemoveChild(s, v.currentDir, p);
    }
  }

  /** Deleting the last entry leaves the selection one past the shortened
      list: `delete_selected` does not re-clamp it. */
  lemma DeleteLastLeavesSelectionPastEnd(v: State, s: Store)
    requires Consistent(v, s) && |v.files| > 0 && v.selected == |v.files| - 1
    ensures DeleteStep(v, s).state.selected == |DeleteStep(v, s).state.files|
  {
    DeleteListed(v, s);
  }

  /** Deleting the only entry empties the listing with the selection at 0. */
  lemma DeleteOnlyEntry(v: State, s: Store)
    requires Consistent(v, s) && |v.files| == 1 && v.selected == 0
    ensures DeleteStep(v, s).state.files == [] && DeleteStep(v, s).state.selected == 0
  {
    DeleteListed(v, s);
  }

  // ---------------------------------------------------------------------------
  // Menus.

  /** `select_from_menu`: the first label deletes at once, the next three arm
      their deferred action and switch to typing, and the rest only stop
      typing, staying in the menu. */
  lemma SelectFromMenuDispatch(v: State, s: Store)
    ensures v.menuSelected == 0 ==> SelectFromMenu(v, s) == DeleteStep(v, s)
    ensures 1 <= v.menuSelected <= 3 ==>
      var a := if v.menuSelected == 1 then CreateFile else if v.menuSelected == 2 then CreateDir else Rename;
      SelectFromMenu(v, s) == Step(v.(inputMode := Input, menuAction := Some(a)), s, Ok)
    ensures v.menuSelected >= 4 ==> SelectFromMenu(v, s) == Step(v.(inputMode := InputMode.Normal), s, Ok)
  {
  }

  /** The deferred action runs at most once: afterwards none is armed, and
      a second `handle_menu_action` changes nothing but the typing mode. */
  lemma ActionTakenOnce(v: State, s: Store)
    requires ActionDefined(v)
    ensures var r := HandleMenuAction(v, s);
      && r.state.menuAction.None?
      && HandleMenuAction(r.state, r.store) == Step(r.state.(inputMode := InputMode.Normal), r.store, Ok)
  {
  }

  /** `handle_menu_action` stops typing exactly when the action did not fail;
      delete, cancel or no action do nothing else. */
  lemma HandleMenuActionOutcome(v: State, s: Store)
    requires ActionDefined(v)
    ensures var r := HandleMenuAction(v, s);
      && (r.outcome.Ok? ==> r.state.inputMode == InputMode.Normal)
      && (r.outcome.Err? ==> r.state.inputMode == v.inputMode)
      && (v.menuAction.None? || v.menuAction.value.Delete? || v.menuAction.value.Cancel? ==>
            r == Step(v.(menuAction := None, inputMode := InputMode.Normal), s, Ok))
  {
  }

  // ---------------------------------------------------------------------------
  // Every operation keeps the session consistent with the store.

  lemma HandleMenuActionConsistent(v: State, s: Store)
    requires Consistent(v, s) && ActionDefined(v)
    ensures Consistent(HandleMenuAction(v, s).state, HandleMenuAction(v, s).store)
  {
    var w := v.(menuAction := None);
    match v.menuAction
    case Some(CreateFile) => CreateFileListed(w, s);
    case Some(CreateDir) => CreateDirListed(w, s);
    case Some(Rename) => RenameListed(w, s);
    case _ =>
  }

  lemma SelectFromMenuConsistent(v: State, s: Store)
    requires Consistent(v, s)
    ensures Consistent(SelectFromMenu(v, s).state, SelectFromMenu(v, s).store)
  {
    SelectFromMenuDispatch(v, s);
    if v.menuSelected == 0 {
      DeleteListed(v, s);
    }
  }

  // ---------------------------------------------------------------------------
  // The editor menu.

  /** An editor label launches its editor on the selected entry and keeps
      the mode; "Отмена" launches nothing and leaves the menu. */
  lemma ContextChoice(v: State)
    ensures v.contextSelected < |Editors()| && v.selected < |v.files| ==>
      ContextLaunch(v) == Some(Launch(v.files[v.selected], Editors()[v.contextSelected]))
    ensures ContextLaunch(v).Some? ==> SelectFromContext(v) == v
    ensures v.contextSelected >= |Editors()| ==>
      ContextLaunch(v).None? && SelectFromContext(v) == v.(mode := Mode.Normal)
  {
  }
}
