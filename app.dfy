/** `FileManager`: the session object of the file manager. Its fields are
    updated in place by short methods; each method is proved to produce the
    session, store and result of the matching transition in `Session`, and
    the methods that move between directories or change the filesystem are
    proved to keep the session consistent with the store. */
module App {
  import opened Io
  import opened Paths
  import opened Text
  import opened Disk
  import opened Fs
  import opened Session
  import SessionFacts

  class FileManager {
    /** The filesystem the session works on. */
    const fs: FileSystem

    var currentDir: Path
    var files: seq<Path>
    var selected: nat
    var content: Option<string>
    var fileScroll: nat
    var fileLinesCount: nat
    var mode: Mode
    var inputMode: InputMode
    var inputBuffer: string
    var menuAction: Option<MenuAction>
    var menuSelected: nat
    var contextSelected: nat
    var searchBuffer: string

    /** The fields as a session value. */
    ghost function View(): State
      reads this
    {
      State(currentDir, files, selected, content, fileScroll, fileLinesCount, mode, inputMode,
            inputBuffer, menuAction, menuSelected, contextSelected, searchBuffer)
    }

    /** The session agrees with the filesystem it works on. */
    ghost predicate Valid()
      reads this, fs
    {
      Consistent(View(), fs.store)
    }

    constructor Init(fs: FileSystem, dir: Path, files: seq<Path>)
      ensures this.fs == fs && View() == Initial(dir, files)
    {
      this.fs := fs;
      currentDir := dir;
      this.files := files;
      selected := 0;
      content := None;
      fileScroll := 0;
      fileLinesCount := 0;
      mode := Mode.Normal;
      inputMode := InputMode.Normal;
      inputBuffer := [];
      menuAction := None;
      menuSelected := 0;
      contextSelected := 0;
      searchBuffer := [];
    }

    /** `new`, started in the working directory `cwd`: fails as listing
        `cwd` fails, and otherwise starts at its first entry. */
    static method New(fs: FileSystem, cwd: Path) returns (r: Result<FileManager>)
      ensures r.Failure? <==> !IsDirIn(fs.store, cwd)
      ensures r.Failure? ==> r.error == FileList(fs.store, cwd).error
      ensures r.Success? ==> fresh(r.value) && r.value.fs == fs
      ensures r.Success? ==> r.value.View() == Initial(cwd, Listing(fs.store, cwd))
      ensures r.Success? && WellFormed(fs.store) ==> r.value.Valid()
    {
      var files := GetFileList(fs, cwd);
      if files.Failure? {
        return Failure(files.error);
      }
      var manager := new FileManager.Init(fs, cwd, files.value);
      return Success(manager);
    }

    /** `get_file_list`: reads the directory in whatever order the
        filesystem gives and sorts it, which always yields the directory's
        sorted listing. */
    static method GetFileList(fs: FileSystem, dir: Path) returns (r: Result<seq<Path>>)
      ensures r == FileList(fs.store, dir)
    {
      var entries := fs.ReadDir(dir);
      match entries
      case Failure(e) =>
        return Failure(e);
      case Success(paths) =>
        var sorted := SortPaths(paths);
        SortedUnique(sorted, Listing(fs.store, dir));
        return Success(sorted);
    }

    /** `get_file_lines_count`: counts the lines of a file one read at a
        time; opening anything but a file panics. */
    static method GetFileLinesCount(fs: FileSystem, path: Path) returns (n: nat)
      requires fs.IsFile(path)
      ensures n == LineCount(fs.store[path].text)
    {
      var rest := fs.store[path].text;
      n := 0;
      while rest != []
        invariant n + LineCount(rest) == LineCount(fs.store[path].text)
        decreases |rest|
      {
        rest := rest[LineEnd(rest)..];
        n := n + 1;
      }
    }

    method AddToInputBuffer(c: char)
      modifies this
      ensures View() == old(View()).(inputBuffer := old(inputBuffer) + [c])
    {
      inputBuffer := inputBuffer + [c];
    }

    method DeleteFromInputBuffer()
      modifies this
      ensures View() == old(View()).(inputBuffer := Pop(old(inputBuffer)))
    {
      inputBuffer := Pop(inputBuffer);
    }

    method AddToSearchBuffer(c: char)
      modifies this
      ensures View() == old(View()).(searchBuffer := old(searchBuffer) + [c])
    {
      searchBuffer := searchBuffer + [c];
    }

    method DeleteFromSearchBuffer()
      modifies this
      ensures View() == old(View()).(searchBuffer := Pop(old(searchBuffer)))
    {
      searchBuffer := Pop(searchBuffer);
    }

    // -------------------------------------------------------------------------
    // Navigation.

    method EnterHandler() returns (r: Outcome)
      modifies this
      ensures Step(View(), fs.store, r) == Session.EnterHandler(old(View()), fs.store)
      ensures old(Valid()) ==> Valid()
    {
      if Valid() {
        SessionFacts.EnterHandlerConsistent(View(), fs.store);
      }
      if selected < |files| {
        var path := files[selected];
        if fs.IsDir(path) {
          r := EnterDir();
          if r.Err? {
            return;
          }
        } else {
          r := OpenFile();
        }
      }
      r := Ok;
    }

    method EnterDir() returns (r: Outcome)
      modifies this
      ensures Step(View(), fs.store, r) == Session.EnterDir(old(View()), fs.store)
    {
      if selected < |files| {
        var path := files[selected];
        currentDir := path;
        var list := GetFileList(fs, currentDir);
        if list.Failure? {
          return Err(list.error);
        }
        files := list.value;
        selected := 0;
      }
      r := Ok;
    }

    /** `open_file` never fails here: a file's text is always readable. */
    method OpenFile() returns (r: Outcome)
      modifies this
      ensures View() == Opened(old(View()), fs.store)
      ensures r == Ok
    {
      if selected < |files| {
        var path := files[selected];
        if fs.IsFile(path) {
          var text := fs.ReadToString(path);
          content := Some(text.value);
          fileLinesCount := GetFileLinesCount(fs, path);
        } else {
          content := None;
        }
      }
      r := Ok;
    }

    method ToParentDir() returns (r: Outcome)
      modifies this
      ensures Step(View(), fs.store, r) == Session.ToParentDir(old(View()), fs.store)
      ensures old(Valid()) ==> Valid()
    {
      if Valid() {
        SessionFacts.ToParentDirConsistent(View(), fs.store);
      }
      ghost var v := View();
      var parent := Parent(currentDir);
      if parent.Some? {
        currentDir := parent.value;
        var list := GetFileList(fs, currentDir);
        if list.Failure? {
          assert View() == v.(currentDir := parent.value);
          return Err(list.error);
        }
        files := list.value;
        selected := 0;
        content := None;
        assert View() == v.(currentDir := parent.value, files := list.value, selected := 0, content := None);
      }
      r := Ok;
    }

    method Up()
      requires selected > 0 || |files| > 0
      modifies this
      ensures View() == Session.Up(old(View()), fs.store)
      ensures old(Valid()) ==> Valid()
    {
      if Valid() {
        SessionFacts.SelectionConsistent(View(), fs.store);
      }
      if selected > 0 {
        selected := selected - 1;
      } else {
        selected := |files| - 1;
      }
      fileScroll := 0;
      var status := OpenFile();
    }

    method MenuUp()
      modifies this
      ensures View() == Session.MenuUp(old(View()))
    {
      if menuSelected > 0 {
        menuSelected := menuSelected - 1;
      } else {
        menuSelected := |ShowMenu()| - 1;
      }
    }

    method ContextUp()
      modifies this
      ensures View() == Session.ContextUp(old(View()))
    {
      if contextSelected > 0 {
        contextSelected := contextSelected - 1;
      } else {
        contextSelected := |ShowMenu()| - 1;
      }
    }

    method PageUp()
      modifies this
      ensures View() == Session.PageUp(old(View()))
      ensures old(Valid()) ==> Valid()
    {
      if Valid() {
        SessionFacts.SelectionConsistent(View(), fs.store);
      }
      if fileScroll >= 2 {
        fileScroll := fileScroll - 2;
      }
    }

    method Down()
      requires |files| > 0
      modifies this
      ensures View() == Session.Down(old(View()), fs.store)
      ensures old(Valid()) ==> Valid()
    {
      if Valid() {
        SessionFacts.SelectionConsistent(View(), fs.store);
      }
      if selected < |files| - 1 {
        selected := selected + 1;
        fileScroll := 0;
        var status := OpenFile();
      } else {
        selected := 0;
      }
      fileScroll := 0;
      var status := OpenFile();
    }

    method MenuDown()
      modifies this
      ensures View() == Session.MenuDown(old(View()))
    {
      if menuSelected < |ShowMenu()| - 1 {
        menuSelected := menuSelected + 1;
      } else {
        menuSelected := 0;
      }
    }

    method ContextDown()
      modifies this
      ensures View() == Session.ContextDown(old(View()))
    {
      if contextSelected < |ShowContext()| - 1 {
        contextSelected := contextSelected + 1;
      } else {
        contextSelected := 0;
      }
    }

    method PageDown()
      requires fileLinesCount >= 1
      modifies this
      ensures View() == Session.PageDown(old(View()))
      ensures old(Valid()) ==> Valid()
    {
      if Valid() {
        SessionFacts.SelectionConsistent(View(), fs.store);
      }
      if fileScroll <= fileLinesCount - 1 {
        fileScroll := fileScroll + 2;
      }
    }

    /** `find_in_current_dir` with the fuzzy matcher `matches`. */
    method FindInCurrentDir(matches: (string, string) -> bool)
      modifies this
      ensures View() == Find(old(View()), matches)
    {
      var query := Trim(searchBuffer);
      if query == [] {
        return;
      }
      var i := 0;
      while i < |files| && !NameMatches(files[i], query, matches)
        invariant 0 <= i <= |files|
        invariant FirstMatch(files, i, query, matches) == FirstMatch(files, 0, query, matches)
        decreases |files| - i
      {
        i := i + 1;
      }
      if i < |files| {
        selected := i;
      }
      searchBuffer := [];
      DefaultInputMode();
      DefaultMode();
    }

    // -------------------------------------------------------------------------
    // Modes.

    method MenuMode()
      modifies this
      ensures View() == old(View()).(mode := Mode.Menu)
    {
      mode := Mode.Menu;
    }

    method DefaultMode()
      modifies this
      ensures View() == old(View()).(mode := Mode.Normal)
    {
      mode := Mode.Normal;
    }

    method SearchMode()
      modifies this
      ensures View() == old(View()).(mode := Mode.Search)
    {
      mode := Mode.Search;
    }

    method ContextMode()
      modifies this
      ensures View() == old(View()).(mode := Mode.Context)
    {
      mode := Mode.Context;
    }

    /** `input_mode`: starts typing. */
    method EnableInput()
      modifies this
      ensures View() == old(View()).(inputMode := InputMode.Input)
    {
      inputMode := InputMode.Input;
    }

    method DefaultInputMode()
      modifies this
      ensures View() == old(View()).(inputMode := InputMode.Normal)
    {
      inputMode := InputMode.Normal;
    }

    // -------------------------------------------------------------------------
    // Menus.

    method SelectFromMenu() returns (r: Outcome)
      modifies this, fs
      ensures Step(View(), fs.store, r) == Session.SelectFromMenu(old(View()), old(fs.store))
      ensures old(Valid()) ==> Valid()
    {
      if Valid() {
        SessionFacts.SelectFromMenuConsistent(View(), fs.store);
      }
      match menuSelected {
        case 0 =>
          r := DeleteSelected();
          if r.Err? {
            return;
          }
        case 1 =>
          EnableInput();
          menuAction := Some(MenuAction.CreateFile);
        case 2 =>
          EnableInput();
          menuAction := Some(MenuAction.CreateDir);
        case 3 =>
          EnableInput();
          menuAction := Some(MenuAction.Rename);
        case _ =>
          DefaultInputMode();
      }
      r := Ok;
    }

    /** `select_from_context`, with `spawn` standing for running an editor on
        a file and waiting for it. The editor may write to the filesystem,
        so nothing is promised about the store afterwards and `files` may no
        longer be its listing. */
    method SelectFromContext(spawn: (Path, string) -> Outcome) returns (r: Outcome)
      modifies this, fs
      ensures View() == Session.SelectFromContext(old(View()))
      ensures r == match ContextLaunch(old(View()))
                   case None => Ok
                   case Some(launch) => spawn(launch.file, launch.editor)
    {
      var editors := Editors();
      if contextSelected < |editors| {
        if selected < |files| {
          r := spawn(files[selected], editors[contextSelected]);
          if r.Err? {
            return;
          }
        }
      } else {
        DefaultMode();
      }
      r := Ok;
    }

    method HandleMenuAction() returns (r: Outcome)
      requires ActionDefined(View())
      modifies this, fs
      ensures Step(View(), fs.store, r) == Session.HandleMenuAction(old(View()), old(fs.store))
      ensures old(Valid()) ==> Valid()
    {
      if Valid() {
        SessionFacts.HandleMenuActionConsistent(View(), fs.store);
      }
      var action := menuAction;
      menuAction := None;
      match action {
        case Some(CreateFile) =>
          r := CreateFile();
          if r.Err? {
            return;
          }
        case Some(CreateDir) =>
          r := CreateDir();
          if r.Err? {
            return;
          }
        case Some(Rename) =>
          r := RenameSelected();
          if r.Err? {
            return;
          }
        case _ =>
      }
      DefaultInputMode();
      r := Ok;
    }

    // -------------------------------------------------------------------------
    // Changing the filesystem.

    method UpdateFileList() returns (r: Outcome)
      modifies this
      ensures Step(View(), fs.store, r) == Refreshed(old(View()), fs.store)
    {
      var list := GetFileList(fs, currentDir);
      match list
      case Failure(e) =>
        r := Err(e);
      case Success(paths) =>
        files := paths;
        r := Ok;
    }

    method CreateFile() returns (r: Outcome)
      modifies this, fs
      ensures Step(View(), fs.store, r) == CreateFileStep(old(View()), old(fs.store))
      ensures old(Valid()) ==> Valid()
    {
      if Valid() {
        SessionFacts.CreateFileListed(View(), fs.store);
      }
      var name := Trim(inputBuffer);
      if name != [] {
        r := fs.CreateFile(Join(currentDir, name));
        if r.Err? {
          return;
        }
        r := UpdateFileList();
        if r.Err? {
          return;
        }
      }
      inputBuffer := [];
      r := Ok;
    }

    method CreateDir() returns (r: Outcome)
      modifies this, fs
      ensures Step(View(), fs.store, r) == CreateDirStep(old(View()), old(fs.store))
      ensures old(Valid()) ==> Valid()
    {
      if Valid() {
        SessionFacts.CreateDirListed(View(), fs.store);
      }
      var name := Trim(inputBuffer);
      if name != [] {
        r := fs.CreateDir(Join(currentDir, name));
        if r.Err? {
          return;
        }
        r := UpdateFileList();
        if r.Err? {
          return;
        }
      }
      inputBuffer := [];
      r := Ok;
    }

    method RenameSelected() returns (r: Outcome)
      requires RenameDefined(View())
      modifies this, fs
      ensures Step(View(), fs.store, r) == RenameStep(old(View()), old(fs.store))
      ensures old(Valid()) ==> Valid()
    {
      if Valid() {
        SessionFacts.RenameListed(View(), fs.store);
      }
      var newName := Trim(inputBuffer);
      if selected < |files| {
        var path := files[selected];
        if newName != [] {
          var parent := Parent(path);
          r := fs.Rename(path, Join(parent.value, newName));
          if r.Err? {
            return;
          }
          r := UpdateFileList();
          if r.Err? {
            return;
          }
        }
      }
      inputBuffer := [];
      r := UpdateFileList();
    }

    method DeleteSelected() returns (r: Outcome)
      modifies this, fs
      ensures Step(View(), fs.store, r) == DeleteStep(old(View()), old(fs.store))
      ensures old(Valid()) ==> Valid()
    {
      if Valid() {
        SessionFacts.DeleteListed(View(), fs.store);
      }
      if selected < |files| {
        var path := files[selected];
        if fs.IsDir(path) {
          r := fs.RemoveDirAll(path);
        } else {
          r := fs.RemoveFile(path);
        }
        if r.Err? {
          return;
        }
      }
      r := UpdateFileList();
    }
  }
}
