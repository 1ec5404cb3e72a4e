/** The file manager's session as a value: the fields of `FileManager`, and
    for each of its operations the new session, store and result that the
    operation produces. The class in `App` is proved to follow these
    transitions; the lemmas here state what the transitions guarantee. */
module Session {
  import opened Io
  import opened Paths
  import opened Text
  import opened Disk

  datatype Mode = Normal | Menu | Search | Context

  datatype InputMode = Input | Normal

  datatype MenuAction = CreateFile | CreateDir | Rename | Delete | Cancel

  /** The fields of `FileManager` the operations use. */
  datatype State = State(
    currentDir: Path,
    files: seq<Path>,
    selected: nat,
    content: Option<string>,
    fileScroll: nat,
    fileLinesCount: nat,
    mode: Mode,
    inputMode: InputMode,
    inputBuffer: string,
    menuAction: Option<MenuAction>,
    menuSelected: nat,
    contextSelected: nat,
    searchBuffer: string)

  /** A session, a store and the result of the call that produced them. */
  datatype Step = Step(state: State, store: Store, outcome: Outcome)

  /** What `select_from_context` asks the system to run. */
  datatype Launch = Launch(file: Path, editor: string)

  /** The labels of the action menu. */
  function ShowMenu(): (r: seq<string>)
    ensures |r| == 5 && r[4] == "Отмена"
  {
    ["Удалить", "Создать файл", "Создать папку", "Переименовать", "Отмена"]
  }

  /** The labels of the editor menu. */
  function ShowContext(): (r: seq<string>)
    ensures |r| == 6 && r[5] == "Отмена"
  {
    ["Открыть в Nano", "Открыть в Vim", "Открыть в WebStorm", "Открыть в RustRover", "Открыть в VS Code", "Отмена"]
  }

  /** The programs behind the first five editor labels. */
  function Editors(): (r: seq<string>)
    ensures |r| == |ShowContext()| - 1
  {
    ["nano", "vim", "webstorm", "rustrover", "code"]
  }

  /** `String::pop` with the removed character dropped: the text without its
      last character, or the empty text unchanged. */
  function Pop(t: string): (r: string)
    ensures t == [] ==> r == []
    ensures t != [] ==> r + [t[|t| - 1]] == t
  {
    if t == [] then [] else t[..|t| - 1]
  }

  /** The session `new` starts with, in directory `dir` listing `files`. */
  function Initial(dir: Path, files: seq<Path>): State
  {
    State(dir, files, 0, None, 0, 0, Mode.Normal, InputMode.Normal, [], None, 0, 0, [])
  }

  /** The session agrees with the store: the store is well formed, the
      current directory is a directory and `files` is its sorted listing. */
  ghost predicate Consistent(v: State, s: Store)
  {
    WellFormed(s) && IsDirIn(s, v.currentDir) && v.files == Listing(s, v.currentDir)
  }

  // ---------------------------------------------------------------------------
  // Listing a directory.

  /** `get_file_list`: the sorted entries of `dir`, or why it cannot be read. */
  ghost function FileList(s: Store, dir: Path): (r: Result<seq<Path>>)
    ensures r.Success? <==> IsDirIn(s, dir)
    ensures r.Failure? ==> r.error == (if dir in s then NotADirectory else NotFound)
  {
    if dir !in s then Failure(NotFound)
    else if s[dir].File? then Failure(NotADirectory)
    else Success(Listing(s, dir))
  }

  /** `update_file_list`: `files` becomes the listing of the current
      directory; on failure nothing changes. */
  ghost function Refreshed(v: State, s: Store): (r: Step)
    ensures r.store == s
    ensures r.state == v.(files := r.state.files)
    ensures r.outcome.Err? ==> r.state == v
  {
    match FileList(s, v.currentDir)
    case Failure(e) => Step(v, s, Err(e))
    case Success(l) => Step(v.(files := l), s, Ok)
  }

  // ---------------------------------------------------------------------------
  // Moving the selection.

  /** `open_file`: previews the selected entry when it is a file, clears the
      preview when it is anything else, and does nothing when the selection
      is past the end of `files`. */
  function Opened(v: State, s: Store): (r: State)
    ensures r.(content := v.content, fileLinesCount := v.fileLinesCount) == v
  {
    if v.selected < |v.files| then
      var p := v.files[v.selected];
      if IsFileIn(s, p) then v.(content := Some(s[p].text), fileLinesCount := LineCount(s[p].text))
      else v.(content := None)
    else v
  }

  /** The index before `i` in a list of `n`, wrapping from 0 to the end. */
  function WrapUp(i: nat, n: nat): nat
    requires i > 0 || n > 0
  {
    if i > 0 then i - 1 else n - 1
  }

  /** The index after `i` in a list of `n`, wrapping from the end to 0. */
  function WrapDown(i: nat, n: nat): nat
    requires n > 0
  {
    if i < n - 1 then i + 1 else 0
  }

  /** `up`: `files.len() - 1` panics on an empty list when the selection is
      at 0, hence the precondition. */
  function Up(v: State, s: Store): State
    requires v.selected > 0 || |v.files| > 0
  {
    var i := if v.selected > 0 then v.selected - 1 else |v.files| - 1;
    Opened(v.(selected := i, fileScroll := 0), s)
  }

  /** `down`: opens the entry twice when it moves forward, once when it
      wraps; `files.len() - 1` panics on an empty list. */
  function Down(v: State, s: Store): State
    requires |v.files| > 0
  {
    var w := if v.selected < |v.files| - 1 then Opened(v.(selected := v.selected + 1, fileScroll := 0), s)
             else v.(selected := 0);
    Opened(w.(fileScroll := 0), s)
  }

  function MenuUp(v: State): State
  {
    v.(menuSelected := if v.menuSelected > 0 then v.menuSelected - 1 else |ShowMenu()| - 1)
  }

  function MenuDown(v: State): State
  {
    v.(menuSelected := if v.menuSelected < |ShowMenu()| - 1 then v.menuSelected + 1 else 0)
  }

  /** `context_up`: wraps to the last index of the action menu, not of the
      editor menu. */
  function ContextUp(v: State): State
  {
    v.(contextSelected := if v.contextSelected > 0 then v.contextSelected - 1 else |ShowMenu()| - 1)
  }

  function ContextDown(v: State): State
  {
    v.(contextSelected := if v.contextSelected < |ShowContext()| - 1 then v.contextSelected + 1 else 0)
  }

  /** `page_up`: scrolls the preview back two lines when it can. */
  function PageUp(v: State): State
  {
    if v.fileScroll >= 2 then v.(fileScroll := v.fileScroll - 2) else v
  }

  /** `page_down`: `file_lines_count - 1` panics when the count is 0. */
  function PageDown(v: State): State
    requires v.fileLinesCount >= 1
  {
    if v.fileScroll <= v.fileLinesCount - 1 then v.(fileScroll := v.fileScroll + 2) else v
  }

  // ---------------------------------------------------------------------------
  // Moving between directories.

  /** `enter_dir`: the current directory is assigned before the listing is
      read, so a failed read leaves the new directory with the old list. */
  ghost function EnterDir(v: State, s: Store): Step
  {
    if v.selected < |v.files| then
      var p := v.files[v.selected];
      match FileList(s, p)
      case Failure(e) => Step(v.(currentDir := p), s, Err(e))
      case Success(l) => Step(v.(currentDir := p, files := l, selected := 0), s, Ok)
    else Step(v, s, Ok)
  }

  /** `enter_handler`: enters a selected directory, previews anything else. */
  ghost function EnterHandler(v: State, s: Store): Step
  {
    if v.selected < |v.files| then
      if IsDirIn(s, v.files[v.selected]) then EnterDir(v, s)
      else Step(Opened(v, s), s, Ok)
    else Step(v, s, Ok)
  }

  /** `to_parent_dir` */
  ghost function ToParentDir(v: State, s: Store): Step
  {
    match Parent(v.currentDir)
    case None => Step(v, s, Ok)
    case Some(up) =>
      match FileList(s, up)
      case Failure(e) => Step(v.(currentDir := up), s, Err(e))
      case Success(l) => Step(v.(currentDir := up, files := l, selected := 0, content := None), s, Ok)
  }

  // ---------------------------------------------------------------------------
  // Search.

  /** The file name of `p` matches `query`; a path without a file name
      matches nothing. */
  predicate NameMatches(p: Path, query: string, matches: (string, string) -> bool)
  {
    match FileName(p)
    case None => false
    case Some(name) => matches(name, query)
  }

  /** The first index at or after `from` whose entry's name matches. */
  function FirstMatch(files: seq<Path>, from: nat, query: string, matches: (string, string) -> bool): (r: Option<nat>)
    requires from <= |files|
    ensures r.Some? ==> from <= r.value < |files| && NameMatches(files[r.value], query, matches)
    ensures r.Some? ==> forall j :: from <= j < r.value ==> !NameMatches(files[j], query, matches)
    ensures r.None? ==> forall j :: from <= j < |files| ==> !NameMatches(files[j], query, matches)
    decreases |files| - from
  {
    if from == |files| then None
    else if NameMatches(files[from], query, matches) then Some(from)
    else FirstMatch(files, from + 1, query, matches)
  }

  /** `find_in_current_dir` */
  function Find(v: State, matches: (string, string) -> bool): State
  {
    var query := Trim(v.searchBuffer);
    if query == [] then v
    else
      var w := match FirstMatch(v.files, 0, query, matches)
               case None => v
               case Some(i) => v.(selected := i);
      w.(searchBuffer := [], inputMode := InputMode.Normal, mode := Mode.Normal)
  }

  // ---------------------------------------------------------------------------
  // Changing the filesystem.

  /** What a trimmed name turns into below `dir`. */
  function Join(dir: Path, name: string): Path
  {
    dir + [name]
  }

  /** `create_file` */
  ghost function CreateFileStep(v: State, s: Store): (r: Step)
    ensures r.state == v.(files := r.state.files, inputBuffer := r.state.inputBuffer)
  {
    var name := Trim(v.inputBuffer);
    if name == [] then Step(v.(inputBuffer := []), s, Ok)
    else
      match Touch(s, Join(v.currentDir, name))
      case Failure(e) => Step(v, s, Err(e))
      case Success(t) =>
        var r := Refreshed(v, t);
        if r.outcome.Err? then r else Step(r.state.(inputBuffer := []), t, Ok)
  }

  /** `create_dir` */
  ghost function CreateDirStep(v: State, s: Store): (r: Step)
    ensures r.state == v.(files := r.state.files, inputBuffer := r.state.inputBuffer)
  {
    var name := Trim(v.inputBuffer);
    if name == [] then Step(v.(inputBuffer := []), s, Ok)
    else
      match MkDir(s, Join(v.currentDir, name))
      case Failure(e) => Step(v, s, Err(e))
      case Success(t) =>
        var r := Refreshed(v, t);
        if r.outcome.Err? then r else Step(r.state.(inputBuffer := []), t, Ok)
  }

  /** `parent().unwrap()` in `rename_selected` panics on a selected root. */
  predicate RenameDefined(v: State)
  {
    v.selected < |v.files| && Trim(v.inputBuffer) != [] ==> v.files[v.selected] != []
  }

  /** `rename_selected`: renames the selected entry to a sibling, then
      clears the buffer and refreshes `files` whether or not anything was
      selected. */
  ghost function RenameStep(v: State, s: Store): (r: Step)
    requires RenameDefined(v)
    ensures r.state == v.(files := r.state.files, inputBuffer := r.state.inputBuffer)
  {
    var name := Trim(v.inputBuffer);
    var first :=
      if v.selected < |v.files| && name != [] then
        var p := v.files[v.selected];
        match Move(s, p, Join(p[..|p| - 1], name))
        case Failure(e) => Step(v, s, Err(e))
        case Success(t) => Refreshed(v, t)
      else Step(v, s, Ok);
    if first.outcome.Err? then first
    else Refreshed(first.state.(inputBuffer := []), first.store)
  }

  /** The call `delete_selected` makes on entry `p`. */
  function Remove(s: Store, p: Path): Result<Store>
  {
    if IsDirIn(s, p) then RemoveTree(s, p) else Unlink(s, p)
  }

  /** `delete_selected`: removes the selected entry and refreshes `files`;
      `selected` is left as it was. */
  ghost function DeleteStep(v: State, s: Store): (r: Step)
    ensures r.state == v.(files := r.state.files)
  {
    if v.selected < |v.files| then
      match Remove(s, v.files[v.selected])
      case Failure(e) => Step(v, s, Err(e))
      case Success(t) => Refreshed(v, t)
    else Refreshed(v, s)
  }

  // ---------------------------------------------------------------------------
  // Menus.

  /** `select_from_menu`: deletes at once, or arms a deferred action and
      switches to typing, or (for "Отмена" and beyond) only stops typing. */
  ghost function SelectFromMenu(v: State, s: Store): Step
  {
    if v.menuSelected == 0 then DeleteStep(v, s)
    else if v.menuSelected == 1 then Step(v.(inputMode := Input, menuAction := Some(CreateFile)), s, Ok)
    else if v.menuSelected == 2 then Step(v.(inputMode := Input, menuAction := Some(CreateDir)), s, Ok)
    else if v.menuSelected == 3 then Step(v.(inputMode := Input, menuAction := Some(Rename)), s, Ok)
    else Step(v.(inputMode := InputMode.Normal), s, Ok)
  }

  predicate ActionDefined(v: State)
  {
    v.menuAction == Some(Rename) ==> RenameDefined(v)
  }

  /** `handle_menu_action`: takes the deferred action, runs it, and stops
      typing unless it failed. */
  ghost function HandleMenuAction(v: State, s: Store): (r: Step)
    requires ActionDefined(v)
    ensures r.state.menuAction.None?
    ensures r.state == v.(files := r.state.files, inputBuffer := r.state.inputBuffer,
                          menuAction := None, inputMode := r.state.inputMode)
    ensures r.state.inputMode == if r.outcome.Ok? then InputMode.Normal else v.inputMode
  {
    var w := v.(menuAction := None);
    var r := match v.menuAction
             case Some(CreateFile) => CreateFileStep(w, s)
             case Some(CreateDir) => CreateDirStep(w, s)
             case Some(Rename) => RenameStep(w, s)
             case _ => Step(w, s, Ok);
    if r.outcome.Err? then r else Step(r.state.(inputMode := InputMode.Normal), r.store, Ok)
  }

  /** The editor `select_from_context` would run on the selected entry. */
  function ContextLaunch(v: State): Option<Launch>
  {
    if v.contextSelected < |Editors()| && v.selected < |v.files| then
      Some(Launch(v.files[v.selected], Editors()[v.contextSelected]))
    else None
  }

  /** The session after `select_from_context`: an index past the editors
      leaves the context menu. */
  function SelectFromContext(v: State): State
  {
    if v.contextSelected < |Editors()| then v else v.(mode := Mode.Normal)
  }
}
