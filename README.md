# A verified model of the cli_file_manager session

`cli_file_manager` is a terminal file browser. It lists a directory, moves a
selection over the entries, previews text files and scrolls the preview. It
also creates, renames and deletes entries through a five-entry action menu,
finds an entry by fuzzy name search, and opens a file in one of five editors.
This project models the part that holds the state and decides what every
key does:

- the `FileManager` session object of `src/app.rs`;
- the key router of `src/input_handler.rs`.

Both are proved correct against specification functions.

The modules follow the program's structure.

| module | file | what it holds |
|---|---|---|
| `Io` | `io.dfy` | `Option`, `io::Result` (`Result`, `Outcome`) and the `io::ErrorKind`s that occur |
| `Paths` | `paths.dfy` | paths as sequences of names; `Path::parent` and `Path::file_name`; the order `PathBuf` sorts by, proved a strict total order; sorting a listing |
| `Text` | `text.dfy` | `str::trim` (the Unicode White_Space set) and `BufRead::lines().count()` |
| `Disk` | `disk.dfy` | the filesystem as a store from paths to `Dir` or `File(text)`; the `std::fs` calls the program makes, as functions that fail with an error kind or yield a new store |
| `Fs` | `fs.dfy` | class `FileSystem`: the operating system's filesystem as an object whose `store` each call reads or replaces |
| `Session` | `session.dfy` | the fields of `FileManager` as a value, and for each operation the session, store and result it produces |
| `SessionFacts` | `session_facts.dfy` | what those transitions guarantee: wraparound, scroll bounds, round trips, first-match search, deferred actions, and consistency between the session and the store |
| `App` | `app.dfy` | class `FileManager`: the same fields, updated in place by methods that mirror `app.rs`; each is proved to end in the state its `Session` transition gives |
| `InputHandler` | `input_handler.dfy` | the four handlers as methods over a `FileManager`, the transitions they follow, and the router's guarantees |

The central invariant is `Session.Consistent(v, s)`:

- the store is well formed: the root is a directory and every entry sits in a directory;
- the current directory is a directory;
- `files` is exactly its sorted listing.

`App.FileManager.Valid()` states the same thing about the object. These
members are proved to keep it:

- the methods `EnterHandler`, `ToParentDir`, `Up`, `Down`, `PageUp`, `PageDown`, `SelectFromMenu`, `HandleMenuAction`, `CreateFile`, `CreateDir`, `RenameSelected` and `DeleteSelected`;
- the handlers `HandleNormalMode` and `HandleMenuMode`.

The exception is `SelectFromContext`. The editor it launches may change the
filesystem, so it does not promise `Valid()`.

The rules of `rename` follow POSIX `rename(2)`:

- a file may replace a file;
- a directory may replace an empty directory;
- renaming an entry onto itself changes nothing;
- a directory cannot move below itself.

Three operations take in their environment as parameters:

- `New` takes the working directory as `cwd`;
- `FindInCurrentDir` takes the fuzzy matcher as `matches`;
- `SelectFromContext` takes the editor launch as `spawn`.

Behaviours of the code the model keeps:

- `File::create` truncates an existing file, so creating the same file twice succeeds both times (`Disk.TouchTwice`).
- A failed `File::create`, `create_dir` or `rename` returns through `?` before the input buffer is cleared. So does a failed refresh right after one of them. The session is then left unchanged, not cleared.
- `rename_selected` clears the input buffer and then refreshes once more. A failure of that last refresh returns an error with the buffer already empty (`Session.RenameStep`).
- `select_from_menu` at the "Отмена" label, or any index past it, only stops typing. The mode stays `Menu` (`SessionFacts.SelectFromMenuDispatch`).
- No operation re-clamps `selected` after the list shrinks. Deleting the last entry leaves the selection one past the end (`SessionFacts.DeleteLastLeavesSelectionPastEnd`).
- `up` and `down` on an empty list underflow `files.len() - 1`. `page_down` underflows `file_lines_count - 1` when the count is 0. These are preconditions, not a selection that stays at 0.
- `context_up` wraps from 0 to the last index of the five-entry action menu, not of the six-entry editor menu (`SessionFacts.ContextWraps`).
- `enter_dir` and `to_parent_dir` assign `current_dir` before the listing is read. A failed read leaves the new directory with the old list.
- Ctrl-C while typing stops typing and still types its `c`. It neither clears the input buffer nor disarms the pending `menu_action` (`InputHandler.CtrlCTypesC`).
- `enter_dir` keeps the preview of the file shown before (`SessionFacts.EnterListsDir`).
- `open_file` changes only the preview and its line count. It does not reset `file_scroll` (`Session.Opened`).
- A selected directory, or a selected path that is no longer there, clears the preview (`SessionFacts.OpenedCases`).
- `select_from_context` does not refresh `files` after the editor returns, so a file the editor creates is not listed until the next refresh.

## Model

| member | source | states |
|---|---|---|
| `Paths.Parent` | src/app.rs:428 | the root has no parent; any other path is its parent followed by its last name |
| `Paths.FileName` | src/app.rs:262-264 | the root has no file name; any other path ends with its file name |
| `Paths.PathLess` | src/app.rs:123 | the order `PathBuf` sorts by: a directory sorts before every path below it, and no path before itself |
| `Paths.PathLessIrreflexive` | src/app.rs:123 | no path sorts before itself |
| `Paths.PathLessTransitive` | src/app.rs:123 | the path order is transitive |
| `Paths.PathLessTotal` | src/app.rs:123 | of two different paths one sorts before the other, so sorting is deterministic |
| `Paths.NameLess` | src/app.rs:123 | the order on the names within a path: a name sorts before every longer name it begins, and never before itself |
| `Paths.NameLessIrreflexive` | src/app.rs:123 | no name sorts before itself |
| `Paths.NameLessTransitive` | src/app.rs:123 | the order on names, compared by code point, is transitive |
| `Paths.NameLessTotal` | src/app.rs:123 | of two different names one sorts before the other |
| `Paths.SiblingOrder` | src/app.rs:123 | two entries of one directory sort exactly as their names do |
| `Paths.SortedIsDistinct` | src/app.rs:123 | a strictly sorted listing holds no path twice |
| `Paths.InsertSorted` | src/app.rs:123 | inserting a new path into a strictly sorted sequence keeps it strictly sorted, one longer, with exactly the old paths and the new one |
| `Paths.SortedUnique` | src/app.rs:118-125 | two strictly sorted sequences with the same members are equal, so the listing of a directory does not depend on the order `read_dir` returns |
| `Paths.SortedOf` | src/app.rs:118-125 | every finite set of paths has a strictly sorted sequence with exactly its members, as many as the set has |
| `Paths.SortPaths` | src/app.rs:123 | sorting the distinct entries of a directory yields a strictly sorted sequence with exactly those entries |
| `Text.IsWhitespace` | src/app.rs:403 | `char::is_whitespace`, the set `trim` strips: on ASCII it is exactly space, tab, line feed, vertical tab, form feed and carriage return, and no whitespace lies past U+3000 |
| `Text.LeadingSpace` | src/app.rs:254 | the count of leading whitespace characters: all of them whitespace, the next one not |
| `Text.TrailingSpace` | src/app.rs:254 | the count of trailing whitespace characters: all of them whitespace, the one before not |
| `Text.Trim` | src/app.rs:403 | the trimmed name is the slice of the input between its first and last non-whitespace characters; everything cut off is whitespace; it is empty exactly when the input is all whitespace |
| `Text.TrimIdempotent` | src/app.rs:254 | trimming a trimmed query changes nothing |
| `Text.LineEnd` | src/app.rs:279 | a line ends just past its first `'\n'`, or at the end of a text without one; a non-empty text has a non-empty first line |
| `Text.FirstLineNewlines` | src/app.rs:279 | the first line holds one newline if it ends with one, otherwise none |
| `Text.LineCount` | src/app.rs:279 | the line count is 0 exactly for an empty text and never exceeds the text's length |
| `Text.LineCountByNewlines` | src/app.rs:276-280 | the line count is the number of newlines, plus one for a last line with no newline after it: an empty text has 0 lines and a trailing newline adds none |
| `Disk.ParentDir` | src/app.rs:176-184 | in a well-formed store the parent of every non-root entry is a directory |
| `Disk.Listing` | src/app.rs:118-125 | the listing of a directory is strictly sorted, holds exactly the entries directly inside it, and is as long as there are such entries |
| `Disk.ListingByName` | src/app.rs:118-125 | within one directory the listing is in ascending order of file names |
| `Disk.MovedAt` | src/app.rs:429 | each entry at or below the renamed path reappears, with the same content, at the same place below the new path |
| `Disk.Touch` | src/app.rs:406 | `File::create` succeeds exactly on a non-root path whose parent is a directory and which is not a directory itself; the store then holds exactly the old entries and the path, as an empty file, and every other entry keeps its content |
| `Disk.MkDir` | src/app.rs:417 | `create_dir` succeeds exactly on a new non-root path whose parent is a directory; the store then holds exactly the old entries, unchanged, and the new directory |
| `Disk.Unlink` | src/app.rs:443 | `remove_file` succeeds exactly on a file, removes exactly that entry, and every other entry keeps its content |
| `Disk.RemoveTree` | src/app.rs:441 | `remove_dir_all` succeeds exactly on a directory other than the root; it removes exactly that directory and everything below it, and every other entry keeps its content |
| `Disk.Move` | src/app.rs:429 | `rename` succeeds only from an existing non-root entry to a non-root path whose parent is a directory, never into a directory below itself; the target then holds the source's content, and the source is gone unless the target lies above it |
| `Disk.MoveRemovesSource` | src/app.rs:429 | in a well-formed store, a successful rename onto a different path always removes the source |
| `Disk.Status` | src/app.rs:406 | a call reports `Ok` exactly when it succeeds |
| `Disk.After` | src/app.rs:406 | a failed call leaves the filesystem unchanged |
| `Disk.TouchWellFormed` | src/app.rs:406 | `File::create` keeps the store well formed |
| `Disk.MkDirWellFormed` | src/app.rs:417 | `create_dir` keeps the store well formed |
| `Disk.UnlinkWellFormed` | src/app.rs:443 | `remove_file` keeps the store well formed |
| `Disk.RemoveTreeWellFormed` | src/app.rs:441 | `remove_dir_all` keeps the store well formed |
| `Disk.MoveWellFormed` | src/app.rs:429 | `rename` keeps the store well formed |
| `Disk.RelocatedWellFormed` | src/app.rs:429 | moving a subtree under a directory, onto a free or empty place that is not below itself, keeps the store well formed |
| `Disk.TouchTwice` | src/app.rs:406 | creating a file that was just created succeeds again and leaves the same store, because `File::create` truncates |
| `Disk.TouchThenUnlink` | src/app.rs:406 | removing a file that was just created where nothing was restores the store |
| `Disk.MkDirTwice` | src/app.rs:417 | creating a directory that was just created fails with `AlreadyExists` |
| `Disk.MkDirThenRemoveTree` | src/app.rs:417 | removing a directory that was just created restores the store |
| `Disk.UnlinkTwice` | src/app.rs:443 | removing a file twice fails the second time with `NotFound` |
| `Disk.RelocatedKeeps` | src/app.rs:429 | a rename leaves every entry outside both paths where it was |
| `Disk.RelocatedEnds` | src/app.rs:429 | after a rename the new path holds what the old one held, and the old path is gone unless it lies below the new one |
| `Fs.FileSystem.IsDir` | src/app.rs:146 | `Path::is_dir` is false for a path that is not there, and an entry it accepts is not a file |
| `Fs.FileSystem.IsFile` | src/app.rs:166 | `Path::is_file` is false for a path that is not there, and an entry it accepts is not a directory |
| `Fs.FileSystem.ReadDir` | src/app.rs:119-122 | reading a directory fails exactly when the path is not a directory, with `NotADirectory` or `NotFound`, and otherwise yields every entry directly inside it exactly once |
| `Fs.FileSystem.ReadToString` | src/app.rs:167 | reading succeeds exactly for a file and yields its text; otherwise it fails with `IsADirectory` or `NotFound` |
| `Fs.FileSystem.CreateFile` | src/app.rs:406 | the result and new store are those of `File::create`; a failure changes nothing |
| `Fs.FileSystem.CreateDir` | src/app.rs:417 | the result and new store are those of `create_dir`; a failure changes nothing |
| `Fs.FileSystem.Rename` | src/app.rs:429 | the result and new store are those of `rename`; a failure changes nothing |
| `Fs.FileSystem.RemoveFile` | src/app.rs:443 | the result and new store are those of `remove_file`; a failure changes nothing |
| `Fs.FileSystem.RemoveDirAll` | src/app.rs:441 | the result and new store are those of `remove_dir_all`; a failure changes nothing |
| `Session.ShowMenu` | src/app.rs:309-317 | the action menu has five labels, the last "Отмена" |
| `Session.ShowContext` | src/app.rs:319-328 | the editor menu has six labels, the last "Отмена" |
| `Session.Editors` | src/app.rs:352 | there is one editor for each editor label but the last |
| `Session.Pop` | src/app.rs:131-133 | popping an empty buffer leaves it empty; otherwise the buffer loses exactly its last character |
| `Session.FileList` | src/app.rs:118-125 | listing succeeds exactly for a directory, and fails with `NotADirectory` for a file and `NotFound` for a missing path |
| `Session.Refreshed` | src/app.rs:391-400 | refreshing changes only `files` and never the store; on failure nothing changes |
| `Session.Opened` | src/app.rs:164-174 | opening the selected entry changes only the preview and its line count |
| `Session.FirstMatch` | src/app.rs:261-265 | the index found is the first at or after the start whose file name matches; none is found only when no name there matches |
| `Session.CreateFileStep` | src/app.rs:402-411 | creating a file changes only `files` and the input buffer of the session |
| `Session.CreateDirStep` | src/app.rs:413-422 | creating a directory changes only `files` and the input buffer of the session |
| `Session.RenameStep` | src/app.rs:424-436 | renaming changes only `files` and the input buffer of the session |
| `Session.DeleteStep` | src/app.rs:438-448 | deleting changes only `files` of the session; the selection is not re-clamped |
| `Session.HandleMenuAction` | src/app.rs:378-389 | the deferred action is taken (none is left armed); only `files`, the input buffer and the typing mode change otherwise; typing stops exactly when the action did not fail |
| `SessionFacts.WrapInverse` | src/app.rs:186-229 | wrapping up or down stays inside the list, and each undoes the other |
| `SessionFacts.OpenedCases` | src/app.rs:164-174 | a selected file gives its text as the preview and its line count; a selected directory or missing path gives no preview; a selection past the end changes nothing |
| `SessionFacts.OpenedIdempotent` | src/app.rs:164-174 | opening the same entry twice is the same as opening it once |
| `SessionFacts.UpMoves` | src/app.rs:186-194 | on a non-empty list `up` moves to the previous entry or wraps from 0 to the last, stays in the list, resets the scroll and previews the new entry |
| `SessionFacts.DownMoves` | src/app.rs:218-229 | `down` moves to the next entry or wraps from the last to 0, stays in the list, resets the scroll, and ends as one preview of the new entry would, although it opens it twice |
| `SessionFacts.UpAfterDown` | src/app.rs:186-229 | `down` then `up` returns to the same entry |
| `SessionFacts.MenuWraps` | src/app.rs:196-237 | the action menu selection stays among the five labels, wraps 0↔4, and up and down undo each other |
| `SessionFacts.ContextWraps` | src/app.rs:204-245 | the editor menu selection stays among the six labels; down wraps from the last to 0; up from 0 lands on index 4, so up does not undo down at the last label and does everywhere else |
| `SessionFacts.PageDownBounded` | src/app.rs:247-251 | `page_down` keeps the scroll at most one past the line count |
| `SessionFacts.PageUpBounded` | src/app.rs:212-216 | `page_up` never increases the scroll, and moves it exactly when it is at least 2 |
| `SessionFacts.PageRoundTrips` | src/app.rs:212-251 | `page_up` undoes `page_down` whenever `page_down` moved, and `page_down` undoes `page_up` whenever `page_up` moved within the bound |
| `SessionFacts.EnterListsDir` | src/app.rs:144-162 | entering a selected directory makes it current, lists it sorted, selects the first entry, keeps the preview, and keeps the session consistent |
| `SessionFacts.EnterOpensFile` | src/app.rs:144-174 | entering a selected file stays in the directory and previews its text and line count |
| `SessionFacts.EnterPastEnd` | src/app.rs:144-153 | with the selection past the list, enter changes nothing |
| `SessionFacts.EnterHandlerConsistent` | src/app.rs:144-153 | `enter_handler` keeps the session consistent with the store |
| `SessionFacts.ParentLists` | src/app.rs:176-184 | at the root nothing happens; elsewhere the parent becomes current, is listed sorted, the first entry is selected and the preview cleared; the session stays consistent |
| `SessionFacts.SelectionConsistent` | src/app.rs:186-251 | `up`, `down`, `page_up` and `page_down` keep the session consistent |
| `SessionFacts.ToParentDirConsistent` | src/app.rs:176-184 | `to_parent_dir` keeps the session consistent with the store |
| `SessionFacts.EnterThenParent` | src/app.rs:144-184 | entering a directory and going back up returns to the same directory and listing, at the first entry with no preview |
| `SessionFacts.FindEmptyQuery` | src/app.rs:254-257 | a query that trims to nothing changes nothing |
| `SessionFacts.FindSelectsFirst` | src/app.rs:253-274 | a real query selects the first entry whose file name matches, keeps the selection when none matches, clears the query and returns to the normal mode and typing mode; the directory and list stay |
| `SessionFacts.ConsistentRenameDefined` | src/app.rs:428 | in a consistent session the selected entry is never the root, so `parent().unwrap()` cannot panic |
| `SessionFacts.JoinBelow` | src/app.rs:405 | a name joined to a directory is a direct child of it, never the directory or above it |
| `SessionFacts.CreateFileListed` | src/app.rs:402-411 | an empty name only clears the buffer; otherwise the result is that of `File::create`, a failure changes nothing, and on success the new file joins the listing, nothing else leaves it, the buffer is cleared and the session stays consistent |
| `SessionFacts.TouchChild` | src/app.rs:406-407 | a file created in a directory joins its listing, and nothing else changes there |
| `SessionFacts.CreateDirListed` | src/app.rs:413-422 | as for a file, with the result of `create_dir`; a name already in the listing fails with `AlreadyExists` |
| `SessionFacts.MkDirChild` | src/app.rs:417-418 | a directory created in a directory joins its listing, and nothing else changes there |
| `SessionFacts.SiblingMove` | src/app.rs:428-429 | after renaming a child to a sibling name, the directory holds the new name, not the old one, and every other child |
| `SessionFacts.SiblingMoveKeepsDir` | src/app.rs:428-429 | renaming a child leaves its directory a directory |
| `SessionFacts.SiblingMoveChildren` | src/app.rs:428-429 | the children of a directory after one is renamed to a sibling: the others, and the new name |
| `SessionFacts.MoveSibling` | src/app.rs:428-430 | renaming a child to a sibling keeps the store well formed and replaces the old path by the new one in the directory's listing |
| `SessionFacts.RenameListed` | src/app.rs:424-436 | with nothing selected or an empty name, rename only clears the buffer; otherwise its result is that of `rename`, a failure changes nothing, and on success the new name is listed, the old one is not, every other entry is where it was, the buffer is cleared and the session stays consistent |
| `SessionFacts.RenameSelectedListed` | src/app.rs:425-435 | the case of the previous row where an entry is selected and the name is not empty |
| `SessionFacts.RemoveChild` | src/app.rs:439-445 | removing a listed entry cannot fail, keeps the store well formed and the directory a directory, and removes exactly that entry from its children |
| `SessionFacts.DeleteListed` | src/app.rs:438-448 | in a consistent session `delete_selected` succeeds, the selected entry leaves the listing, which is one shorter, every other entry stays, and the selection is not moved |
| `SessionFacts.DeleteLastLeavesSelectionPastEnd` | src/app.rs:438-448 | deleting the last entry leaves the selection one past the shortened list |
| `SessionFacts.DeleteOnlyEntry` | src/app.rs:438-448 | deleting the only entry empties the listing with the selection at 0 |
| `SessionFacts.SelectFromMenuDispatch` | src/app.rs:330-348 | index 0 deletes at once; indices 1 to 3 start typing and arm create file, create directory or rename; any other index only stops typing and keeps the mode |
| `SessionFacts.ActionTakenOnce` | src/app.rs:378-389 | after `handle_menu_action` no action is armed, and a second call changes nothing but the typing mode |
| `SessionFacts.HandleMenuActionOutcome` | src/app.rs:378-389 | typing stops when the action did not fail and continues when it failed; delete, cancel or no action only disarm and stop typing |
| `SessionFacts.HandleMenuActionConsistent` | src/app.rs:378-389 | `handle_menu_action` keeps the session consistent with the store |
| `SessionFacts.SelectFromMenuConsistent` | src/app.rs:330-348 | `select_from_menu` keeps the session consistent with the store |
| `SessionFacts.ContextChoice` | src/app.rs:350-362 | an editor label launches that editor on the selected entry and keeps the mode; past the editors nothing is launched and the context menu is left |
| `App.FileManager.New` | src/app.rs:54-76 | construction fails exactly when the working directory cannot be listed, with the listing's error; otherwise the session starts in it, at its first sorted entry, with every other field empty, and is consistent when the store is well formed |
| `App.FileManager.GetFileList` | src/app.rs:118-125 | reading and sorting yields exactly the directory's sorted listing, or the listing's error |
| `App.FileManager.GetFileLinesCount` | src/app.rs:276-280 | the loop counts the lines of the file's text |
| `App.FileManager.AddToInputBuffer` | src/app.rs:127-129 | the character is appended to the input buffer and nothing else changes |
| `App.FileManager.DeleteFromInputBuffer` | src/app.rs:131-133 | the input buffer loses its last character, if any, and nothing else changes |
| `App.FileManager.AddToSearchBuffer` | src/app.rs:135-137 | the character is appended to the search buffer and nothing else changes |
| `App.FileManager.DeleteFromSearchBuffer` | src/app.rs:139-141 | the search buffer loses its last character, if any, and nothing else changes |
| `App.FileManager.EnterHandler` | src/app.rs:144-153 | the fields and result are those of `Session.EnterHandler`, and consistency is kept |
| `App.FileManager.EnterDir` | src/app.rs:155-162 | the fields and result are those of `Session.EnterDir` |
| `App.FileManager.OpenFile` | src/app.rs:164-174 | the fields are those of `Session.Opened`, and opening never fails |
| `App.FileManager.ToParentDir` | src/app.rs:176-184 | the fields and result are those of `Session.ToParentDir` |
| `App.FileManager.Up` | src/app.rs:186-194 | the fields are those of `Session.Up` |
| `App.FileManager.MenuUp` | src/app.rs:196-202 | the fields are those of `Session.MenuUp` |
| `App.FileManager.ContextUp` | src/app.rs:204-210 | the fields are those of `Session.ContextUp` |
| `App.FileManager.PageUp` | src/app.rs:212-216 | the fields are those of `Session.PageUp` |
| `App.FileManager.Down` | src/app.rs:218-229 | the fields are those of `Session.Down` |
| `App.FileManager.MenuDown` | src/app.rs:231-237 | the fields are those of `Session.MenuDown` |
| `App.FileManager.ContextDown` | src/app.rs:239-245 | the fields are those of `Session.ContextDown` |
| `App.FileManager.PageDown` | src/app.rs:247-251 | the fields are those of `Session.PageDown` |
| `App.FileManager.FindInCurrentDir` | src/app.rs:253-274 | the loop finds the first match, and the fields are those of `Session.Find` |
| `App.FileManager.MenuMode` | src/app.rs:283-285 | the mode becomes `Menu` and nothing else changes |
| `App.FileManager.DefaultMode` | src/app.rs:287-289 | the mode becomes `Normal` and nothing else changes |
| `App.FileManager.SearchMode` | src/app.rs:291-293 | the mode becomes `Search` and nothing else changes |
| `App.FileManager.ContextMode` | src/app.rs:295-297 | the mode becomes `Context` and nothing else changes |
| `App.FileManager.EnableInput` | src/app.rs:299-301 | typing starts and nothing else changes |
| `App.FileManager.DefaultInputMode` | src/app.rs:303-305 | typing stops and nothing else changes |
| `App.FileManager.SelectFromMenu` | src/app.rs:330-348 | the fields, store and result are those of `Session.SelectFromMenu`, and consistency is kept |
| `App.FileManager.SelectFromContext` | src/app.rs:350-376 | the fields are those of `Session.SelectFromContext`; the result is the launch's for an editor label with an entry selected, and `Ok` otherwise; the filesystem may change |
| `App.FileManager.HandleMenuAction` | src/app.rs:378-389 | the fields, store and result are those of `Session.HandleMenuAction`, and consistency is kept |
| `App.FileManager.UpdateFileList` | src/app.rs:391-400 | the fields and result are those of `Session.Refreshed` |
| `App.FileManager.CreateFile` | src/app.rs:402-411 | the fields, store and result are those of `Session.CreateFileStep` |
| `App.FileManager.CreateDir` | src/app.rs:413-422 | the fields, store and result are those of `Session.CreateDirStep` |
| `App.FileManager.RenameSelected` | src/app.rs:424-436 | the fields, store and result are those of `Session.RenameStep` |
| `App.FileManager.DeleteSelected` | src/app.rs:438-448 | the fields, store and result are those of `Session.DeleteStep` |
| `InputHandler.HandleNormalMode` | src/input_handler.rs:5-20 | the fields and result are those of `NormalMode`, and consistency is kept |
| `InputHandler.HandleMenuMode` | src/input_handler.rs:22-32 | the fields, store and result are those of `MenuMode`, and consistency is kept |
| `InputHandler.HandleInputMode` | src/input_handler.rs:34-52 | the fields, store and result are those of `InputMode` |
| `InputHandler.HandleNormalInputMode` | src/input_handler.rs:54-65 | the fields, store and result are those of `NormalInputMode` |
| `InputHandler.NormalMode` | src/input_handler.rs:5-20 | normal mode never changes the filesystem, and reports `Interrupted` exactly for `q` |
| `InputHandler.InputMode` | src/input_handler.rs:34-52 | while typing, every key but Enter leaves the filesystem alone and succeeds; Ctrl-C stops typing |
| `InputHandler.NormalInputMode` | src/input_handler.rs:54-65 | in the menu outside typing, every key but Enter and Right leaves the filesystem and the input buffer alone and succeeds; Esc and Backspace return to normal mode |
| `InputHandler.MenuMode` | src/input_handler.rs:22-32 | menu mode always succeeds, and only Enter while typing, or Enter and Right outside typing, can change the filesystem |
| `InputHandler.QuitChangesNothing` | src/input_handler.rs:8 | `q` returns `Interrupted` and changes nothing, whatever the modifiers |
| `InputHandler.IgnoredEvents` | src/input_handler.rs:6-31 | non-key events change nothing in normal or menu mode; Esc in normal mode and unknown keys in normal or menu mode change nothing |
| `InputHandler.NormalIgnoresUnknown` | src/input_handler.rs:7-16 | in normal mode every character other than `q` and `m` changes nothing, whatever the modifiers |
| `InputHandler.MenuNormalIgnoresUnknown` | src/input_handler.rs:56-61 | in the menu outside typing, characters, Left, PageUp and PageDown change nothing |
| `InputHandler.MenuModeSucceeds` | src/input_handler.rs:22-32 | menu mode always returns `Ok`, whatever its sub-handler returned |
| `InputHandler.CtrlCTypesC` | src/input_handler.rs:39-43 | Ctrl-C while typing stops typing and also types `c` |
| `InputHandler.TypeThenErase` | src/input_handler.rs:39-44 | a character typed with any modifiers except the Ctrl-C combination, followed by Backspace, restores the session; Backspace on an empty buffer changes nothing |
| `InputHandler.EscLeavesMenu` | src/input_handler.rs:57 | Esc or Backspace in the menu returns to normal mode and changes nothing else |
| `InputHandler.NormalModeConsistent` | src/input_handler.rs:5-20 | every normal-mode key keeps the session consistent with the store |
| `InputHandler.EnterKeyConsistent` | src/input_handler.rs:14 | Enter and Right keep the session consistent |
| `InputHandler.ParentKeyConsistent` | src/input_handler.rs:15 | Backspace and Left keep the session consistent |
| `InputHandler.SelectionKeyConsistent` | src/input_handler.rs:10-13 | the selection and scroll keys keep the session consistent |
| `InputHandler.OtherKeyKeepsListing` | src/input_handler.rs:8-16 | `q`, `m` and every other key leave the store, the directory and the list alone |
| `InputHandler.MenuModeConsistent` | src/input_handler.rs:22-32 | every menu-mode key keeps the session consistent with the store |
| `InputHandler.InputModeConsistent` | src/input_handler.rs:34-52 | every key while typing keeps the session consistent |
| `InputHandler.NormalInputModeConsistent` | src/input_handler.rs:54-65 | every key in the menu's normal submode keeps the session consistent |
| `InputHandler.MenuChoiceConsistent` | src/input_handler.rs:60 | choosing a menu entry keeps the session consistent |
| `InputHandler.MenuMoveKeepsListing` | src/input_handler.rs:57-59 | every key but a choice in the menu leaves the store, the directory and the list alone |

## Left out

- `src/ui.rs` (rendering through the `tui` widgets) is not part of this model; it changes no session state.
- The event loop of `src/main.rs` (src/main.rs:33-48) drives the same modelled operations: `down`, `up`, `page_down`, `page_up`, `enter_handler` and `to_parent_dir`. Only the terminal setup, the drawing and the loop itself are left out.
- The editor launch (`opn_in_editor`, src/app.rs:452-460) is the parameter `spawn` of `App.FileManager.SelectFromContext`, because it runs an external process.
- `App.FileManager.SelectFromContext`: the editor may write to the filesystem, so the method may change the store and promises nothing about it afterwards. It does not promise `Valid()`: `files` may no longer be the listing of the current directory. What the editor writes is not modelled.
- The store holds only directories and regular files. Symbolic links, FIFOs and device files are not modelled, although `is_dir`, `is_file` and `remove_dir_all` treat them differently (src/app.rs:146,166,440-443).
- The Skim fuzzy matcher is the parameter `matches` of `App.FileManager.FindInCurrentDir`, because it is a foreign library.
- `std::env::current_dir` is the parameter `cwd` of `App.FileManager.New`.
- `enable_menu_mode`, `disable_menu_mode` and `disable_input_mode`, which the router calls, are not defined in `src/app.rs`. They are modelled as `menu_mode`, `default_mode` and `default_input_mode`.
- Permission errors, entry errors that `read_dir` drops through `filter_map`, and every other I/O failure the store cannot produce are not modelled.
- `read_to_string` never fails on a file, because every file's text is a `string` (UTF-8 decoding is not modelled). `to_str` on a file name never fails for the same reason.
- Names containing `/` or NUL, and the names `.` and `..`, make every creating call fail with `InvalidInput`. The real `PathBuf::join` would treat them as paths.
- The panics of `up`, `down` and `page_down` on an empty list or preview are preconditions. The wrap-around of `usize` in a release build is not modelled.
- `Paths.SortPaths`: models the in-place `Vec::sort` as inserting each entry into a new sorted sequence. It does not model the sort's own algorithm or its stability; the listing never holds a path twice, so stability does not matter.
- The getters (src/app.rs:78-116), the `println!` and `eprintln!` diagnostics, and the unused fields `scroll` and `context_action` are left out.
- `Session.ContextUp`, `Session.Up`, `Session.Down` and the other session functions carry no `ensures` of their own. What they guarantee is stated by the lemmas in `SessionFacts` named in the table.
