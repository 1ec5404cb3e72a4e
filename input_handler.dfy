/** The key router: for each mode and typing submode, which `FileManager`
    operation a key event runs. The router keeps no state of its own. */
module InputHandler {
  import opened Io
  import opened Disk
  import S = Session
  import SessionFacts
  import opened App

  /** The keys the router tells apart; every other key is `OtherKey`. */
  datatype KeyCode =
    | Char(c: char)
    | Up | Down | Left | Right
    | PageUp | PageDown
    | Enter | Backspace | Esc
    | OtherKey

  datatype Modifier = Shift | Control | Alt

  datatype KeyEvent = KeyEvent(code: KeyCode, modifiers: set<Modifier>)

  /** A terminal event: a key press or anything else (mouse, resize, ...). */
  datatype Event = Key(key: KeyEvent) | NonKey

  // ---------------------------------------------------------------------------
  // What each handler does, as a transition of the session.

  /** The operations normal mode can reach panic on an empty list
      (`up`, `down`) or an empty preview (`page_down`). */
  predicate NormalModeDefined(v: S.State, ev: Event)
  {
    ev.Key? ==>
      && (ev.key.code == Down ==> |v.files| > 0)
      && (ev.key.code == Up ==> v.selected > 0 || |v.files| > 0)
      && (ev.key.code == PageDown ==> v.fileLinesCount >= 1)
  }

  /** `handle_normal_mode` */
  ghost function NormalMode(v: S.State, s: Store, ev: Event): (r: S.Step)
    requires NormalModeDefined(v, ev)
    ensures r.store == s
    ensures r.outcome == Err(Interrupted) <==> ev.Key? && ev.key.code == Char('q')
  {
    match ev
    case NonKey => S.Step(v, s, Ok)
    case Key(key) =>
      match key.code
      case Char('q') => S.Step(v, s, Err(Interrupted))
      case Char('m') => S.Step(v.(mode := S.Mode.Menu), s, Ok)
      case Down => S.Step(S.Down(v, s), s, Ok)
      case Up => S.Step(S.Up(v, s), s, Ok)
      case PageDown => S.Step(S.PageDown(v), s, Ok)
      case PageUp => S.Step(S.PageUp(v), s, Ok)
      case Enter | Right => S.EnterHandler(v, s)
      case Backspace | Left => S.ToParentDir(v, s)
      case _ => S.Step(v, s, Ok)
  }

  /** Ctrl-C: exactly the Control modifier with the key `c`. */
  predicate IsCtrlC(key: KeyEvent)
  {
    key.modifiers == {Control} && key.code == Char('c')
  }

  /** Enter while typing runs the deferred action. */
  predicate InputModeDefined(v: S.State, ev: Event)
  {
    ev.Key? && ev.key.code == Enter ==> S.ActionDefined(v)
  }

  /** `handle_input_mode`: Ctrl-C stops typing, and then the key is handled
      like any other, so its `c` is still typed. */
  ghost function InputMode(v: S.State, s: Store, ev: Event): (r: S.Step)
    requires InputModeDefined(v, ev)
    ensures !(ev.Key? && ev.key.code == Enter) ==> r.store == s && r.outcome == Ok
    ensures ev.Key? && IsCtrlC(ev.key) ==> r.state.inputMode == S.InputMode.Normal
  {
    match ev
    case NonKey => S.Step(v, s, Ok)
    case Key(key) =>
      var w := if IsCtrlC(key) then v.(inputMode := S.InputMode.Normal) else v;
      match key.code
      case Char(c) => S.Step(w.(inputBuffer := w.inputBuffer + [c]), s, Ok)
      case Backspace => S.Step(w.(inputBuffer := S.Pop(w.inputBuffer)), s, Ok)
      case Enter => S.HandleMenuAction(w, s)
      case _ => S.Step(w, s, Ok)
  }

  /** Running the selected menu entry may delete it, which cannot panic. */
  ghost function NormalInputMode(v: S.State, s: Store, ev: Event): (r: S.Step)
    ensures !(ev.Key? && (ev.key.code == Enter || ev.key.code == Right)) ==>
      r.store == s && r.outcome == Ok && r.state.inputBuffer == v.inputBuffer
    ensures ev.Key? && (ev.key.code == Esc || ev.key.code == Backspace) ==> r.state.mode == S.Mode.Normal
  {
    match ev
    case NonKey => S.Step(v, s, Ok)
    case Key(key) =>
      match key.code
      case Esc | Backspace => S.Step(v.(mode := S.Mode.Normal), s, Ok)
      case Down => S.Step(S.MenuDown(v), s, Ok)
      case Up => S.Step(S.MenuUp(v), s, Ok)
      case Enter | Right => S.SelectFromMenu(v, s)
      case _ => S.Step(v, s, Ok)
  }

  predicate MenuModeDefined(v: S.State, ev: Event)
  {
    v.inputMode == S.InputMode.Input ==> InputModeDefined(v, ev)
  }

  /** `handle_menu_mode`: the submode's handler runs; its error is only
      reported, and whatever it changed before failing stays changed. */
  ghost function MenuMode(v: S.State, s: Store, ev: Event): (r: S.Step)
    requires MenuModeDefined(v, ev)
    ensures r.outcome == Ok
    ensures (v.inputMode == S.InputMode.Input && !(ev.Key? && ev.key.code == Enter)) ||
            (v.inputMode == S.InputMode.Normal && !(ev.Key? && (ev.key.code == Enter || ev.key.code == Right))) ==>
      r.store == s
  {
    var r := match v.inputMode
             case Input => InputMode(v, s, ev)
             case Normal => NormalInputMode(v, s, ev);
    S.Step(r.state, r.store, Ok)
  }

  // ---------------------------------------------------------------------------
  // The handlers.

  method HandleNormalMode(ev: Event, fm: FileManager) returns (r: Outcome)
    requires NormalModeDefined(fm.View(), ev)
    modifies fm
    ensures S.Step(fm.View(), fm.fs.store, r) == NormalMode(old(fm.View()), fm.fs.store, ev)
    ensures old(fm.Valid()) ==> fm.Valid()
  {
    if fm.Valid() {
      NormalModeConsistent(fm.View(), fm.fs.store, ev);
    }
    if ev.Key? {
      match ev.key.code {
        case Char('q') =>
          return Err(Interrupted);
        case Char('m') =>
          fm.MenuMode();
        case Down =>
          fm.Down();
        case Up =>
          fm.Up();
        case PageDown =>
          fm.PageDown();
        case PageUp =>
          fm.PageUp();
        case Enter | Right =>
          r := fm.EnterHandler();
          if r.Err? {
            return;
          }
        case Backspace | Left =>
          r := fm.ToParentDir();
          if r.Err? {
            return;
          }
        case _ =>
      }
    }
    r := Ok;
  }

  method HandleMenuMode(ev: Event, fm: FileManager) returns (r: Outcome)
    requires MenuModeDefined(fm.View(), ev)
    modifies fm, fm.fs
    ensures S.Step(fm.View(), fm.fs.store, r) == MenuMode(old(fm.View()), old(fm.fs.store), ev)
    ensures old(fm.Valid()) ==> fm.Valid()
  {
    if fm.Valid() {
      MenuModeConsistent(fm.View(), fm.fs.store, ev);
    }
    match fm.inputMode {
      case Input =>
        var status := HandleInputMode(ev, fm);
      case Normal =>
        var status := HandleNormalInputMode(ev, fm);
    }
    r := Ok;
  }

  method HandleInputMode(ev: Event, fm: FileManager) returns (r: Outcome)
    requires InputModeDefined(fm.View(), ev)
    modifies fm, fm.fs
    ensures S.Step(fm.View(), fm.fs.store, r) == InputMode(old(fm.View()), old(fm.fs.store), ev)
  {
    if ev.Key? {
      if IsCtrlC(ev.key) {
        fm.DefaultInputMode();
      }
      match ev.key.code {
        case Char(c) =>
          fm.AddToInputBuffer(c);
        case Backspace =>
          fm.DeleteFromInputBuffer();
        case Enter =>
          r := fm.HandleMenuAction();
          if r.Err? {
            return;
          }
        case _ =>
      }
    }
    r := Ok;
  }

  method HandleNormalInputMode(ev: Event, fm: FileManager) returns (r: Outcome)
    modifies fm, fm.fs
    ensures S.Step(fm.View(), fm.fs.store, r) == NormalInputMode(old(fm.View()), old(fm.fs.store), ev)
  {
    if ev.Key? {
      match ev.key.code {
        case Esc | Backspace =>
          fm.DefaultMode();
        case Down =>
          fm.MenuDown();
        case Up =>
          fm.MenuUp();
        case Enter | Right =>
          r := fm.SelectFromMenu();
          if r.Err? {
            return;
          }
        case _ =>
      }
    }
    r := Ok;
  }

  // ---------------------------------------------------------------------------
  // What the router guarantees.

  /** `q` quits with `Interrupted` whatever the modifiers, changing nothing. */
  lemma QuitChangesNothing(v: S.State, s: Store, mods: set<Modifier>)
    ensures NormalMode(v, s, Key(KeyEvent(Char('q'), mods))) == S.Step(v, s, Err(Interrupted))
  {
  }

  /** Events that are not key presses change nothing in any mode, and keys
      no handler knows change nothing either. */
  lemma IgnoredEvents(v: S.State, s: Store, mods: set<Modifier>)
    ensures NormalMode(v, s, NonKey) == S.Step(v, s, Ok)
    ensures MenuMode(v, s, NonKey) == S.Step(v, s, Ok)
    ensures NormalMode(v, s, Key(KeyEvent(Esc, mods))) == S.Step(v, s, Ok)
    ensures NormalMode(v, s, Key(KeyEvent(OtherKey, mods))) == S.Step(v, s, Ok)
    ensures MenuMode(v, s, Key(KeyEvent(OtherKey, mods))) == S.Step(v, s, Ok)
  {
  }

  /** In normal mode every character but `q` and `m` is ignored. */
  lemma NormalIgnoresUnknown(v: S.State, s: Store, c: char, mods: set<Modifier>)
    requires c != 'q' && c != 'm'
    ensures NormalMode(v, s, Key(KeyEvent(Char(c), mods))) == S.Step(v, s, Ok)
  {
  }

  /** In the action menu, outside typing, characters, Left and the page keys
      are ignored. */
  lemma MenuNormalIgnoresUnknown(v: S.State, s: Store, code: KeyCode, mods: set<Modifier>)
    requires v.inputMode == S.InputMode.Normal
    requires code.Char? || code == Left || code == PageUp || code == PageDown
    ensures MenuMode(v, s, Key(KeyEvent(code, mods))) == S.Step(v, s, Ok)
  {
  }

  /** Menu mode never reports an error, in either submode. */
  lemma MenuModeSucceeds(v: S.State, s: Store, ev: Event)
    requires MenuModeDefined(v, ev)
    ensures MenuMode(v, s, ev).outcome == Ok
  {
  }

  /** While typing, Ctrl-C stops typing but still types its `c`. */
  lemma CtrlCTypesC(v: S.State, s: Store)
    ensures var r := InputMode(v, s, Key(KeyEvent(Char('c'), {Control})));
      r == S.Step(v.(inputMode := S.InputMode.Normal, inputBuffer := v.inputBuffer + ['c']), s, Ok)
  {
  }

  /** While typing, a character followed by Backspace restores the buffer;
      Backspace on an empty buffer does nothing. */
  lemma TypeThenErase(v: S.State, s: Store, c: char, mods: set<Modifier>)
    requires !(mods == {Control} && c == 'c')
    ensures var typed := InputMode(v, s, Key(KeyEvent(Char(c), mods)));
      InputMode(typed.state, s, Key(KeyEvent(Backspace, {}))) == S.Step(v, s, Ok)
    ensures v.inputBuffer == [] ==> InputMode(v, s, Key(KeyEvent(Backspace, {}))) == S.Step(v, s, Ok)
  {
    assert (v.inputBuffer + [c])[..|v.inputBuffer|] == v.inputBuffer;
  }

  /** Leaving the action menu with Esc or Backspace returns to normal mode
      and keeps everything else. */
  lemma EscLeavesMenu(v: S.State, s: Store, mods: set<Modifier>)
    requires v.inputMode == S.InputMode.Normal
    ensures MenuMode(v, s, Key(KeyEvent(Esc, mods))) == S.Step(v.(mode := S.Mode.Normal), s, Ok)
    ensures MenuMode(v, s, Key(KeyEvent(Backspace, mods))) == S.Step(v.(mode := S.Mode.Normal), s, Ok)
  {
  }

  /** Normal mode keeps the session consistent with the store. */
  lemma NormalModeConsistent(v: S.State, s: Store, ev: Event)
    requires S.Consistent(v, s) && NormalModeDefined(v, ev)
    ensures S.Consistent(NormalMode(v, s, ev).state, NormalMode(v, s, ev).store)
  {
    if ev.Key? && (ev.key.code == Enter || ev.key.code == Right) {
      EnterKeyConsistent(v, s, ev);
    } else if ev.Key? && (ev.key.code == Backspace || ev.key.code == Left) {
      ParentKeyConsistent(v, s, ev);
    } else if ev.Key? && (ev.key.code == Down || ev.key.code == Up || ev.key.code == PageDown || ev.key.code == PageUp) {
      SelectionKeyConsistent(v, s, ev);
    } else {
      OtherKeyKeepsListing(v, s, ev);
    }
  }

  lemma EnterKeyConsistent(v: S.State, s: Store, ev: Event)
    requires S.Consistent(v, s) && ev.Key? && (ev.key.code == Enter || ev.key.code == Right)
    ensures S.Consistent(NormalMode(v, s, ev).state, NormalMode(v, s, ev).store)
  {
    SessionFacts.EnterHandlerConsistent(v, s);
  }

  lemma ParentKeyConsistent(v: S.State, s: Store, ev: Event)
    requires S.Consistent(v, s) && ev.Key? && (ev.key.code == Backspace || ev.key.code == Left)
    ensures S.Consistent(NormalMode(v, s, ev).state, NormalMode(v, s, ev).store)
  {
    SessionFacts.ToParentDirConsistent(v, s);
  }

  lemma SelectionKeyConsistent(v: S.State, s: Store, ev: Event)
    requires S.Consistent(v, s) && NormalModeDefined(v, ev) && ev.Key?
    requires ev.key.code == Down || ev.key.code == Up || ev.key.code == PageDown || ev.key.code == PageUp
    ensures S.Consistent(NormalMode(v, s, ev).state, NormalMode(v, s, ev).store)
  {
    SessionFacts.SelectionConsistent(v, s);
  }

  /** Quitting, opening the menu and ignored keys leave the directory and its
      listing alone. */
  lemma OtherKeyKeepsListing(v: S.State, s: Store, ev: Event)
    requires NormalModeDefined(v, ev)
    requires ev.Key? ==> && ev.key.code != Enter && ev.key.code != Right
                         && ev.key.code != Backspace && ev.key.code != Left
                         && ev.key.code != Down && ev.key.code != Up
                         && ev.key.code != PageDown && ev.key.code != PageUp
    ensures var r := NormalMode(v, s, ev);
      r.store == s && r.state.currentDir == v.currentDir && r.state.files == v.files
  {
  }

  /** Menu mode keeps the session consistent with the store. */
  lemma MenuModeConsistent(v: S.State, s: Store, ev: Event)
    requires S.Consistent(v, s) && MenuModeDefined(v, ev)
    ensures S.Consistent(MenuMode(v, s, ev).state, MenuMode(v, s, ev).store)
  {
    if v.inputMode == S.InputMode.Input {
      InputModeConsistent(v, s, ev);
    } else {
      NormalInputModeConsistent(v, s, ev);
    }
  }

  lemma InputModeConsistent(v: S.State, s: Store, ev: Event)
    requires S.Consistent(v, s) && InputModeDefined(v, ev)
    ensures S.Consistent(InputMode(v, s, ev).state, InputMode(v, s, ev).store)
  {
    if ev.Key? && ev.key.code == Enter {
      var w := if IsCtrlC(ev.key) then v.(inputMode := S.InputMode.Normal) else v;
      SessionFacts.HandleMenuActionConsistent(w, s);
    }
  }

  lemma NormalInputModeConsistent(v: S.State, s: Store, ev: Event)
    requires S.Consistent(v, s)
    ensures S.Consistent(NormalInputMode(v, s, ev).state, NormalInputMode(v, s, ev).store)
  {
    if ev.Key? && (ev.key.code == Enter || ev.key.code == Right) {
      MenuChoiceConsistent(v, s, ev);
    } else {
      MenuMoveKeepsListing(v, s, ev);
    }
  }

  lemma MenuChoiceConsistent(v: S.State, s: Store, ev: Event)
    requires S.Consistent(v, s) && ev.Key? && (ev.key.code == Enter || ev.key.code == Right)
    ensures S.Consistent(NormalInputMode(v, s, ev).state, NormalInputMode(v, s, ev).store)
  {
    SessionFacts.SelectFromMenuConsistent(v, s);
  }

  /** Every key but a choice leaves the directory and its listing alone. */
  lemma MenuMoveKeepsListing(v: S.State, s: Store, ev: Event)
    requires ev.Key? ==> ev.key.code != Enter && ev.key.code != Right
    ensures var r := NormalInputMode(v, s, ev);
      r.store == s && r.state.currentDir == v.currentDir && r.state.files == v.files
  {
  }
}
