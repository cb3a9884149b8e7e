/**
 * The middle iteration of the note app (the inline `notes_app` module of
 * src/notes_app.rs): three screens (List, Edit, Help), a fixed set of notes
 * whose bodies can be edited, and no New-note flow.
 *
 * Two of its steps panic: `j` on an empty store (`notes.len() - 1`
 * underflows), and any key on the Edit screen when there is no current
 * note (the handlers `unwrap` it). An `Outcome` makes those panics explicit.
 */
module InlineNotesApp {
  import opened Wrappers
  import opened BodyCodec
  import opened Notes
  import opened ListSelection

  datatype InputMode = Normal | Insert

  datatype Screen = List | Edit | Help

  /** The app's fields together with the list selection kept by `run`. */
  datatype Model = Model(
    exit: bool,
    notes: seq<Note>,
    currentNote: nat,
    inputMode: InputMode,
    screen: Screen,
    selected: Option<nat>)

  /** What a key does: the process goes on in a new state, or it panics. */
  datatype Outcome = Panic | Continue(next: Model)

  /**
   * What holds in every reachable state: Insert mode only on the Edit
   * screen; the selection points into the store; the current note is 0 or
   * points into the store.
   */
  predicate Inv(m: Model) {
    && (m.screen != Edit ==> m.inputMode == Normal)
    && (m.selected.Some? ==> m.selected.value < |m.notes|)
    && (m.currentNote == 0 || m.currentNote < |m.notes|)
  }

  /** The states in which `q` quits: List, and Edit in Normal mode. */
  predicate QuitArmed(m: Model) {
    m.screen == List || (m.screen == Edit && m.inputMode == Normal)
  }

  /** `App::new`: the loaded notes on the List screen, Normal mode, nothing selected. */
  function Init(records: seq<JsonNote>): (m: Model)
    ensures Inv(m)
    ensures m.screen == List && m.inputMode == Normal && !m.exit && m.currentNote == 0
    ensures m.selected.None?
    ensures Titles(m.notes) == seq(|records|, i requires 0 <= i < |records| => records[i].title)
  {
    Model(false, LoadNotes(records), 0, Normal, List, None)
  }

  /**
   * `draw`'s first step: the current note becomes the selected index, or 0
   * when nothing is selected; with a non-empty store it is then a valid index.
   */
  function Sync(m: Model): (r: Model)
    requires Inv(m)
    ensures Inv(r)
    ensures r.(currentNote := m.currentNote) == m
    ensures m.selected.Some? ==> r.currentNote == m.selected.value
    ensures m.selected.None? ==> r.currentNote == 0
    ensures |m.notes| > 0 ==> r.currentNote < |r.notes|
  {
    m.(currentNote := m.selected.GetOr(0))
  }

  /** The title `draw` shows: the current note's, or none (the "No notes" message) when there is no such note. */
  function Shown(m: Model): (title: Option<string>)
    ensures title.Some? <==> m.currentNote < |m.notes|
  {
    if m.currentNote < |m.notes| then Some(m.notes[m.currentNote].title) else None
  }

  /** After the sync, `draw` degrades to "No notes" exactly when the store is empty, and never panics. */
  lemma ShownAfterSync(m: Model)
    requires Inv(m)
    ensures Shown(Sync(m)).None? <==> |m.notes| == 0
    ensures |m.notes| > 0 ==> Shown(Sync(m)) == Some(m.notes[m.selected.GetOr(0)].title)
  {
  }

  /** `handle_list_key_events`: Tab enters Edit whatever the store holds; `j` panics on an empty store. */
  function ListKey(m: Model, key: KeyCode): (r: Outcome)
    ensures r.Panic? <==> key == Char('j') && |m.notes| == 0
    ensures r.Continue? ==> r.next.notes == m.notes && r.next.currentNote == m.currentNote
    ensures r.Continue? ==> r.next.inputMode == m.inputMode
    ensures r.Continue? ==> (r.next.exit <==> m.exit || key == Char('q'))
    ensures r.Continue? && m.selected.Some? ==> r.next.selected.Some?
    ensures key == Tab ==> r == Continue(m.(screen := Edit))
    ensures key == Char('j') && |m.notes| > 0 ==> r == Continue(m.(selected := WrapNext(m.selected, |m.notes|)))
    ensures key == Char('k') ==> r == Continue(m.(selected := SelectPrevious(m.selected)))
    ensures key == Char('q') ==> r == Continue(m.(exit := true))
    ensures key == Char('?') ==> r == Continue(m.(screen := Help))
    ensures key !in [Char('q'), Char('j'), Char('k'), Char('?'), Tab] ==> r == Continue(m)
  {
    match key
    case Char('q') => Continue(m.(exit := true))
    case Char('j') =>
      if |m.notes| == 0 then Panic else Continue(m.(selected := WrapNext(m.selected, |m.notes|)))
    case Char('k') => Continue(m.(selected := SelectPrevious(m.selected)))
    case Char('?') => Continue(m.(screen := Help))
    case Tab => Continue(m.(screen := Edit))
    case _ => Continue(m)
  }

  /** The current note's body replaced by `body`; nothing else changes. */
  function WithBody(m: Model, body: TextArea): (r: Model)
    requires m.currentNote < |m.notes|
    ensures r.(notes := m.notes) == m
    ensures r.notes == SetBody(m.notes, m.currentNote, body)
  {
    m.(notes := SetBody(m.notes, m.currentNote, body))
  }

  /** `handle_edit_key_events` (Edit screen, Normal mode): panics on every key when there is no current note. */
  function EditKey(m: Model, ed: Editor, key: KeyCode): (r: Outcome)
    ensures r.Panic? <==> m.currentNote >= |m.notes|
    ensures r.Continue? ==> Titles(r.next.notes) == Titles(m.notes)
    ensures r.Continue? ==> r.next.currentNote == m.currentNote && r.next.selected == m.selected
    ensures r.Continue? ==> (r.next.exit <==> m.exit || key == Char('q'))
    ensures r.Continue? ==> forall i :: 0 <= i < |m.notes| && i != m.currentNote ==> r.next.notes[i] == m.notes[i]
    ensures m.currentNote < |m.notes| ==>
      && (key == Char('q') ==> r == Continue(m.(exit := true)))
      && (key == Char('j') ==> r == Continue(WithBody(m, ed.moveCursor(m.notes[m.currentNote].body, Down))))
      && (key == Char('k') ==> r == Continue(WithBody(m, ed.moveCursor(m.notes[m.currentNote].body, Up))))
      && (key == Char('h') ==> r == Continue(WithBody(m, ed.moveCursor(m.notes[m.currentNote].body, Back))))
      && (key == Char('l') ==> r == Continue(WithBody(m, ed.moveCursor(m.notes[m.currentNote].body, Forward))))
      && (key == Char('i') ==> r == Continue(m.(inputMode := Insert)))
      && (key == Char('?') ==> r == Continue(m.(screen := Help)))
      && (key == Tab ==> r == Continue(m.(screen := List)))
      && (key !in [Char('q'), Char('j'), Char('k'), Char('h'), Char('l'), Char('i'), Char('?'), Tab] ==> r == Continue(m))
  {
    if m.currentNote >= |m.notes| then Panic
    else
      var body := m.notes[m.currentNote].body;
      match key
      case Char('q') => Continue(m.(exit := true))
      case Char('j') => Continue(WithBody(m, ed.moveCursor(body, Down)))
      case Char('k') => Continue(WithBody(m, ed.moveCursor(body, Up)))
      case Char('h') => Continue(WithBody(m, ed.moveCursor(body, Back)))
      case Char('l') => Continue(WithBody(m, ed.moveCursor(body, Forward)))
      case Char('i') => Continue(m.(inputMode := Insert))
      case Char('?') => Continue(m.(screen := Help))
      case Tab => Continue(m.(screen := List))
      case _ => Continue(m)
  }

  /**
   * `handle_insert_key_events` (Edit screen, Insert mode): panics on every
   * key when there is no current note. Otherwise Esc returns to Normal mode
   * and changes nothing else, and every other key, `q` included, goes to the
   * library's `input` on the current note's body; no key changes the count,
   * a title, another note, the screen, the exit flag, the current note or
   * the selection.
   */
  function InsertKey(m: Model, ed: Editor, key: KeyCode): (r: Outcome)
    ensures r.Panic? <==> m.currentNote >= |m.notes|
    ensures r.Continue? ==> |r.next.notes| == |m.notes| && Titles(r.next.notes) == Titles(m.notes)
    ensures r.Continue? ==> forall i :: 0 <= i < |m.notes| && i != m.currentNote ==> r.next.notes[i] == m.notes[i]
    ensures r.Continue? ==> r.next.exit == m.exit && r.next.screen == m.screen
    ensures r.Continue? ==> r.next.currentNote == m.currentNote && r.next.selected == m.selected
    ensures r.Continue? && r.next.inputMode != m.inputMode ==> key == Esc
    ensures r.Continue? && key == Esc ==> r.next.inputMode == Normal && r.next.notes == m.notes
    ensures r.Continue? && key != Esc ==>
      r.next.notes[m.currentNote].body == ed.input(m.notes[m.currentNote].body, key)
  {
    if m.currentNote >= |m.notes| then Panic
    else
      match key
      case Esc => Continue(m.(inputMode := Normal))
      case _ => Continue(WithBody(m, ed.input(m.notes[m.currentNote].body, key)))
  }

  /**
   * `handle_key_events`: one key, routed by screen and mode. It panics
   * exactly on `j` in List over an empty store and on every Edit key over an
   * empty store. Otherwise it keeps the invariant, the note count and every
   * title; `q` quits only where it is armed; Insert mode is entered only by
   * `i` and left only by Esc; Help reacts to `?` alone, which goes to Edit.
   */
  function HandleKey(m: Model, ed: Editor, key: KeyCode): (r: Outcome)
    requires Inv(m)
    ensures r.Panic? <==>
      (m.screen == List && key == Char('j') && |m.notes| == 0) || (m.screen == Edit && |m.notes| == 0)
    ensures r.Continue? ==> Inv(r.next) && Titles(r.next.notes) == Titles(m.notes)
    ensures r.Continue? ==> (r.next.exit <==> m.exit || (key == Char('q') && QuitArmed(m)))
    ensures r.Continue? && m.inputMode == Normal && r.next.inputMode == Insert ==> key == Char('i')
    ensures r.Continue? && m.inputMode == Insert && r.next.inputMode == Normal ==> key == Esc
    ensures r.Continue? ==> r.next.currentNote == m.currentNote
    ensures r.Continue? && m.selected.Some? ==> r.next.selected.Some?
    ensures r.Continue? && m.screen != Edit ==> r.next.notes == m.notes
    ensures r.Continue? ==> forall i :: 0 <= i < |m.notes| && i != m.currentNote ==> r.next.notes[i] == m.notes[i]
    ensures m.screen == Help ==> r == Continue(if key == Char('?') then m.(screen := Edit) else m)
  {
    match m.screen
    case List => ListKey(m, key)
    case Edit =>
      if m.inputMode == Normal then EditKey(m, ed, key) else InsertKey(m, ed, key)
    case Help => if key == Char('?') then Continue(m.(screen := Edit)) else Continue(m)
  }

  /** One pass of `run`'s loop: `draw`, then the key. */
  function Frame(m: Model, ed: Editor, key: KeyCode): (r: Outcome)
    requires Inv(m)
    ensures r.Continue? ==> Inv(r.next) && Titles(r.next.notes) == Titles(m.notes)
    ensures |m.notes| > 0 ==> r.Continue?
  {
    HandleKey(Sync(m), ed, key)
  }

  /**
   * `run`'s loop fed the keys in order: while `exit` is unset it draws, then
   * handles the next key, until a step panics; when the keys run out it has
   * drawn once more and waits. Over a non-empty store it never panics; the
   * note count and titles never change; it stops only after a `q`; a state
   * left waiting shows the selected note.
   */
  function Replay(m: Model, ed: Editor, keys: seq<KeyCode>): (r: Outcome)
    requires Inv(m)
    ensures |m.notes| > 0 ==> r.Continue?
    ensures r.Continue? ==> Inv(r.next) && Titles(r.next.notes) == Titles(m.notes)
    ensures r.Continue? && r.next.exit ==> m.exit || Char('q') in keys
    ensures r.Continue? && !r.next.exit ==> r.next.currentNote == r.next.selected.GetOr(0)
    decreases |keys|
  {
    if m.exit then Continue(m)
    else if keys == [] then Continue(Sync(m))
    else
      match Frame(m, ed, keys[0])
      case Panic => Panic
      case Continue(next) =>
        assert keys == [keys[0]] + keys[1..];
        assert |Titles(next.notes)| == |next.notes|;
        Replay(next, ed, keys[1..])
  }

  /**
   * The notes whose body `run`'s loop hands to the editor: the current note
   * of every frame that handles a key on the Edit screen.
   */
  function Edited(m: Model, ed: Editor, keys: seq<KeyCode>): set<nat>
    requires Inv(m)
    decreases |keys|
  {
    if m.exit || keys == [] then {}
    else
      var drawn := Sync(m);
      var here := if drawn.screen == Edit then {drawn.currentNote} else {};
      match HandleKey(drawn, ed, keys[0])
      case Panic => {}
      case Continue(next) => here + Edited(next, ed, keys[1..])
  }

  /**
   * Over the whole loop only bodies change, and only those of the notes that
   * were current while a key was handled on the Edit screen: every other
   * note ends exactly as `App::new` loaded it.
   */
  lemma {:induction false} OnlyEditedNotesChange(m: Model, ed: Editor, keys: seq<KeyCode>)
    requires Inv(m)
    ensures var r := Replay(m, ed, keys);
      r.Continue? ==> forall i :: 0 <= i < |m.notes| && i !in Edited(m, ed, keys) ==> r.next.notes[i] == m.notes[i]
    decreases |keys|
  {
    if !m.exit && keys != [] {
      var drawn := Sync(m);
      match HandleKey(drawn, ed, keys[0])
      case Panic =>
      case Continue(next) =>
        OnlyEditedNotesChange(next, ed, keys[1..]);
        assert |Titles(next.notes)| == |next.notes|;
    }
  }

  /**
   * Edit/Normal `h`/`j`/`k`/`l` and every Edit/Insert key but Esc hand the
   * current note's body to the library and change nothing else.
   */
  lemma EditKeysTouchOnlyBody(m: Model, ed: Editor, key: KeyCode)
    requires Inv(m) && m.screen == Edit && |m.notes| > 0
    requires m.inputMode == Normal ==> key in [Char('h'), Char('j'), Char('k'), Char('l')]
    requires m.inputMode == Insert ==> key != Esc
    ensures var r := HandleKey(m, ed, key);
      && r.Continue?
      && r.next.(notes := m.notes) == m
      && |r.next.notes| == |m.notes|
      && r.next.notes[m.currentNote].title == m.notes[m.currentNote].title
      && (forall i :: 0 <= i < |m.notes| && i != m.currentNote ==> r.next.notes[i] == m.notes[i])
  {
  }

  /**
   * Over an empty store, entering Edit is allowed (by Tab, or by `?` twice
   * through Help) and the next key then panics; `j` on List panics at once.
   */
  lemma EmptyStorePanics(ed: Editor, key: KeyCode)
    ensures Replay(Init([]), ed, [Tab, key]) == Panic
    ensures Replay(Init([]), ed, [Char('?'), Char('?'), key]) == Panic
    ensures Replay(Init([]), ed, [Char('j')]) == Panic
  {
    var s0 := Init([]);
    var inEdit := s0.(screen := Edit);
    assert Frame(s0, ed, Tab) == Continue(inEdit);
    assert Frame(inEdit, ed, key) == Panic;
    assert [Tab, key][1..] == [key];
    var inHelp := s0.(screen := Help);
    assert Frame(s0, ed, Char('?')) == Continue(inHelp);
    assert Frame(inHelp, ed, Char('?')) == Continue(inEdit);
    assert [Char('?'), Char('?'), key][1..] == [Char('?'), key];
    assert [Char('?'), key][1..] == [key];
  }

  /** The app object: the fields of `App` plus the list selection. */
  class App {
    var exit: bool
    var notes: seq<Note>
    var currentNote: nat
    var inputMode: InputMode
    var screen: Screen
    var listState: Option<nat>
    const editor: Editor

    ghost function Snapshot(): Model
      reads this
    {
      Model(exit, notes, currentNote, inputMode, screen, listState)
    }

    ghost predicate Valid()
      reads this
    {
      Inv(Snapshot())
    }

    /** `App::new`. */
    constructor (fileJson: seq<JsonNote>, editor: Editor)
      ensures Valid() && Snapshot() == Init(fileJson) && this.editor == editor
    {
      exit := false;
      notes := LoadNotes(fileJson);
      currentNote := 0;
      inputMode := Normal;
      screen := List;
      listState := None;
      this.editor := editor;
    }

    /** `draw`: syncs the current note with the selection and yields the title shown, if any. */
    method Draw() returns (title: Option<string>)
      requires Valid()
      modifies this
      ensures Valid() && Snapshot() == Sync(old(Snapshot()))
      ensures title == Shown(Snapshot())
    {
      currentNote := listState.GetOr(0);
      if currentNote < |notes| {
        title := Some(notes[currentNote].title);
      } else {
        title := None;
      }
    }

    method HandleListKeyEvents(key: KeyCode) returns (panicked: bool)
      modifies this
      ensures panicked == ListKey(old(Snapshot()), key).Panic?
      ensures if panicked then Snapshot() == old(Snapshot())
              else Snapshot() == ListKey(old(Snapshot()), key).next
    {
      panicked := false;
      match key
      case Char('q') => exit := true;
      case Char('j') =>
        var selected := listState.GetOr(0);
        if |notes| == 0 {
          // `self.notes.len() - 1` underflows
          panicked := true;
          return;
        }
        if selected == |notes| - 1 {
          listState := SelectFirst();
        } else {
          listState := SelectNext(listState);
        }
      case Char('k') => listState := SelectPrevious(listState);
      case Char('?') => screen := Help;
      case Tab => screen := Edit;
      case _ =>
    }

    method HandleEditKeyEvents(key: KeyCode) returns (panicked: bool)
      modifies this
      ensures panicked == EditKey(old(Snapshot()), editor, key).Panic?
      ensures if panicked then Snapshot() == old(Snapshot())
              else Snapshot() == EditKey(old(Snapshot()), editor, key).next
    {
      if currentNote >= |notes| {
        // `get_mut(current_note).unwrap()` on `None`
        return true;
      }
      panicked := false;
      var selectedNote := notes[currentNote];
      match key
      case Char('q') => exit := true;
      case Char('j') => notes := SetBody(notes, currentNote, editor.moveCursor(selectedNote.body, Down));
      case Char('k') => notes := SetBody(notes, currentNote, editor.moveCursor(selectedNote.body, Up));
      case Char('h') => notes := SetBody(notes, currentNote, editor.moveCursor(selectedNote.body, Back));
      case Char('l') => notes := SetBody(notes, currentNote, editor.moveCursor(selectedNote.body, Forward));
      case Char('i') => inputMode := Insert;
      case Char('?') => screen := Help;
      case Tab => screen := List;
      case _ =>
    }

    method HandleInsertKeyEvents(key: KeyCode) returns (panicked: bool)
      modifies this
      ensures panicked == InsertKey(old(Snapshot()), editor, key).Panic?
      ensures if panicked then Snapshot() == old(Snapshot())
              else Snapshot() == InsertKey(old(Snapshot()), editor, key).next
    {
      if currentNote >= |notes| {
        // `get_mut(current_note).unwrap()` on `None`
        return true;
      }
      panicked := false;
      var selectedNote := notes[currentNote];
      match key
      case Esc => inputMode := Normal;
      case _ => notes := SetBody(notes, currentNote, editor.input(selectedNote.body, key));
    }

    /** `handle_key_events`: routes the key by screen and mode. */
    method HandleKeyEvents(key: KeyCode) returns (panicked: bool)
      requires Valid()
      modifies this
      ensures panicked == HandleKey(old(Snapshot()), editor, key).Panic?
      ensures if panicked then Snapshot() == old(Snapshot())
              else Valid() && Snapshot() == HandleKey(old(Snapshot()), editor, key).next
    {
      panicked := false;
      match screen
      case List => panicked := HandleListKeyEvents(key);
      case Edit =>
        if inputMode == Normal {
          panicked := HandleEditKeyEvents(key);
        } else {
          panicked := HandleInsertKeyEvents(key);
        }
      case Help =>
        if key == Char('?') {
          screen := Edit;
        }
    }

    /**
     * `run`: a fresh selection, then, while `exit` is unset, draw and handle
     * the next key, stopping early if a step panics; when the keys run out
     * the last draw has been made.
     */
    method Run(keys: seq<KeyCode>) returns (consumed: nat, panicked: bool)
      requires Valid()
      modifies this
      ensures consumed <= |keys|
      ensures panicked == Replay(old(Snapshot()).(selected := None), editor, keys).Panic?
      ensures !panicked ==> Valid() && (exit || consumed == |keys|)
      ensures !panicked ==> Snapshot() == Replay(old(Snapshot()).(selected := None), editor, keys).next
    {
      listState := None;
      consumed, panicked := 0, false;
      ghost var start := Snapshot();
      while !exit
        invariant Valid() && consumed <= |keys|
        invariant Replay(Snapshot(), editor, keys[consumed..]) == Replay(start, editor, keys)
        decreases |keys| - consumed
      {
        ghost var before := Snapshot();
        var _ := Draw();
        if consumed == |keys| {
          assert Replay(before, editor, []) == Continue(Snapshot());
          break;
        }
        panicked := HandleKeyEvents(keys[consumed]);
        if panicked {
          assert Frame(before, editor, keys[consumed]) == Panic;
          return;
        }
        assert keys[consumed..][1..] == keys[consumed + 1..];
        consumed := consumed + 1;
      }
    }
  }
}
