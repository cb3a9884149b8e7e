/**
 * The oldest iteration, the `App` that src/main.rs runs. Its key handlers
 * are, line for line, those of the inline `notes_app` module, so their
 * meaning is `InlineNotesApp.HandleKey`; what differs is the start of `run`
 * (the first item is selected before the loop), a `draw` that unwraps the
 * selected note (so an empty store panics on the first frame), and how the
 * file contents become records.
 */
module MainApp {
  import opened Wrappers
  import opened Notes
  import opened ListSelection
  import Handlers = InlineNotesApp

  /** `main`'s reading of the file: empty contents give no records; anything else goes to the parser. */
  function FileJson(contents: string, parse: string -> Result<seq<JsonNote>, string>)
    : Result<seq<JsonNote>, string>
  {
    if contents == [] then Success([]) else parse(contents)
  }

  /**
   * The notes `main` hands to `App::new`, loaded from the file contents:
   * empty contents give no notes; any other contents (whitespace-only ones
   * too, as there is no trim) fail exactly when the parser fails, and
   * otherwise give one note per parsed record, in order, with its title and
   * its body split on newlines.
   */
  function LoadedNotes(contents: string, parse: string -> Result<seq<JsonNote>, string>)
    : (r: Result<seq<Note>, string>)
    ensures contents == [] ==> r == Success([])
    ensures contents != [] ==> (r.Failure? <==> parse(contents).Failure?)
    ensures contents != [] && r.Success? ==>
      && |r.value| == |parse(contents).value|
      && forall i :: 0 <= i < |r.value| ==>
        && r.value[i].title == parse(contents).value[i].title
        && r.value[i].body.lines == BodyCodec.Split(parse(contents).value[i].body)
  {
    match FileJson(contents, parse)
    case Failure(e) => Failure(e)
    case Success(records) =>
      var notes := LoadNotes(records);
      assert forall i :: 0 <= i < |notes| ==> notes[i] == LoadNote(records[i]);
      Success(notes)
  }

  /**
   * What holds in every state this iteration reaches: Insert mode only on
   * Edit, the current note 0 or in the store, and the selection in the store
   * unless the store is empty (`select_first` selects item 0 regardless).
   */
  predicate Inv(m: Handlers.Model) {
    && (m.screen != Handlers.Edit ==> m.inputMode == Handlers.Normal)
    && (|m.notes| > 0 && m.selected.Some? ==> m.selected.value < |m.notes|)
    && (m.currentNote == 0 || m.currentNote < |m.notes|)
  }

  /** A state whose frames can go on: a non-empty store and a selection into it. */
  predicate Running(m: Handlers.Model) {
    Handlers.Inv(m) && |m.notes| > 0 && m.selected.Some?
  }

  /** `App::new` followed by `run`'s `select_first`: List, Normal, no exit, current note 0, first item selected. */
  function Startup(records: seq<JsonNote>): (m: Handlers.Model)
    ensures Inv(m)
    ensures m.screen == Handlers.List && m.inputMode == Handlers.Normal && !m.exit
    ensures m.currentNote == 0 && m.selected == Some(0)
    ensures |m.notes| == |records|
    ensures Running(m) <==> |records| > 0
  {
    var m := Handlers.Init(records);
    assert |m.notes| == |Titles(m.notes)| == |records|;
    m.(selected := SelectFirst())
  }

  /**
   * `draw`: the current note becomes the selected index (0 without one), and
   * the note at that index is unwrapped for rendering, which panics when
   * there is none; with the invariant that is exactly an empty store.
   */
  function DrawStep(m: Handlers.Model): (r: Handlers.Outcome)
    requires Inv(m)
    ensures r.Panic? <==> |m.notes| == 0
    ensures r.Continue? ==> Handlers.Inv(r.next) && r.next.(currentNote := m.currentNote) == m
    ensures r.Continue? ==> r.next.currentNote == m.selected.GetOr(0) < |m.notes|
  {
    var selected := m.selected.GetOr(0);
    if selected < |m.notes| then Handlers.Continue(m.(currentNote := selected)) else Handlers.Panic
  }

  /**
   * The buffer `draw` renders: there is one exactly when `draw` does not
   * panic, and it is the body of the note that `draw` makes current, the
   * one the Edit handlers then change.
   */
  function ShownBody(m: Handlers.Model): (body: Option<TextArea>)
    requires Inv(m)
    ensures body.Some? <==> DrawStep(m).Continue?
    ensures body.Some? ==> body.value == DrawStep(m).next.notes[DrawStep(m).next.currentNote].body
  {
    var selected := m.selected.GetOr(0);
    if selected < |m.notes| then Some(m.notes[selected].body) else None
  }

  /** One pass of `run`'s loop: `draw`, then the key; it keeps a running state running. */
  function Frame(m: Handlers.Model, ed: Editor, key: KeyCode): (r: Handlers.Outcome)
    requires Inv(m)
    ensures r.Panic? <==> |m.notes| == 0
    ensures r.Continue? ==> Inv(r.next) && Titles(r.next.notes) == Titles(m.notes)
    ensures Running(m) ==> r.Continue? && Running(r.next)
  {
    match DrawStep(m)
    case Panic => Handlers.Panic
    case Continue(drawn) => Handlers.HandleKey(drawn, ed, key)
  }

  /**
   * `run`'s loop fed the keys in order: while `exit` is unset it draws, then
   * handles the next key, until a step panics; when the keys run out it has
   * drawn once more and waits. Over an empty store the first draw panics,
   * before any key is read; over a non-empty one nothing panics, the state
   * stays running, the note count and titles never change, and a state left
   * waiting shows the selected note. It stops only after a `q`.
   */
  function Replay(m: Handlers.Model, ed: Editor, keys: seq<KeyCode>): (r: Handlers.Outcome)
    requires Inv(m)
    ensures |m.notes| == 0 && !m.exit ==> r.Panic?
    ensures Running(m) ==> r.Continue? && Running(r.next)
    ensures r.Continue? ==> Titles(r.next.notes) == Titles(m.notes)
    ensures r.Continue? && r.next.exit ==> m.exit || Char('q') in keys
    ensures r.Continue? && !r.next.exit ==> r.next.currentNote == r.next.selected.GetOr(0)
    decreases |keys|
  {
    if m.exit then Handlers.Continue(m)
    else if keys == [] then DrawStep(m)
    else
      match Frame(m, ed, keys[0])
      case Panic => Handlers.Panic
      case Continue(next) =>
        assert keys == [keys[0]] + keys[1..];
        assert |Titles(next.notes)| == |next.notes|;
        Replay(next, ed, keys[1..])
  }

  /**
   * The notes whose body `run`'s loop hands to the editor: the current note
   * of every frame that handles a key on the Edit screen.
   */
  function Edited(m: Handlers.Model, ed: Editor, keys: seq<KeyCode>): set<nat>
    requires Inv(m)
    decreases |keys|
  {
    if m.exit || keys == [] then {}
    else
      match DrawStep(m)
      case Panic => {}
      case Continue(drawn) =>
        var here := if drawn.screen == Handlers.Edit then {drawn.currentNote} else {};
        match Handlers.HandleKey(drawn, ed, keys[0])
        case Panic => {}
        case Continue(next) => here + Edited(next, ed, keys[1..])
  }

  /**
   * Over the whole loop only bodies change, and only those of the notes that
   * were current while a key was handled on the Edit screen: every other
   * note ends exactly as `App::new` loaded it.
   */
  lemma {:induction false} OnlyEditedNotesChange(m: Handlers.Model, ed: Editor, keys: seq<KeyCode>)
    requires Inv(m)
    ensures var r := Replay(m, ed, keys);
      r.Continue? ==> forall i :: 0 <= i < |m.notes| && i !in Edited(m, ed, keys) ==> r.next.notes[i] == m.notes[i]
    decreases |keys|
  {
    if !m.exit && keys != [] {
      match DrawStep(m)
      case Panic =>
      case Continue(drawn) =>
        match Handlers.HandleKey(drawn, ed, keys[0])
        case Panic =>
        case Continue(next) =>
          OnlyEditedNotesChange(next, ed, keys[1..]);
          assert |Titles(next.notes)| == |next.notes|;
    }
  }

  /**
   * From the start of `run`: an empty file panics in the first `draw`,
   * whatever keys follow and even when none does; a non-empty one never
   * panics and keeps every title.
   */
  lemma StartupOutcome(records: seq<JsonNote>, ed: Editor, keys: seq<KeyCode>)
    ensures |records| == 0 ==> Replay(Startup(records), ed, keys).Panic?
    ensures |records| > 0 ==>
      && Replay(Startup(records), ed, keys).Continue?
      && Titles(Replay(Startup(records), ed, keys).next.notes)
        == seq(|records|, i requires 0 <= i < |records| => records[i].title)
  {
    var m := Startup(records);
    assert Titles(m.notes) == Titles(Handlers.Init(records).notes);
  }

  /** The app object of src/main.rs: the fields of `App` plus the list selection. */
  class App {
    var exit: bool
    var notes: seq<Note>
    var currentNote: nat
    var inputMode: Handlers.InputMode
    var screen: Handlers.Screen
    var listState: Option<nat>
    const editor: Editor

    ghost function Snapshot(): Handlers.Model
      reads this
    {
      Handlers.Model(exit, notes, currentNote, inputMode, screen, listState)
    }

    ghost predicate Valid()
      reads this
    {
      Inv(Snapshot())
    }

    /** `App::new`. */
    constructor (fileJson: seq<JsonNote>, editor: Editor)
      ensures Valid() && Snapshot() == Handlers.Init(fileJson) && this.editor == editor
    {
      exit := false;
      notes := LoadNotes(fileJson);
      currentNote := 0;
      inputMode := Handlers.Normal;
      screen := Handlers.List;
      listState := None;
      this.editor := editor;
    }

    /** `draw`: syncs the current note with the selection, unwraps the selected note and yields the buffer rendered. */
    method Draw() returns (panicked: bool, body: Option<TextArea>)
      requires Valid()
      modifies this
      ensures panicked == DrawStep(old(Snapshot())).Panic?
      ensures body == ShownBody(old(Snapshot()))
      ensures if panicked then Snapshot() == old(Snapshot())
              else Handlers.Inv(Snapshot()) && Snapshot() == DrawStep(old(Snapshot())).next
    {
      var index := listState.GetOr(0);
      if index >= |notes| {
        // `get_mut(list_state.selected().unwrap_or(0)).unwrap()` on `None`
        return true, None;
      }
      currentNote := index;
      panicked, body := false, Some(notes[index].body);
    }

    method HandleListKeyEvents(key: KeyCode) returns (panicked: bool)
      modifies this
      ensures panicked == Handlers.ListKey(old(Snapshot()), key).Panic?
      ensures if panicked then Snapshot() == old(Snapshot())
              else Snapshot() == Handlers.ListKey(old(Snapshot()), key).next
    {
      panicked := false;
      match key
      case Char('q') => exit := true;
      case Char('j') =>
        var selected := listState.GetOr(0);
        if |notes| == 0 {
          // `self.notes.len() - 1` underflows
          panicked := true;
          return;
        }
        if selected == |notes| - 1 {
          listState := SelectFirst();
        } else {
          listState := SelectNext(listState);
        }
      case Char('k') => listState := SelectPrevious(listState);
      case Char('?') => screen := Handlers.Help;
      case Tab => screen := Handlers.Edit;
      case _ =>
    }

    method HandleEditKeyEvents(key: KeyCode) returns (panicked: bool)
      modifies this
      ensures panicked == Handlers.EditKey(old(Snapshot()), editor, key).Panic?
      ensures if panicked then Snapshot() == old(Snapshot())
              else Snapshot() == Handlers.EditKey(old(Snapshot()), editor, key).next
    {
      if currentNote >= |notes| {
        // `get_mut(current_note).unwrap()` on `None`
        return true;
      }
      panicked := false;
      var selectedNote := notes[currentNote];
      match key
      case Char('q') => exit := true;
      case Char('j') => notes := SetBody(notes, currentNote, editor.moveCursor(selectedNote.body, Down));
      case Char('k') => notes := SetBody(notes, currentNote, editor.moveCursor(selectedNote.body, Up));
      case Char('h') => notes := SetBody(notes, currentNote, editor.moveCursor(selectedNote.body, Back));
      case Char('l') => notes := SetBody(notes, currentNote, editor.moveCursor(selectedNote.body, Forward));
      case Char('i') => inputMode := Handlers.Insert;
      case Char('?') => screen := Handlers.Help;
      case Tab => screen := Handlers.List;
      case _ =>
    }

    method HandleInsertKeyEvents(key: KeyCode) returns (panicked: bool)
      modifies this
      ensures panicked == Handlers.InsertKey(old(Snapshot()), editor, key).Panic?
      ensures if panicked then Snapshot() == old(Snapshot())
              else Snapshot() == Handlers.InsertKey(old(Snapshot()), editor, key).next
    {
      if currentNote >= |notes| {
        // `get_mut(current_note).unwrap()` on `None`
        return true;
      }
      panicked := false;
      var selectedNote := notes[currentNote];
      match key
      case Esc => inputMode := Handlers.Normal;
      case _ => notes := SetBody(notes, currentNote, editor.input(selectedNote.body, key));
    }

    /** `handle_key_events`: routes the key by screen and mode. */
    method HandleKeyEvents(key: KeyCode) returns (panicked: bool)
      requires Handlers.Inv(Snapshot())
      modifies this
      ensures panicked == Handlers.HandleKey(old(Snapshot()), editor, key).Panic?
      ensures if panicked then Snapshot() == old(Snapshot())
              else Valid() && Snapshot() == Handlers.HandleKey(old(Snapshot()), editor, key).next
    {
      panicked := false;
      match screen
      case List => panicked := HandleListKeyEvents(key);
      case Edit =>
        if inputMode == Handlers.Normal {
          panicked := HandleEditKeyEvents(key);
        } else {
          panicked := HandleInsertKeyEvents(key);
        }
      case Help =>
        if key == Char('?') {
          screen := Handlers.Edit;
        }
    }

    /**
     * `run`: select the first item, then, while `exit` is unset, draw and
     * handle the next key, stopping early if a step panics; when the keys run
     * out the last draw has been made.
     */
    method Run(keys: seq<KeyCode>) returns (consumed: nat, panicked: bool)
      requires Valid()
      modifies this
      ensures consumed <= |keys|
      ensures panicked == Replay(old(Snapshot()).(selected := Some(0)), editor, keys).Panic?
      ensures !panicked ==> Valid() && (exit || consumed == |keys|)
      ensures !panicked ==> Snapshot() == Replay(old(Snapshot()).(selected := Some(0)), editor, keys).next
    {
      listState := SelectFirst();
      consumed, panicked := 0, false;
      ghost var start := Snapshot();
      while !exit
        invariant Valid() && consumed <= |keys|
        invariant Replay(Snapshot(), editor, keys[consumed..]) == Replay(start, editor, keys)
        decreases |keys| - consumed
      {
        ghost var before := Snapshot();
        var shown;
        panicked, shown := Draw();
        if panicked {
          assert Replay(before, editor, keys[consumed..]) == Handlers.Panic;
          return;
        }
        if consumed == |keys| {
          assert Replay(before, editor, []) == Handlers.Continue(Snapshot());
          break;
        }
        // a key handled over a store that `draw` could unwrap does not panic
        panicked := HandleKeyEvents(keys[consumed]);
        assert !panicked;
        assert keys[consumed..][1..] == keys[consumed + 1..];
        consumed := consumed + 1;
      }
    }
  }
}
