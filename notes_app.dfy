/**
 * The latest iteration of the note app (src/notes_app/notes_app.rs): four
 * screens (List, Edit, Help, New), a New-note flow that types a title into
 * a draft, and a save of every note on each commit.
 *
 * `Model` is the state the key handlers read and write; the pure functions
 * below are the handlers' meaning and carry the app's invariants. Class
 * `App` holds the same state in fields and its methods are proved to do
 * what those functions say.
 */
module NotesApp {
  import opened Wrappers
  import opened BodyCodec
  import opened Notes
  import opened ListSelection

  datatype InputMode = Normal | Insert

  datatype Screen = List | Edit | Help | New

  /** The shortest draft that `Enter` accepts as a title. */
  const MinTitleLength: nat := 3

  /** The longest draft that still takes another typed key. */
  const MaxTypedLength: nat := 80

  /**
   * The app's fields, the list selection kept by `run`, and `saved`: every
   * record sequence handed to the repository so far, oldest first.
   */
  datatype Model = Model(
    exit: bool,
    notes: seq<Note>,
    currentNote: nat,
    input: string,
    inputMode: InputMode,
    screen: Screen,
    selected: Option<nat>,
    saved: seq<seq<JsonNote>>)

  /**
   * What holds in every reachable state: List and Help are always in Normal
   * mode; Edit is shown only over a non-empty store (so the handlers'
   * `unwrap` of the current note cannot fail); the selection and the current
   * note point into the store; the draft never exceeds 81 characters.
   */
  predicate Inv(m: Model) {
    && (m.screen == List || m.screen == Help ==> m.inputMode == Normal)
    && (m.screen == Edit ==> |m.notes| > 0)
    && (m.selected.Some? ==> m.selected.value < |m.notes|)
    && (m.currentNote == 0 || m.currentNote < |m.notes|)
    && |m.input| <= MaxTypedLength + 1
  }

  /** The states in which `q` quits: List, and Edit or New in Normal mode. */
  predicate QuitArmed(m: Model) {
    m.screen == List || ((m.screen == Edit || m.screen == New) && m.inputMode == Normal)
  }

  /** `App::new`: the loaded notes on the List screen, Normal mode, nothing selected or saved. */
  function Init(records: seq<JsonNote>): (m: Model)
    ensures Inv(m)
    ensures m.screen == List && m.inputMode == Normal && !m.exit && m.currentNote == 0
    ensures m.input == [] && m.selected.None? && m.saved == []
    ensures Titles(m.notes) == seq(|records|, i requires 0 <= i < |records| => records[i].title)
  {
    Model(false, LoadNotes(records), 0, [], Normal, List, None, [])
  }

  /**
   * `draw`'s first step: the current note becomes the selected index, or 0
   * when nothing is selected; with a non-empty store it is then a valid index.
   */
  function Sync(m: Model): (r: Model)
    requires Inv(m)
    ensures Inv(r)
    ensures r.(currentNote := m.currentNote) == m
    ensures m.selected.Some? ==> r.currentNote == m.selected.value
    ensures m.selected.None? ==> r.currentNote == 0
    ensures |m.notes| > 0 ==> r.currentNote < |r.notes|
  {
    m.(currentNote := m.selected.GetOr(0))
  }

  /** The title `draw` shows: the current note's, or none (the "No notes" message) when there is no such note. */
  function Shown(m: Model): (title: Option<string>)
    ensures title.Some? <==> m.currentNote < |m.notes|
  {
    if m.currentNote < |m.notes| then Some(m.notes[m.currentNote].title) else None
  }

  /** After the sync, `draw` falls back to "No notes" exactly when the store is empty. */
  lemma ShownAfterSync(m: Model)
    requires Inv(m)
    ensures Shown(Sync(m)).None? <==> |m.notes| == 0
    ensures |m.notes| > 0 ==> Shown(Sync(m)) == Some(m.notes[m.selected.GetOr(0)].title)
  {
  }

  /**
   * A typed key as the draft takes it: the draft keeps what it held and
   * grows by one character exactly when the key is a character, which then
   * comes last.
   */
  function Typed(input: string, key: KeyCode): (r: string)
    ensures input <= r
    ensures |r| == |input| + 1 <==> key.Char?
    ensures |r| <= |input| + 1
    ensures key.Char? ==> r[|input|] == key.c
  {
    if key.Char? then input + [key.c] else input
  }

  /** Backspace on the draft: its last character removed, if it has one. */
  function DropLast(input: string): (r: string)
    ensures input == [] ==> r == []
    ensures input != [] ==> r + [input[|input| - 1]] == input
  {
    if input == [] then [] else input[..|input| - 1]
  }

  /** Backspace undoes a typed character: the draft is back to what it was. */
  lemma BackspaceUndoesTyping(input: string, c: char)
    ensures DropLast(Typed(input, Char(c))) == input
  {
  }

  /** The note a commit adds: the draft as title, an empty body. */
  function DraftNote(m: Model): (n: Note)
    ensures n.title == m.input && Join(n.body.lines) == ""
  {
    Note(m.input, DefaultTextArea())
  }

  /** `handle_list_key_events`. */
  function ListKey(m: Model, key: KeyCode): (r: Model)
    ensures r.notes == m.notes && r.input == m.input && r.saved == m.saved
    ensures r.inputMode == m.inputMode && r.currentNote == m.currentNote
    ensures r.exit <==> m.exit || key == Char('q')
    ensures r.screen == Edit && m.screen != Edit ==> key == Tab && |m.notes| > 0
    ensures key == Char('j') && |m.notes| == 0 ==> r == m
    ensures key == Tab && |m.notes| == 0 ==> r == m
    ensures key == Char('j') && |m.notes| > 0 ==> r == m.(selected := WrapNext(m.selected, |m.notes|))
    ensures key == Char('k') ==> r == m.(selected := SelectPrevious(m.selected))
    ensures key == Char('a') ==> r == m.(screen := New)
    ensures key == Char('q') ==> r == m.(exit := true)
    ensures key == Char('?') ==> r == m.(screen := Help)
    ensures key == Tab && |m.notes| > 0 ==> r == m.(screen := Edit)
    ensures key !in [Char('a'), Char('q'), Char('j'), Char('k'), Char('?'), Tab] ==> r == m
  {
    match key
    case Char('a') => m.(screen := New)
    case Char('q') => m.(exit := true)
    case Char('j') =>
      if |m.notes| == 0 then m else m.(selected := WrapNext(m.selected, |m.notes|))
    case Char('k') => m.(selected := SelectPrevious(m.selected))
    case Char('?') => m.(screen := Help)
    case Tab => if |m.notes| == 0 then m else m.(screen := Edit)
    case _ => m
  }

  /** The current note's body replaced by `body`; nothing else changes. */
  function WithBody(m: Model, body: TextArea): (r: Model)
    requires m.currentNote < |m.notes|
    ensures r.(notes := m.notes) == m
    ensures r.notes == SetBody(m.notes, m.currentNote, body)
  {
    m.(notes := SetBody(m.notes, m.currentNote, body))
  }

  /** `handle_edit_key_events` (Edit screen, Normal mode). */
  function EditKey(m: Model, ed: Editor, key: KeyCode): (r: Model)
    requires m.currentNote < |m.notes|
    ensures |r.notes| == |m.notes| && Titles(r.notes) == Titles(m.notes)
    ensures r.input == m.input && r.saved == m.saved && r.currentNote == m.currentNote
    ensures r.exit <==> m.exit || key == Char('q')
    ensures forall i :: 0 <= i < |m.notes| && i != m.currentNote ==> r.notes[i] == m.notes[i]
    ensures key == Char('q') ==> r == m.(exit := true)
    ensures key == Char('j') ==> r == WithBody(m, ed.moveCursor(m.notes[m.currentNote].body, Down))
    ensures key == Char('k') ==> r == WithBody(m, ed.moveCursor(m.notes[m.currentNote].body, Up))
    ensures key == Char('h') ==> r == WithBody(m, ed.moveCursor(m.notes[m.currentNote].body, Back))
    ensures key == Char('l') ==> r == WithBody(m, ed.moveCursor(m.notes[m.currentNote].body, Forward))
    ensures key == Char('i') ==> r == m.(inputMode := Insert)
    ensures key == Char('?') ==> r == m.(screen := Help)
    ensures key == Tab ==> r == m.(screen := List)
    ensures key !in [Char('q'), Char('j'), Char('k'), Char('h'), Char('l'), Char('i'), Char('?'), Tab] ==> r == m
  {
    var body := m.notes[m.currentNote].body;
    match key
    case Char('q') => m.(exit := true)
    case Char('j') => WithBody(m, ed.moveCursor(body, Down))
    case Char('k') => WithBody(m, ed.moveCursor(body, Up))
    case Char('h') => WithBody(m, ed.moveCursor(body, Back))
    case Char('l') => WithBody(m, ed.moveCursor(body, Forward))
    case Char('i') => m.(inputMode := Insert)
    case Char('?') => m.(screen := Help)
    case Tab => m.(screen := List)
    case _ => m
  }

  /**
   * `handle_insert_key_events` (Edit screen, Insert mode): Esc returns to
   * Normal mode and changes nothing else; every other key, `q` included,
   * goes to the library's `input` on the current note's body. No key changes
   * the count, a title, another note, the screen, the exit flag, the draft,
   * the log, or the current note.
   */
  function InsertKey(m: Model, ed: Editor, key: KeyCode): (r: Model)
    requires m.currentNote < |m.notes|
    ensures |r.notes| == |m.notes| && Titles(r.notes) == Titles(m.notes)
    ensures forall i :: 0 <= i < |m.notes| && i != m.currentNote ==> r.notes[i] == m.notes[i]
    ensures r.exit == m.exit && r.screen == m.screen && r.currentNote == m.currentNote
    ensures r.selected == m.selected && r.input == m.input && r.saved == m.saved
    ensures r.inputMode != m.inputMode ==> key == Esc
    ensures key == Esc ==> r.inputMode == Normal && r.notes == m.notes
    ensures key != Esc ==> r.notes[m.currentNote].body == ed.input(m.notes[m.currentNote].body, key)
  {
    match key
    case Esc => m.(inputMode := Normal)
    case _ => WithBody(m, ed.input(m.notes[m.currentNote].body, key))
  }

  /** `handle_new_normal_key_events`. */
  function NewNormalKey(m: Model, key: KeyCode): (r: Model)
    ensures r.notes == m.notes && r.input == m.input && r.saved == m.saved
    ensures r.exit <==> m.exit || key == Char('q')
    ensures key == Esc ==> r == m.(screen := List)
    ensures key == Char('q') ==> r == m.(exit := true)
    ensures key == Char('i') ==> r == m.(inputMode := Insert)
    ensures key !in [Esc, Char('q'), Char('i')] ==> r == m
  {
    match key
    case Esc => m.(screen := List)
    case Char('q') => m.(exit := true)
    case Char('i') => m.(inputMode := Insert)
    case _ => m
  }

  /**
   * `handle_new_insert_key_events`: Esc returns to Normal, Backspace edits
   * the draft unconditionally, Enter commits a draft of at least three
   * characters (appending the note and saving every note), and any other key
   * reaches the draft only while it holds at most 80 characters.
   */
  function NewInsertKey(m: Model, key: KeyCode): (r: Model)
    ensures r.exit == m.exit && r.screen == m.screen && r.currentNote == m.currentNote
    ensures r.notes == m.notes || r.notes == m.notes + [DraftNote(m)]
    ensures r.notes == m.notes <==> r.saved == m.saved
    ensures r.notes != m.notes ==> r.saved == m.saved + [Records(r.notes)]
    ensures r.notes != m.notes ==> key == Enter && |m.input| >= MinTitleLength
    ensures key == Esc ==> r == m.(inputMode := Normal)
    ensures key == Backspace ==> r == m.(input := DropLast(m.input))
    ensures key !in [Esc, Backspace, Enter] ==>
      r == m.(input := if |m.input| <= MaxTypedLength then Typed(m.input, key) else m.input)
  {
    match key
    case Esc => m.(inputMode := Normal)
    case Backspace => m.(input := DropLast(m.input))
    case Enter =>
      if |m.input| >= MinTitleLength then
        var notes := m.notes + [DraftNote(m)];
        m.(notes := notes, saved := m.saved + [Records(notes)])
      else
        m
    case _ =>
      if |m.input| <= MaxTypedLength then m.(input := Typed(m.input, key)) else m
  }

  /**
   * `handle_key_events`: one key, routed by screen and mode. It keeps the
   * invariant; `q` quits only where it is armed; Insert mode is entered only
   * by `i` and left only by Esc; New is entered in Normal mode; Help reacts
   * to `?` alone, which returns to List; notes are only ever appended, every
   * earlier title stays; a save writes all notes.
   */
  function HandleKey(m: Model, ed: Editor, key: KeyCode): (r: Model)
    requires Inv(m)
    ensures Inv(r)
    ensures r.exit <==> m.exit || (key == Char('q') && QuitArmed(m))
    ensures m.inputMode == Normal && r.inputMode == Insert ==> key == Char('i')
    ensures m.inputMode == Insert && r.inputMode == Normal ==> key == Esc
    ensures m.screen != New && r.screen == New ==> r.inputMode == Normal
    ensures m.screen == Help ==> r == (if key == Char('?') then m.(screen := List) else m)
    ensures |m.notes| <= |r.notes| && Titles(r.notes)[..|m.notes|] == Titles(m.notes)
    ensures r.saved == m.saved || r.saved == m.saved + [Records(r.notes)]
    ensures r.currentNote == m.currentNote
    ensures forall i :: 0 <= i < |m.notes| && i != m.currentNote ==> r.notes[i] == m.notes[i]
    ensures m.screen != Edit ==> r.notes[..|m.notes|] == m.notes
  {
    match m.screen
    case List => ListKey(m, key)
    case Edit =>
      if m.inputMode == Normal then EditKey(m, ed, key) else InsertKey(m, ed, key)
    case Help => if key == Char('?') then m.(screen := List) else m
    case New =>
      if m.inputMode == Normal then NewNormalKey(m, key)
      else
        var r := NewInsertKey(m, key);
        assert Titles(r.notes)[..|m.notes|] == Titles(m.notes) by {
          if r.notes != m.notes {
            assert r.notes[..|m.notes|] == m.notes;
          }
        }
        r
  }

  /** One pass of `run`'s loop: `draw`, then the key. */
  function Frame(m: Model, ed: Editor, key: KeyCode): (r: Model)
    requires Inv(m)
    ensures Inv(r)
  {
    HandleKey(Sync(m), ed, key)
  }

  /**
   * `run`'s loop fed the keys in order: while `exit` is unset it draws, then
   * handles the next key; when the keys run out it has drawn once more and
   * waits. Every state it passes through keeps the invariant; it stops only
   * after a `q`; a state left waiting shows the selected note; the store only
   * grows and keeps every earlier title.
   */
  function Replay(m: Model, ed: Editor, keys: seq<KeyCode>): (r: Model)
    requires Inv(m)
    ensures Inv(r)
    ensures r.exit ==> m.exit || Char('q') in keys
    ensures !r.exit ==> r.currentNote == r.selected.GetOr(0)
    ensures |m.notes| <= |r.notes| && Titles(r.notes)[..|m.notes|] == Titles(m.notes)
    decreases |keys|
  {
    if m.exit then m
    else if keys == [] then Sync(m)
    else
      var next := Frame(m, ed, keys[0]);
      var r := Replay(next, ed, keys[1..]);
      assert Titles(r.notes)[..|m.notes|] == Titles(m.notes) by {
        assert Titles(r.notes)[..|m.notes|] == Titles(r.notes)[..|next.notes|][..|m.notes|];
      }
      assert keys == [keys[0]] + keys[1..];
      r
  }

  /**
   * The notes whose body `run`'s loop hands to the editor: the current note
   * of every frame that handles a key on the Edit screen.
   */
  function Edited(m: Model, ed: Editor, keys: seq<KeyCode>): set<nat>
    requires Inv(m)
    decreases |keys|
  {
    if m.exit || keys == [] then {}
    else
      var drawn := Sync(m);
      var here := if drawn.screen == Edit then {drawn.currentNote} else {};
      here + Edited(HandleKey(drawn, ed, keys[0]), ed, keys[1..])
  }

  /**
   * Over the whole loop a note loaded by `App::new` changes only if it was
   * current while a key was handled on the Edit screen; every other one ends
   * exactly as it was loaded.
   */
  lemma {:induction false} OnlyEditedNotesChange(m: Model, ed: Editor, keys: seq<KeyCode>)
    requires Inv(m)
    ensures var r := Replay(m, ed, keys);
      forall i :: 0 <= i < |m.notes| && i !in Edited(m, ed, keys) ==> r.notes[i] == m.notes[i]
    decreases |keys|
  {
    if !m.exit && keys != [] {
      var next := Frame(m, ed, keys[0]);
      OnlyEditedNotesChange(next, ed, keys[1..]);
      var r := Replay(m, ed, keys);
      forall i | 0 <= i < |m.notes| && i !in Edited(m, ed, keys)
        ensures r.notes[i] == m.notes[i]
      {
        assert next.notes[..|m.notes|][i] == next.notes[i];
      }
    }
  }

  /**
   * Edit/Normal `h`/`j`/`k`/`l` and every Edit/Insert key but Esc hand the
   * current note's body to the library and change nothing else: no title, no
   * other note, no count, no screen, mode or exit flag.
   */
  lemma EditKeysTouchOnlyBody(m: Model, ed: Editor, key: KeyCode)
    requires Inv(m) && m.screen == Edit
    requires m.inputMode == Normal ==> key in [Char('h'), Char('j'), Char('k'), Char('l')]
    requires m.inputMode == Insert ==> key != Esc
    ensures var r := HandleKey(m, ed, key);
      && r.(notes := m.notes) == m
      && |r.notes| == |m.notes|
      && r.notes[m.currentNote].title == m.notes[m.currentNote].title
      && (forall i :: 0 <= i < |m.notes| && i != m.currentNote ==> r.notes[i] == m.notes[i])
  {
  }

  /**
   * `Enter` on a draft of at least three characters appends one note titled
   * by the draft with an empty body and saves every note, while screen,
   * mode, draft and earlier notes stay; so a second `Enter` appends a
   * duplicate.
   */
  lemma {:induction false} EnterTwiceCommitsTwice(m: Model, ed: Editor)
    requires Inv(m) && m.screen == New && m.inputMode == Insert
    requires |m.input| >= MinTitleLength
    ensures var once := HandleKey(m, ed, Enter);
      && once.notes == m.notes + [DraftNote(m)]
      && once.screen == New && once.inputMode == Insert && once.input == m.input
      && once.saved == m.saved + [Records(once.notes)]
      && HandleKey(once, ed, Enter).notes == m.notes + [DraftNote(m), DraftNote(m)]
  {
    var once := HandleKey(m, ed, Enter);
    assert once == NewInsertKey(m, Enter);
    assert once.notes == m.notes + [DraftNote(m)];
    assert HandleKey(once, ed, Enter) == NewInsertKey(once, Enter);
    assert DraftNote(once) == DraftNote(m);
    assert once.notes + [DraftNote(m)] == m.notes + [DraftNote(m), DraftNote(m)];
  }

  /** `Enter` on a draft shorter than three characters changes nothing. */
  lemma ShortDraftRejected(m: Model, ed: Editor)
    requires Inv(m) && m.screen == New && m.inputMode == Insert
    requires |m.input| < MinTitleLength
    ensures HandleKey(m, ed, Enter) == m
  {
  }

  /**
   * The record sequence saved by a commit: every note in vector order, the
   * new one last with the draft as title, an empty body and an empty date.
   */
  lemma CommitSavesEveryNote(m: Model, ed: Editor)
    requires Inv(m) && m.screen == New && m.inputMode == Insert
    requires |m.input| >= MinTitleLength
    ensures var r := HandleKey(m, ed, Enter);
      && |r.saved| == |m.saved| + 1
      && |r.saved[|m.saved|]| == |m.notes| + 1
      && (forall i :: 0 <= i < |m.notes| ==> r.saved[|m.saved|][i] == SaveRecord(m.notes[i]))
      && r.saved[|m.saved|][|m.notes|] == JsonNote(m.input, "", "")
  {
    var r := HandleKey(m, ed, Enter);
    assert r.notes == m.notes + [DraftNote(m)];
    var last := r.saved[|m.saved|];
    assert last == Records(r.notes);
    assert last[|m.notes|] == SaveRecord(DraftNote(m));
  }

  /**
   * In New/Insert a key other than Esc, Backspace and Enter changes the draft
   * only if it held at most 80 characters, so the draft can reach 81 but no
   * more; Backspace is never gated.
   */
  lemma TypingIsGated(m: Model, ed: Editor, key: KeyCode)
    requires Inv(m) && m.screen == New && m.inputMode == Insert
    ensures key == Backspace ==> HandleKey(m, ed, key).input == DropLast(m.input)
    ensures key !in [Esc, Backspace, Enter] ==>
      && (HandleKey(m, ed, key).input != m.input ==> |m.input| <= MaxTypedLength)
      && |HandleKey(m, ed, key).input| <= MaxTypedLength + 1
  {
  }

  /** An 80-character draft still takes one more character. */
  lemma DraftReaches81(m: Model, ed: Editor)
    requires Inv(m) && m.screen == New && m.inputMode == Insert
    requires |m.input| == MaxTypedLength
    ensures |HandleKey(m, ed, Char('x')).input| == MaxTypedLength + 1
  {
  }

  /** `j` pressed as many times as there are notes walks the whole list back to the same selection. */
  lemma {:induction false} ListJWalksCycle(m: Model, ed: Editor, k: nat)
    requires Inv(m) && m.screen == List && !m.exit && |m.notes| > 0
    ensures Replay(m, ed, seq(k, _ => Char('j'))).selected
      == WrapNextTimes(m.selected, |m.notes|, k)
    decreases k
  {
    var keys := seq(k, _ => Char('j'));
    if k > 0 {
      var next := Frame(m, ed, Char('j'));
      assert next.selected == WrapNext(m.selected, |m.notes|);
      assert next.(selected := m.selected, currentNote := m.currentNote) == m;
      assert keys[1..] == seq(k - 1, _ => Char('j'));
      ListJWalksCycle(next, ed, k - 1);
      WrapNextCompose(m.selected, |m.notes|, 1, k - 1);
      assert WrapNextTimes(m.selected, |m.notes|, 1) == next.selected;
    }
  }

  /**
   * From an empty store: Tab stays on List; `a`, `i` and "Hi" then Enter
   * creates no note; one more "!" and Enter creates exactly the note "Hi!"
   * with an empty body, and the file then holds that one record.
   */
  lemma NewNoteScenario(ed: Editor)
    ensures var m := Replay(Init([]), ed, [Tab, Char('a'), Char('i'), Char('H'), Char('i'), Enter]);
      && m.notes == [] && m.screen == New && m.input == "Hi"
      && var r := Replay(m, ed, [Char('!'), Enter]);
      && r.notes == [Note("Hi!", DefaultTextArea())]
      && r.saved == [[JsonNote("Hi!", "", "")]]
  {
    var s0 := Init([]);
    var s1 := Frame(s0, ed, Tab);
    assert s1 == s0;
    var s2 := Frame(s1, ed, Char('a'));
    assert s2 == s0.(screen := New);
    var s3 := Frame(s2, ed, Char('i'));
    assert s3 == s2.(inputMode := Insert);
    var s4 := Frame(s3, ed, Char('H'));
    assert s4 == s3.(input := "H");
    var s5 := Frame(s4, ed, Char('i'));
    assert s5 == s3.(input := "Hi");
    var s6 := Frame(s5, ed, Enter);
    assert s6 == s5;
    assert Replay(s0, ed, [Tab, Char('a'), Char('i'), Char('H'), Char('i'), Enter]) == s6 by {
      var keys := [Tab, Char('a'), Char('i'), Char('H'), Char('i'), Enter];
      assert keys[1..][1..][1..][1..][1..][1..] == [];
      assert Replay(s6, ed, []) == s6;
    }
    var s7 := Frame(s6, ed, Char('!'));
    assert s7 == s3.(input := "Hi!");
    var s8 := Frame(s7, ed, Enter);
    var note := Note("Hi!", DefaultTextArea());
    assert s8.notes == [note];
    assert Records([note]) == [JsonNote("Hi!", "", "")];
    assert s8.saved == [[JsonNote("Hi!", "", "")]];
    assert Replay(s6, ed, [Char('!'), Enter]) == s8 by {
      assert [Char('!'), Enter][1..][1..] == [];
    }
  }

  /** The app object: the fields of `App` plus the list selection and the log of saves. */
  class App {
    var exit: bool
    var notes: seq<Note>
    var currentNote: nat
    var input: string
    var inputMode: InputMode
    var screen: Screen
    var listState: Option<nat>
    ghost var saved: seq<seq<JsonNote>>
    const editor: Editor

    ghost function Snapshot(): Model
      reads this
    {
      Model(exit, notes, currentNote, input, inputMode, screen, listState, saved)
    }

    ghost predicate Valid()
      reads this
    {
      Inv(Snapshot())
    }

    /** `App::new`. */
    constructor (fileJson: seq<JsonNote>, editor: Editor)
      ensures Valid() && Snapshot() == Init(fileJson) && this.editor == editor
    {
      exit := false;
      notes := LoadNotes(fileJson);
      currentNote := 0;
      input := [];
      inputMode := Normal;
      screen := List;
      listState := None;
      saved := [];
      this.editor := editor;
    }

    /** `NotesRepository::save_notes`, seen only as the record sequence it is handed. */
    method SaveNotes(records: seq<JsonNote>)
      modifies this`saved
      ensures saved == old(saved) + [records]
    {
      saved := saved + [records];
    }

    /** `draw`: syncs the current note with the selection and yields the title shown, if any. */
    method Draw() returns (title: Option<string>)
      requires Valid()
      modifies this
      ensures Valid() && Snapshot() == Sync(old(Snapshot()))
      ensures title == Shown(Snapshot())
    {
      currentNote := listState.GetOr(0);
      if currentNote < |notes| {
        title := Some(notes[currentNote].title);
      } else {
        title := None;
      }
    }

    method HandleListKeyEvents(key: KeyCode)
      modifies this
      ensures Snapshot() == ListKey(old(Snapshot()), key)
    {
      match key
      case Char('a') => screen := New;
      case Char('q') => exit := true;
      case Char('j') =>
        if |notes| == 0 {
          return;
        }
        var selected := listState.GetOr(0);
        if selected == |notes| - 1 {
          listState := SelectFirst();
        } else {
          listState := SelectNext(listState);
        }
      case Char('k') => listState := SelectPrevious(listState);
      case Char('?') => screen := Help;
      case Tab =>
        if |notes| == 0 {
          return;
        }
        screen := Edit;
      case _ =>
    }

    method HandleEditKeyEvents(key: KeyCode)
      requires currentNote < |notes|
      modifies this
      ensures Snapshot() == EditKey(old(Snapshot()), editor, key)
    {
      var selectedNote := notes[currentNote];
      match key
      case Char('q') => exit := true;
      case Char('j') => notes := SetBody(notes, currentNote, editor.moveCursor(selectedNote.body, Down));
      case Char('k') => notes := SetBody(notes, currentNote, editor.moveCursor(selectedNote.body, Up));
      case Char('h') => notes := SetBody(notes, currentNote, editor.moveCursor(selectedNote.body, Back));
      case Char('l') => notes := SetBody(notes, currentNote, editor.moveCursor(selectedNote.body, Forward));
      case Char('i') => inputMode := Insert;
      case Char('?') => screen := Help;
      case Tab => screen := List;
      case _ =>
    }

    method HandleInsertKeyEvents(key: KeyCode)
      requires currentNote < |notes|
      modifies this
      ensures Snapshot() == InsertKey(old(Snapshot()), editor, key)
    {
      var selectedNote := notes[currentNote];
      match key
      case Esc => inputMode := Normal;
      case _ => notes := SetBody(notes, currentNote, editor.input(selectedNote.body, key));
    }

    method HandleNewNormalKeyEvents(key: KeyCode)
      modifies this
      ensures Snapshot() == NewNormalKey(old(Snapshot()), key)
    {
      match key
      case Esc => screen := List;
      case Char('q') => exit := true;
      case Char('i') => inputMode := Insert;
      case _ =>
    }

    method HandleNewInsertKeyEvents(key: KeyCode)
      modifies this
      ensures Snapshot() == NewInsertKey(old(Snapshot()), key)
    {
      match key
      case Esc => inputMode := Normal;
      case Backspace => input := DropLast(input);
      case Enter =>
        if |input| >= MinTitleLength {
          notes := notes + [Note(input, DefaultTextArea())];
          SaveNotes(Records(notes));
        }
      case _ =>
        if |input| <= MaxTypedLength {
          input := Typed(input, key);
        }
    }

    /** `handle_key_events`: routes the key by screen and mode. */
    method HandleKeyEvents(key: KeyCode)
      requires Valid()
      modifies this
      ensures Valid() && Snapshot() == HandleKey(old(Snapshot()), editor, key)
    {
      match screen
      case List => HandleListKeyEvents(key);
      case Edit =>
        if inputMode == Normal {
          HandleEditKeyEvents(key);
        } else {
          HandleInsertKeyEvents(key);
        }
      case Help =>
        if key == Char('?') {
          screen := List;
        }
      case New =>
        if inputMode == Normal {
          HandleNewNormalKeyEvents(key);
        } else {
          HandleNewInsertKeyEvents(key);
        }
    }

    /**
     * `run`: a fresh selection, then, while `exit` is unset, draw and handle
     * the next key; when the keys run out the last draw has been made.
     * Returns how many keys were consumed: all of them, or up to the one
     * that set `exit`.
     */
    method Run(keys: seq<KeyCode>) returns (consumed: nat)
      requires Valid()
      modifies this
      ensures Valid() && consumed <= |keys| && (exit || consumed == |keys|)
      ensures Snapshot() == Replay(old(Snapshot()).(selected := None), editor, keys)
    {
      listState := None;
      consumed := 0;
      ghost var start := Snapshot();
      while !exit
        invariant Valid() && consumed <= |keys|
        invariant Replay(Snapshot(), editor, keys[consumed..]) == Replay(start, editor, keys)
        decreases |keys| - consumed
      {
        ghost var before := Snapshot();
        var _ := Draw();
        if consumed == |keys| {
          assert Snapshot() == Replay(before, editor, []);
          break;
        }
        HandleKeyEvents(keys[consumed]);
        assert keys[consumed..][1..] == keys[consumed + 1..];
        consumed := consumed + 1;
      }
    }
  }
}
