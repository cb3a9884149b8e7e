/**
 * The entities the three iterations of the app share: key events, the
 * note body buffer (a tui_textarea `TextArea`, kept abstract), notes, and
 * the `JsonNote` records of the notes file with the mappings between them.
 */
module Notes {
  import opened BodyCodec

  /** A crossterm key code; `Other` stands for every code the app never matches on. */
  datatype KeyCode = Char(c: char) | Tab | Esc | Enter | Backspace | Other(code: nat)

  /** The cursor moves the app asks of the body buffer. */
  datatype CursorMove = Forward | Back | Up | Down

  /**
   * A body buffer: its lines and its cursor. The app reads only `lines`
   * (when saving); the cursor is interpreted by the library alone.
   */
  datatype TextArea = TextArea(lines: seq<string>, row: nat, col: nat)

  /**
   * The buffer operations the app calls but whose code is not part of this
   * model (`TextArea::move_cursor` and `TextArea::input`), passed in as values.
   */
  datatype Editor = Editor(
    moveCursor: (TextArea, CursorMove) -> TextArea,
    input: (TextArea, KeyCode) -> TextArea)

  /** A record of the notes file. */
  datatype JsonNote = JsonNote(title: string, body: string, dateCreated: string)

  /** An in-memory note: a title and its body buffer. */
  datatype Note = Note(title: string, body: TextArea)

  /** `TextArea::new`: a buffer over the given lines (one empty line if there are none), cursor at the start. */
  function NewTextArea(lines: seq<string>): TextArea {
    TextArea(if lines == [] then [""] else lines, 0, 0)
  }

  /** `TextArea::default()`: a buffer holding one empty line. */
  function DefaultTextArea(): (t: TextArea)
    ensures Join(t.lines) == ""
  {
    NewTextArea([""])
  }

  /** A loaded note: title kept, body split into newline-free lines; the date is dropped. */
  function LoadNote(record: JsonNote): (n: Note)
    ensures n.title == record.title
    ensures Join(n.body.lines) == record.body
    ensures forall k :: 0 <= k < |n.body.lines| ==> NewlineFree(n.body.lines[k])
  {
    JoinSplit(record.body);
    Note(record.title, NewTextArea(Split(record.body)))
  }

  /** `App::new`'s map over the file's records, in file order. */
  function LoadNotes(records: seq<JsonNote>): (notes: seq<Note>)
    ensures |notes| == |records|
    ensures forall i :: 0 <= i < |records| ==>
      notes[i].title == records[i].title && Join(notes[i].body.lines) == records[i].body
  {
    seq(|records|, i requires 0 <= i < |records| => LoadNote(records[i]))
  }

  /** The record saved for a note: its title, its lines joined by newlines, and an empty date. */
  function SaveRecord(n: Note): JsonNote {
    JsonNote(n.title, Join(n.body.lines), "")
  }

  /** The records written on a commit: one per note, in vector order. */
  function Records(notes: seq<Note>): (records: seq<JsonNote>)
    ensures |records| == |notes|
    ensures forall i :: 0 <= i < |notes| ==>
      && records[i].title == notes[i].title
      && records[i].body == Join(notes[i].body.lines)
      && records[i].dateCreated == ""
  {
    seq(|notes|, i requires 0 <= i < |notes| => SaveRecord(notes[i]))
  }

  /** The note titles, in order. */
  function Titles(notes: seq<Note>): (titles: seq<string>)
    ensures |titles| == |notes|
  {
    seq(|notes|, i requires 0 <= i < |notes| => notes[i].title)
  }

  /**
   * The notes with the body of `notes[i]` replaced by `body`: the count,
   * every title and every other note stay as they were.
   */
  function SetBody(notes: seq<Note>, i: nat, body: TextArea): (r: seq<Note>)
    requires i < |notes|
    ensures |r| == |notes| && Titles(r) == Titles(notes)
    ensures r[i] == Note(notes[i].title, body)
    ensures forall k :: 0 <= k < |notes| && k != i ==> r[k] == notes[k]
  {
    notes[i := notes[i].(body := body)]
  }

  /**
   * Loading a file keeps its titles and bodies and clears its dates: saving
   * what was loaded writes the same records with `dateCreated` empty.
   */
  lemma {:induction false} SaveAfterLoad(records: seq<JsonNote>)
    ensures |Records(LoadNotes(records))| == |records|
    ensures forall i :: 0 <= i < |records| ==>
      Records(LoadNotes(records))[i] == records[i].(dateCreated := "")
  {
    var notes := LoadNotes(records);
    forall i | 0 <= i < |records|
      ensures Records(notes)[i] == records[i].(dateCreated := "")
    {
      assert notes[i] == LoadNote(records[i]);
      assert Records(notes)[i] == SaveRecord(notes[i]);
    }
  }

  /** Saving is idempotent: a saved file, loaded and saved again, is written identically. */
  lemma {:induction false} SaveLoadSave(notes: seq<Note>)
    ensures Records(LoadNotes(Records(notes))) == Records(notes)
  {
    var records := Records(notes);
    SaveAfterLoad(records);
    assert forall i :: 0 <= i < |records| ==> records[i].(dateCreated := "") == records[i];
  }

  /**
   * Notes whose buffers hold at least one line and no newline inside a line
   * come back from a save and a load with the same titles and the same lines.
   */
  lemma {:induction false} LoadAfterSave(notes: seq<Note>)
    requires forall i :: 0 <= i < |notes| ==> |notes[i].body.lines| >= 1
    requires forall i, k :: 0 <= i < |notes| && 0 <= k < |notes[i].body.lines| ==>
      NewlineFree(notes[i].body.lines[k])
    ensures |LoadNotes(Records(notes))| == |notes|
    ensures forall i :: 0 <= i < |notes| ==>
      LoadNotes(Records(notes))[i].title == notes[i].title &&
      LoadNotes(Records(notes))[i].body.lines == notes[i].body.lines
  {
    var back := LoadNotes(Records(notes));
    forall i | 0 <= i < |notes|
      ensures back[i].body.lines == notes[i].body.lines
    {
      var lines := notes[i].body.lines;
      SplitJoin(lines);
      assert Records(notes)[i] == SaveRecord(notes[i]);
      assert back[i] == LoadNote(Records(notes)[i]);
    }
  }
}
