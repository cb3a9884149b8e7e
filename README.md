# term_notes: a verified model of the note app's key-driven controller

term_notes is a terminal note-taking app. It shows a list of titled notes, each
with an editable multi-line body, and keeps them in a JSON file. This project
models its controller: the state machine that takes one key event at a time,
routes it by screen and input mode, and changes the selection, the mode, the
exit flag, the draft title or a note body. It also models the body codec
between the file and the editor buffer. Three iterations of the controller
are modelled:

- `NotesApp` (`notes_app.dfy`) models `src/notes_app/notes_app.rs`, the latest
  iteration. It has four screens (List, Edit, Help, New), a New-note flow
  with a draft title, and it saves every note on each commit.
- `InlineNotesApp` (`inline_notes_app.dfy`) models the inline `notes_app`
  module of `src/notes_app.rs`. It has three screens and no way of adding a
  note.
- `MainApp` (`main_app.dfy`) models the `App` that `src/main.rs` runs. Its key
  handlers are the same, line for line, as those of `src/notes_app.rs`, so it
  reuses `InlineNotesApp.HandleKey`. Three things are its own: `run` selects
  the first item before the loop, `draw` unwraps the selected note, and
  `main` turns the file contents into records.
- The shared modules are:
  - `BodyCodec`: splitting a body on `"\n"` and joining lines with `"\n"`.
  - `Notes`: keys, notes, `JsonNote` records, and loading and saving.
  - `ListSelection`: ratatui's list selection and the app's wrapping `j`.
  - `Wrappers`: `Option` and `Result`.

Each iteration follows the same pattern:

- A `Model` datatype holds the state the handlers touch.
- Pure functions (`ListKey`, `EditKey`, …, `HandleKey`, `Frame`, `Replay`)
  give each handler and the `run` loop their meaning.
- An invariant `Inv` says what every reachable state satisfies. The lemmas
  are stated over these functions.
- A class `App` holds the same state in fields. It has one method per Rust
  handler, and each method is proved to change the fields as the matching
  function says.

`run`'s `list_state` is a local variable in the Rust code. Here it is a field,
`listState`, which `Run` resets as `run` does.

In `src/notes_app.rs` and `src/main.rs` some steps panic:

- a `j` on an empty store underflows `notes.len() - 1`;
- the Edit handlers `unwrap` a note that is not there;
- `main.rs`'s `draw` unwraps the selected note.

These panics are an explicit `Panic` outcome, so they are not hidden behind
preconditions. The model proves exactly when each one happens, and that it
never happens over a non-empty store.

Where the code and the intended design differ, the model follows the code:

- In the latest iteration, `?` on Help always goes back to List. In the two
  older ones it always goes to Edit, even when Help was opened from List.
- A commit (`Enter` with a draft of at least 3 characters) leaves the app on
  New in Insert mode and keeps the draft. A second `Enter` therefore adds a
  duplicate note.
- Pressing `a` does not clear the draft, and neither does Esc from New, so a
  draft left with Esc is still there on the next `a`.
- The typing guard is `len() <= 80` and is checked before the key is added,
  so the draft can reach 81 characters.
- Saved records carry an empty `date_created`.
- In `src/notes_app.rs`, `Tab` enters Edit even when the store is empty.

## Model

| member | source | states |
|---|---|---|
| BodyCodec.Split | src/notes_app/notes_app.rs:51 | Splitting on `"\n"` always gives at least one piece, and `""` gives exactly `[""]`. There is one more piece than there are newlines, and no piece contains a newline. |
| BodyCodec.Join | src/notes_app/notes_app.rs:274 | Joining with `"\n"` starts with the first line, and a newline follows it when more lines come. `JoinSplit` and `SplitJoin` fix its meaning as the inverse of `Split`. |
| BodyCodec.JoinSplit | src/notes_app/notes_app.rs:51 | Joining with `"\n"` the split of any body gives back exactly that body. |
| BodyCodec.SplitJoin | src/notes_app/notes_app.rs:274 | Splitting the join of a non-empty list of newline-free lines gives back exactly those lines. |
| Notes.LoadNote | src/notes_app/notes_app.rs:49-62 | A loaded note keeps its title. Its buffer lines are newline-free and join back to the stored body. The date is dropped. |
| Notes.LoadNotes | src/notes_app/notes_app.rs:47-63 | `App::new` loads one note per record, in file order, with the same title and a body that joins back to the record's body. |
| Notes.Records | src/notes_app/notes_app.rs:268-277 | A save writes one record per note, in vector order. Each record has the note's title, its buffer lines joined by newlines as body, and an empty `date_created`. |
| Notes.DefaultTextArea | src/notes_app/notes_app.rs:265 | A new note's buffer serialises to the empty body. |
| Notes.SetBody | src/notes_app/notes_app.rs:333-339 | Replacing one note's body keeps the count, every title and every other note. |
| Notes.SaveAfterLoad | src/notes_app/notes_app.rs:268-277 | Saving what was loaded writes the same records, but with `date_created` emptied. Loaded dates are not carried through. |
| Notes.SaveLoadSave | src/notes_app/notes_app.rs:268-277 | Saving is idempotent: loading a saved file and saving it again writes identical records. |
| Notes.LoadAfterSave | src/notes_app/notes_app.rs:274 | If every buffer has at least one line and no line contains a newline, a save followed by a load gives back the same titles and lines. |
| ListSelection.SelectPrevious | src/notes_app/notes_app.rs:315 | `k` moves the selection back one place, stops at the first item, and does nothing when nothing is selected. |
| ListSelection.WrapNext | src/notes_app/notes_app.rs:305-313 | `j` wraps from the last item to the first and otherwise advances by one. With nothing selected it lands on the first item. When it starts in range it stays in range. |
| ListSelection.WrapNextAdvances | src/notes_app/notes_app.rs:309-313 | Before the end of the list, each `j` moves exactly one item further. |
| ListSelection.WrapNextCompose | src/notes_app/notes_app.rs:301-314 | Pressing `j` a+b times is the same as pressing it a times and then b times. |
| ListSelection.WrapNextFullCircle | src/notes_app/notes_app.rs:301-314 | Pressing `j` as many times as there are notes brings the selection back to where it started. |
| NotesApp.Init | src/notes_app/notes_app.rs:46-73 | The initial state is List, Normal, no exit, current note 0, no selection, an empty draft and an empty save log. It satisfies the invariant and keeps the file's titles in order. |
| NotesApp.Sync | src/notes_app/notes_app.rs:85 | `draw` sets the current note to the selection, or to 0 without one, and changes nothing else. When the store is non-empty, the result is a valid index. |
| NotesApp.Shown | src/notes_app/notes_app.rs:122-138 | `draw` shows a title exactly when the current note exists, and otherwise falls back to the "No notes" message. |
| NotesApp.ShownAfterSync | src/notes_app/notes_app.rs:85-138 | After the sync, "No notes" is shown exactly when the store is empty, given that `k` with nothing selected leaves the selection empty (see `ListSelection.SelectPrevious` under Left out). Otherwise the title shown is that of the selected note, or of the first note. |
| NotesApp.Typed | src/notes_app/notes_app.rs:283-288 | A typed key keeps what the draft held. It adds exactly one character, placed last, exactly when the key is a character. |
| NotesApp.DropLast | src/notes_app/notes_app.rs:257-260 | Backspace removes the draft's last character, if there is one. |
| NotesApp.BackspaceUndoesTyping | src/notes_app/notes_app.rs:257-260 | Backspace right after a typed character gives back the draft as it was before the character. |
| NotesApp.DraftNote | src/notes_app/notes_app.rs:263-266 | The committed note has the draft as its title and an empty body. |
| NotesApp.ListKey | src/notes_app/notes_app.rs:293-326 | The List handler never changes notes, draft, mode or save log. `q` sets exit. Edit is entered only by Tab, and only over a non-empty store. `j` and Tab do nothing over an empty store. Over a non-empty store, `j` makes exactly the wrapping step and Tab only switches to Edit. `k` only moves the selection back. `a` only switches to New and `?` only to Help. Every other key changes nothing. |
| NotesApp.WithBody | src/notes_app/notes_app.rs:333-339 | Only the current note's body is replaced. Every other field is unchanged. |
| NotesApp.EditKey | src/notes_app/notes_app.rs:328-346 | In Edit/Normal, the count, the titles, every note but the current one, the draft, the save log and the current note never change. Exit is set exactly by `q`. `h`, `j`, `k` and `l` make the current body exactly the editor's cursor move Back, Down, Up and Forward. `i` only switches to Insert, `?` only to Help and Tab only back to List. Every other key changes nothing. |
| NotesApp.InsertKey | src/notes_app/notes_app.rs:348-360 | In Edit/Insert, no key changes the count, a title, another note, the screen, exit, the selection, the draft or the log. Only Esc changes the mode, to Normal, and it leaves every body as it was. Every other key, `q` included, makes the current body what the editor's `input` gives. |
| NotesApp.NewNormalKey | src/notes_app/notes_app.rs:240-248 | In New/Normal, notes, draft and save log never change. Exit is set exactly by `q`. Esc only returns to List, keeping the draft, and `i` only switches to Insert. Every other key changes nothing. |
| NotesApp.NewInsertKey | src/notes_app/notes_app.rs:250-291 | In New/Insert the key never changes exit, screen or current note. The only change to the notes is one appended draft note, from an `Enter` with at least 3 characters. Exactly then the log gains the records of all notes. Esc only returns to Normal, and Backspace only drops the draft's last character. Another key is typed into the draft exactly when the draft holds at most 80 characters, and otherwise changes nothing. |
| NotesApp.HandleKey | src/notes_app/notes_app.rs:220-238 | A key keeps the invariant. `q` quits exactly in List, Edit/Normal and New/Normal. Insert is entered only by `i` and left only by Esc. New is entered in Normal mode. In Help only `?` acts, and it returns to List. Notes only grow and keep every earlier title. No note but the current one changes, and off the Edit screen none does. A save writes all notes. |
| NotesApp.Frame | src/notes_app/notes_app.rs:77-80 | One loop pass, `draw` and then the key, keeps the invariant. |
| NotesApp.Replay | src/notes_app/notes_app.rs:75-82 | While exit is unset, each key is handled after a draw, and a last draw follows the last key. Every state reached keeps the invariant, so Edit is shown only over a non-empty store. The loop stops only after a `q`. A state left waiting has the selected note (or the first) as current note. The store only grows and keeps earlier titles. |
| NotesApp.EditKeysTouchOnlyBody | src/notes_app/notes_app.rs:333-357 | Edit/Normal `h`/`j`/`k`/`l` and every Edit/Insert key other than Esc change only the body of the current note. Titles, other notes, the count, the screen, the mode and exit stay as they were. |
| NotesApp.OnlyEditedNotesChange | src/notes_app/notes_app.rs:328-360 | Over the whole loop, a loaded note that was never current while a key was handled on the Edit screen ends exactly as it was loaded. |
| NotesApp.EnterTwiceCommitsTwice | src/notes_app/notes_app.rs:261-282 | Enter with at least 3 characters appends exactly one note (the draft as title, an empty body) and saves. Screen, mode, draft and earlier notes are left unchanged. A second Enter adds a duplicate. |
| NotesApp.ShortDraftRejected | src/notes_app/notes_app.rs:261-262 | Enter with a draft shorter than 3 characters changes nothing. |
| NotesApp.CommitSavesEveryNote | src/notes_app/notes_app.rs:267-279 | A commit saves every note in vector order, each with its body joined and an empty date. The new note comes last as `{draft, "", ""}`. |
| NotesApp.TypingIsGated | src/notes_app/notes_app.rs:255-289 | A key other than Esc, Backspace and Enter changes the draft only if the draft holds at most 80 characters, so the draft never exceeds 81. Backspace is never gated. |
| NotesApp.DraftReaches81 | src/notes_app/notes_app.rs:283-288 | An 80-character draft still takes one more character and reaches 81. |
| NotesApp.ListJWalksCycle | src/notes_app/notes_app.rs:301-314 | Pressing `j` k times on List moves the selection as k wrapping steps. |
| NotesApp.NewNoteScenario | src/notes_app/notes_app.rs:220-326 | Start from an empty store. Tab stays on List. `a`, `i`, "Hi", Enter creates no note. A further "!" and Enter creates exactly one note, "Hi!", with an empty body, and saves that one record. |
| NotesApp.App.constructor | src/notes_app/notes_app.rs:46-73 | `App::new` builds the state `Init` describes. |
| NotesApp.App.SaveNotes | src/notes_app/notes_app.rs:267-279 | The save appends the sequence of records it is given to the save log. |
| NotesApp.App.Draw | src/notes_app/notes_app.rs:84-138 | `draw` syncs the current note with the selection and returns the title shown, as `Sync` and `Shown` say. |
| NotesApp.App.HandleListKeyEvents | src/notes_app/notes_app.rs:293-326 | Updates the fields as `ListKey` says. |
| NotesApp.App.HandleEditKeyEvents | src/notes_app/notes_app.rs:328-346 | Updates the fields as `EditKey` says. |
| NotesApp.App.HandleInsertKeyEvents | src/notes_app/notes_app.rs:348-360 | Updates the fields as `InsertKey` says. |
| NotesApp.App.HandleNewNormalKeyEvents | src/notes_app/notes_app.rs:240-248 | Updates the fields as `NewNormalKey` says. |
| NotesApp.App.HandleNewInsertKeyEvents | src/notes_app/notes_app.rs:250-291 | Updates the fields and the save log as `NewInsertKey` says. |
| NotesApp.App.HandleKeyEvents | src/notes_app/notes_app.rs:220-238 | Routes the key by screen and mode, keeps `Valid()`, and updates the fields as `HandleKey` says. |
| NotesApp.App.Run | src/notes_app/notes_app.rs:75-82 | Starts with a fresh selection. While exit is unset it draws and then consumes the next key, drawing once more when the keys run out. It ends in the state `Replay` gives. |
| InlineNotesApp.Init | src/notes_app.rs:48-73 | The initial state is List, Normal, no exit, current note 0 and no selection. It satisfies the invariant and keeps the file's titles. |
| InlineNotesApp.Sync | src/notes_app.rs:85 | The current note becomes the selection, or 0 without one. Nothing else changes. When the store is non-empty, the result is a valid index. |
| InlineNotesApp.Shown | src/notes_app.rs:122-138 | A title is shown exactly when the current note exists. Otherwise "No notes" is shown, with no panic. |
| InlineNotesApp.ShownAfterSync | src/notes_app.rs:85-138 | After the sync, "No notes" is shown exactly when the store is empty, given that `k` with nothing selected leaves the selection empty (see `ListSelection.SelectPrevious` under Left out). |
| InlineNotesApp.ListKey | src/notes_app.rs:211-235 | The List handler panics exactly on `j` over an empty store. Tab always enters Edit. The handler never touches notes or mode. `q` sets exit. Over a non-empty store, `j` makes exactly the wrapping step. `k` only moves the selection back, and `?` only switches to Help. Every other key changes nothing. |
| InlineNotesApp.WithBody | src/notes_app.rs:242-248 | Only the current note's body is replaced. |
| InlineNotesApp.EditKey | src/notes_app.rs:237-255 | The Edit/Normal handler panics on every key, `q` included, exactly when there is no current note. Otherwise titles, every note but the current one, the current note and the selection are kept, and exit is set exactly by `q`. `h`, `j`, `k` and `l` make the current body exactly the editor's cursor move Back, Down, Up and Forward. `i` only switches to Insert, `?` only to Help and Tab only back to List. Every other key changes nothing. |
| InlineNotesApp.InsertKey | src/notes_app.rs:257-269 | The Edit/Insert handler panics on every key exactly when there is no current note. Otherwise no key changes the count, a title, another note, the screen, exit, the current note or the selection. Only Esc changes the mode, to Normal, and it leaves every body as it was. Every other key makes the current body what the editor's `input` gives. |
| InlineNotesApp.HandleKey | src/notes_app.rs:195-209 | A key panics exactly on List `j` over an empty store, or on any Edit key over an empty store. Otherwise it keeps the invariant, the count and every title. No note but the current one changes, and off the Edit screen none does. `q` quits only in List and Edit/Normal. Insert is entered only by `i` and left only by Esc. In Help only `?` acts, and it always goes to Edit. |
| InlineNotesApp.Frame | src/notes_app.rs:77-80 | One loop pass keeps the invariant and the titles. It never panics over a non-empty store. |
| InlineNotesApp.Replay | src/notes_app.rs:75-82 | While exit is unset, each key is handled after a draw, and a last draw follows the last key. The loop never panics over a non-empty store. The note count and titles fixed by `App::new` never change. The loop stops only after a `q`. A state left waiting has the selected note (or the first) as current note. |
| InlineNotesApp.EditKeysTouchOnlyBody | src/notes_app.rs:242-266 | Edit body keys change only the current note's body. |
| InlineNotesApp.OnlyEditedNotesChange | src/notes_app.rs:237-269 | Over the whole loop, a note that was never current while a key was handled on the Edit screen ends exactly as `App::new` loaded it. |
| InlineNotesApp.EmptyStorePanics | src/notes_app.rs:218-258 | Over an empty store, Tab (or `?` twice, through Help) enters Edit and the next key panics. `j` on List panics at once. |
| InlineNotesApp.App.constructor | src/notes_app.rs:48-73 | `App::new` builds the state `Init` describes. |
| InlineNotesApp.App.Draw | src/notes_app.rs:84-138 | `draw` syncs the current note and returns the title shown. |
| InlineNotesApp.App.HandleListKeyEvents | src/notes_app.rs:211-235 | Updates the fields, or reports the panic, as `ListKey` says. |
| InlineNotesApp.App.HandleEditKeyEvents | src/notes_app.rs:237-255 | Updates the fields, or reports the panic, as `EditKey` says. |
| InlineNotesApp.App.HandleInsertKeyEvents | src/notes_app.rs:257-269 | Updates the fields, or reports the panic, as `InsertKey` says. |
| InlineNotesApp.App.HandleKeyEvents | src/notes_app.rs:195-209 | Routes the key, and updates the fields or reports the panic as `HandleKey` says. |
| InlineNotesApp.App.Run | src/notes_app.rs:75-82 | Starts with a fresh selection. While exit is unset it draws and then consumes the next key, stopping at a panic and drawing once more when the keys run out. It ends as `Replay` says. |
| MainApp.LoadedNotes | src/main.rs:71-102 | Empty file contents give no notes. Any other contents, whitespace included (there is no trim), fail exactly when the parser fails. Otherwise they give one note per parsed record, in order, with its title and its body split on `"\n"`. |
| MainApp.Startup | src/main.rs:115-126 | The state after `App::new` and `select_first` is List, Normal, no exit, current note 0, first item selected. The app can run exactly when the file has notes. |
| MainApp.DrawStep | src/main.rs:134-175 | `draw` syncs the current note and unwraps `notes[selected or 0]`. It panics exactly when the store is empty. |
| MainApp.ShownBody | src/main.rs:172-178 | `draw` renders a buffer exactly when it does not panic. That buffer is the body of the note `draw` makes current, which the Edit handlers then change. |
| MainApp.Frame | src/main.rs:127-130 | One loop pass panics exactly over an empty store. Over a non-empty store it keeps the store and the selection valid. |
| MainApp.Replay | src/main.rs:124-132 | While exit is unset, each key is handled after a draw, and a last draw follows the last key. Over an empty store the first draw panics, before any key is read. Over a non-empty store nothing panics, and the count and titles never change. A state left waiting has the selected note as current note. The loop stops only after a `q`. |
| MainApp.OnlyEditedNotesChange | src/main.rs:277-309 | Over the whole loop, a note that was never current while a key was handled on the Edit screen ends exactly as `App::new` loaded it. |
| MainApp.StartupOutcome | src/main.rs:124-132 | From `run`'s start, an empty file panics in the first `draw`, even when no key follows. A non-empty file never panics and keeps every title. |
| MainApp.App.constructor | src/main.rs:97-122 | `App::new` builds the state `InlineNotesApp.Init` describes. |
| MainApp.App.Draw | src/main.rs:134-184 | `draw` syncs the current note and returns the buffer it renders, as `ShownBody` says. It reports the unwrap panic exactly as `DrawStep` does. |
| MainApp.App.HandleListKeyEvents | src/main.rs:251-275 | Updates the fields, or reports the panic, as `InlineNotesApp.ListKey` says. |
| MainApp.App.HandleEditKeyEvents | src/main.rs:277-295 | Updates the fields, or reports the panic, as `InlineNotesApp.EditKey` says. |
| MainApp.App.HandleInsertKeyEvents | src/main.rs:297-309 | Updates the fields, or reports the panic, as `InlineNotesApp.InsertKey` says. |
| MainApp.App.HandleKeyEvents | src/main.rs:235-249 | Routes the key, and updates the fields or reports the panic as `InlineNotesApp.HandleKey` says. |
| MainApp.App.Run | src/main.rs:124-132 | Selects the first item. While exit is unset it draws and then consumes the next key, stopping at a panic and drawing once more when the keys run out. It ends as `Replay` says. |

## Left out

- Rendering is not modelled: layout, styles, the list widget, `render_popup`, `render_help_popup`, `get_popup_layout`, and the draft cursor and scroll arithmetic. Of `draw`, only the current-note sync and the lookup of the shown note are modelled.
- Terminal setup and teardown, `main`'s I/O and `handle_events`' blocking `crossterm::event::read` are not modelled. Key events arrive as a sequence passed to `Run`, and non-key events (which the app ignores) are not represented.
- Key modifiers are not modelled: a key event is its key code only.
- `src/notes_app/notes_repository.rs` (file open, create and write, and serde JSON) is not part of this model. A save is the appended entry of `saved`, a ghost log of record sequences. The `.unwrap()` on the save result is an abort path and is not modelled. The repository's `load_notes`, which trims the contents, is not modelled either.
- `src/notes_app/mod.rs` contributes only the `JsonNote` record, mirrored as `Notes.JsonNote`.
- JSON parsing in `src/main.rs` is a function parameter of `MainApp.LoadedNotes`. The parse error leads to an early return from `main`, which is not modelled.
- The internals of `tui_textarea::TextArea` are not modelled. `move_cursor` and `input` are the opaque functions of an `Editor` value, so cursor clamping and line editing are not modelled or proved. `TextArea::new` and `TextArea::default` are taken to start with the cursor at (0, 0), and `default` to hold one empty line. `set_block` and the cursor styles are rendering.
- The internals of `tui_input::Input` are not modelled. The draft takes a typed character at its end, and Backspace removes its last character. Cursor movement within the draft and the effect of other keys on it are not modelled; those keys leave the draft unchanged.
- ListSelection.SelectPrevious: with nothing selected, `k` is taken to leave the selection empty. ratatui instead selects `usize::MAX`, and its list widget clamps that to the last item while rendering. So in the source, over a non-empty store, `k` pressed while nothing is selected has two effects the model lacks. First, the next `draw` sets the current note to `usize::MAX` and shows "No notes" for one frame. Second, from the frame after that on, the source's selection and current note are the last note, while the model's selection stays empty and its current note is note 0. Until `j` is pressed, Tab therefore opens a different note in the source than in the model, and edits and the title shown concern that other note. For example, with two notes and the keys `k`, Tab, `i`, `x`, the source types into note 1 and the model into note 0. Both `ShownAfterSync` lemmas and every `Edited` result rely on this simplification. The case does not arise in `src/main.rs`, which selects the first item at startup and never clears the selection. Render-time clamping of the selection is not modelled.
- ListSelection.SelectNext: indices do not overflow (ratatui's `saturating_add` is not modelled).
- Lengths in the 3- and 80-character guards count characters, not the bytes of Rust's `String::len`, so input is assumed to be ASCII.
- The `notes.len() - 1` underflow is modelled as a panic (the behaviour of a debug build). The wrap-around of a release build is not modelled.
