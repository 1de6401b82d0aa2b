# Notes app: folder/note store and selection formatting, in Dafny

This project models the two parts of the React notes app that hold logic:

- **The folder/note store** of `FolderManagementApp.jsx` and of its older copy
  `Backup.jsx`. The component keeps two record lists (folders `{id, name}`
  and notes `{id, folderId, name, content, createdAt}`), the selected folder
  and note, the create/rename input texts and the four mode flags. Each
  handler (create, rename, delete, the Enter-key dispatcher, the editor's
  content change, the clicks that select) is one atomic step on that state.
  The state is the value `NotesState.AppState`. Each handler's step is a
  function on it: `NotesState` holds the steps both files share, and each
  file's module holds its own `DeleteFolderStep`. The class `App` in
  `FolderManagementApp` and in `Backup` holds the same state as fields. Its
  methods update the fields in place, and each method's postcondition ties
  the new state to the step function.
- **The selection formatting of `TextEditorToolbar.jsx`.** The editor content
  is a sequence of inline nodes (`Document.Node`). The selection is a range
  `[start, end)` over it. `applyFormatting` extracts the range and inserts
  one wrapper node in its place: a styled span, an anchor, or a `ul`/`ol`
  with one `li`. `Toolbar.ApplyFormatting` does this through
  `Editor.ExtractContents` and `Editor.InsertNode`, and is proved equal to
  the specification function `Formatted`. The text-preservation and
  nesting lemmas are proved about `Formatted`. The older file maps the same
  buttons to browser editing commands; `Backup.CommandFor` models that.

Main properties proved:
- Integrity is kept by every handler of both files: each note's `folderId`
  names a stored folder, and the selected folder's id is the id of a stored
  folder (the selected record itself may be an older copy, as after a rename). The newer file
  also keeps "no note is selected without a folder" (`Consistent`).
- The delete cascade removes exactly the deleted folder's notes. Every other
  folder's note list and count is unchanged.
- Renames and content edits touch only the matching records.
- Formatting preserves the flattened text, and re-applying a format nests a
  second wrapper (formatting is never idempotent).

Inputs that come from the browser or the clock are parameters: `Date.now()`
(`now`), `new Date().toISOString()` (`createdAt`), the key pressed, the
editor's `innerHTML`, the answer to `prompt`, and the selection. The
`TypeError` that `renameFolder`/`renameNote` throw when nothing is selected
and the list has at least one record (the `map` callback that reads the
selection runs only then) is modelled as the outcome `Threw`, which leaves the state unchanged.

Behaviour of the code worth knowing:
- The list buttons wrap only the selected range in a list. They do not
  promote the whole line.
- A link whose URL prompt is cancelled or left empty is not abandoned. The
  code falls through and wraps the range in a span with no style.
- A new span carries only its own one style property. It is never merged
  with styles already active at the range, and an existing identical wrapper
  is never reused.
- The newer file's deleteFolder clears the selected note only when the
  deleted folder is the selected one. Deleting another folder that holds the
  selected note (reachable by selecting a note, then a different folder)
  leaves that deleted note selected and shown in the editor
  (`FolderManagementApp.DeletingAnotherFolderKeepsItsNoteSelected`).
- The delayed show of the toolbar is never cancelled by a later hide. This
  is timing, and it is not modelled.

## Model

| member | source | states |
|---|---|---|
| `JsString.Trim` | client/src/notesapp/FolderManagementApp.jsx:48-51 | `trim()` returns the infix left after the leading and trailing whitespace runs; everything outside it is whitespace; it is empty exactly when the whole name is whitespace |
| `JsString.TrimIdempotent` | client/src/notesapp/FolderManagementApp.jsx:48-51 | a stored (trimmed) name is unchanged by trimming again |
| `JsString.TrimNonEmptyIff` | client/src/notesapp/FolderManagementApp.jsx:48 | the `trim() !== ''` guard passes exactly when the name has a non-whitespace character |
| `Records.Filter` | client/src/notesapp/FolderManagementApp.jsx:76 | `filter` keeps exactly the elements satisfying the predicate and never grows the list |
| `Records.FilterAppend` | client/src/notesapp/FolderManagementApp.jsx:76-80 | filtering distributes over concatenation, so kept records stay in their original order |
| `Records.FilterKeepsAll` | client/src/notesapp/FolderManagementApp.jsx:76 | a filter that rejects nothing returns the list unchanged |
| `Records.FoldersWithout` | client/src/notesapp/FolderManagementApp.jsx:76 | deleteFolder keeps exactly the folders with another id; the id set loses exactly the deleted id |
| `Records.NotesWithout` | client/src/notesapp/FolderManagementApp.jsx:92 | deleteNote keeps exactly the notes with another id |
| `Records.NotesOutside` | client/src/notesapp/FolderManagementApp.jsx:80 | the cascade keeps exactly the notes filed under another folder |
| `Records.FilterKeepsOrder` | client/src/notesapp/FolderManagementApp.jsx:76 | `filter` keeps the kept elements in list order around any one element |
| `Records.FoldersWithoutKeepsOrder` | client/src/notesapp/FolderManagementApp.jsx:76 | the folder filter keeps the kept folders in list order; as both files' `DeleteFolderStep` ensure their folders are this filter (here and at `Backup.jsx` line 83), deleteFolder keeps folder order |
| `Records.NotesOutsideKeepsOrder` | client/src/notesapp/FolderManagementApp.jsx:80 | the cascade filter keeps the kept notes in list order; as both files' `DeleteFolderStep` ensure their notes are this filter (here and at `Backup.jsx` line 87), deleteFolder keeps note order |
| `Records.NotesOf` | client/src/notesapp/FolderManagementApp.jsx:341-342 | the notes listed for a folder are exactly the stored notes with that `folderId` |
| `Records.NoteCount` | client/src/notesapp/FolderManagementApp.jsx:245 | a folder's badge is at most the number of notes, and zero exactly when no note is filed under it |
| `Records.RenameFolders` | client/src/notesapp/FolderManagementApp.jsx:100-104 | same length and ids; matching folders get the new name, all others are unchanged |
| `Records.RenameNotes` | client/src/notesapp/FolderManagementApp.jsx:112-116 | same length; matching notes change only their name, all others are unchanged |
| `Records.SetNoteContent` | client/src/notesapp/FolderManagementApp.jsx:140-142 | same length; matching notes change only their content, all others are unchanged |
| `Records.NotesPartition` | client/src/notesapp/FolderManagementApp.jsx:80 | a folder's notes and the notes the cascade keeps split the note list as a multiset |
| `Records.CascadeSparesOtherFolders` | client/src/notesapp/FolderManagementApp.jsx:79-80 | the cascade leaves every other folder's note list exactly as it was |
| `Records.NotesOfAppend` | client/src/notesapp/FolderManagementApp.jsx:68 | an appended note joins the end of its own folder's list and of no other list |
| `Records.RenameFoldersKeepsIds` | client/src/notesapp/FolderManagementApp.jsx:100-104 | renaming keeps the set of folder ids |
| `Records.RenameFoldersLastWins` | client/src/notesapp/FolderManagementApp.jsx:100-104 | two renames of the same folder leave only the second name |
| `Records.RenameNotesKeepsCounts` | client/src/notesapp/FolderManagementApp.jsx:112-116 | renaming notes keeps every folder's note count |
| `Records.SetNoteContentKeepsIntegrity` | client/src/notesapp/FolderManagementApp.jsx:138-145 | a content edit keeps every note attached to a stored folder |
| `Records.DeleteFolderKeepsIntegrity` | client/src/notesapp/FolderManagementApp.jsx:74-80 | after the delete and its cascade every remaining note names a remaining folder, and none names the deleted id |
| `NotesState.CreateFolderStep` | client/src/notesapp/FolderManagementApp.jsx:47-57 | a blank name changes nothing; otherwise one folder `{now, trimmed name}` is appended after the old ones, the input is cleared and creating mode ends, nothing else changes |
| `NotesState.CreateNoteStep` | client/src/notesapp/FolderManagementApp.jsx:59-72 | acts only with a non-blank name and a selected folder; appends one empty note filed under the selected folder, clears the input, ends creating mode |
| `NotesState.DeleteNoteStep` | client/src/notesapp/FolderManagementApp.jsx:90-96 | removes exactly the notes with the id and always clears the selected note |
| `NotesState.RenameFolderStep` | client/src/notesapp/FolderManagementApp.jsx:98-108 | a blank name changes nothing and leaves rename mode open; throws exactly when nothing is selected and there are folders; otherwise only the selected id's folders are renamed, and the input and mode are cleared |
| `NotesState.RenameNoteStep` | client/src/notesapp/FolderManagementApp.jsx:110-120 | the same for notes and the selected note |
| `NotesState.KeyPressStep` | client/src/notesapp/FolderManagementApp.jsx:122-134 | only Enter acts, and it runs exactly one handler: create-folder if that mode is on, else create-note, else rename-folder, else rename-note (each as its own step, a rename's `TypeError` included); no key press changes the selection |
| `NotesState.NoteContentChangeStep` | client/src/notesapp/FolderManagementApp.jsx:138-145 | without a selected note nothing changes; otherwise only the selected note's content becomes the editor markup |
| `NotesState.SelectFolderStep` | client/src/notesapp/FolderManagementApp.jsx:236 | clicking a folder makes that record the selected folder and changes nothing else |
| `NotesState.SelectNoteStep` | client/src/notesapp/FolderManagementApp.jsx:347 | clicking a note makes that record the selected note and changes nothing else |
| `NotesState.CreateFolderKeepsConsistent` | client/src/notesapp/FolderManagementApp.jsx:47-57 | createFolder keeps integrity and consistency |
| `NotesState.CreateNoteKeepsConsistent` | client/src/notesapp/FolderManagementApp.jsx:59-72 | createNote files the note under a stored folder, so integrity and consistency are kept |
| `NotesState.CreateNoteListsIt` | client/src/notesapp/FolderManagementApp.jsx:59-72 | the new note ends the selected folder's list; every other folder's list is unchanged |
| `NotesState.DeleteNoteKeepsConsistent` | client/src/notesapp/FolderManagementApp.jsx:90-96 | deleteNote keeps integrity and consistency |
| `NotesState.RenameFolderKeepsConsistent` | client/src/notesapp/FolderManagementApp.jsx:98-108 | a completed folder rename keeps integrity and consistency |
| `NotesState.RenameNoteKeepsConsistent` | client/src/notesapp/FolderManagementApp.jsx:110-120 | a completed note rename keeps integrity and consistency |
| `NotesState.KeyPressKeepsConsistent` | client/src/notesapp/FolderManagementApp.jsx:122-134 | the Enter dispatcher keeps integrity and consistency |
| `NotesState.NoteContentChangeKeepsConsistent` | client/src/notesapp/FolderManagementApp.jsx:138-145 | a content edit keeps integrity and consistency |
| `NotesState.SelectKeepsConsistent` | client/src/notesapp/FolderManagementApp.jsx:341-347 | selecting a listed folder, or a note listed under the selected folder, gives a consistent state |
| `FolderManagementApp.DeleteFolderStep` | client/src/notesapp/FolderManagementApp.jsx:74-87 | the folders become `FoldersWithout` the id and the notes `NotesOutside` it, so exactly the folders with the id and the notes filed under it go; clears both selections when the selected folder is deleted, and leaves both untouched otherwise |
| `FolderManagementApp.ResetSelectedNoteStep` | client/src/notesapp/FolderManagementApp.jsx:147-152 | after the effect no note is selected without a selected folder; with a selected folder it changes nothing |
| `FolderManagementApp.DeleteFolderKeepsConsistent` | client/src/notesapp/FolderManagementApp.jsx:74-87 | deleteFolder keeps integrity and consistency, and deleting the selected folder always leaves a consistent state |
| `FolderManagementApp.DeleteFolderEmptiesIt` | client/src/notesapp/FolderManagementApp.jsx:79-80 | after deleteFolder no note is filed under the id, and exactly the folder's count of notes is gone |
| `FolderManagementApp.DeleteFolderCascade` | client/src/notesapp/FolderManagementApp.jsx:79-80 | every other folder's note list (and badge) is unchanged by deleteFolder |
| `FolderManagementApp.ResetSelectedNoteIsIdle` | client/src/notesapp/FolderManagementApp.jsx:147-152 | on a consistent state the effect has nothing left to do |
| `FolderManagementApp.DeletingAnotherFolderKeepsItsNoteSelected` | client/src/notesapp/FolderManagementApp.jsx:82-86 | a note selected under folder A stays selected after folder B is selected and A is deleted, though it is no longer stored |
| `FolderManagementApp.RenameLeavesSelectionStale` | client/src/notesapp/FolderManagementApp.jsx:98-108 | renaming the selected folder renames the stored record but not the selected copy whose name heads the notes pane |
| `FolderManagementApp.App.constructor` | client/src/notesapp/FolderManagementApp.jsx:34-45 | the initial state: empty lists, empty inputs, no modes, no selection |
| `FolderManagementApp.App.CreateFolder` | client/src/notesapp/FolderManagementApp.jsx:47-57 | the new state is `CreateFolderStep` of the old; the invariant is kept |
| `FolderManagementApp.App.CreateNote` | client/src/notesapp/FolderManagementApp.jsx:59-72 | the new state is `CreateNoteStep` of the old; the invariant is kept |
| `FolderManagementApp.App.DeleteFolder` | client/src/notesapp/FolderManagementApp.jsx:74-87 | the new state is this file's `DeleteFolderStep` of the old; the invariant is kept |
| `FolderManagementApp.App.DeleteNote` | client/src/notesapp/FolderManagementApp.jsx:90-96 | the new state is `DeleteNoteStep` of the old; the invariant is kept |
| `FolderManagementApp.App.RenameFolder` | client/src/notesapp/FolderManagementApp.jsx:98-108 | reports the throw and then leaves the state unchanged, or moves to `RenameFolderStep`'s state |
| `FolderManagementApp.App.RenameNote` | client/src/notesapp/FolderManagementApp.jsx:110-120 | reports the throw and then leaves the state unchanged, or moves to `RenameNoteStep`'s state |
| `FolderManagementApp.App.HandleKeyPress` | client/src/notesapp/FolderManagementApp.jsx:122-134 | runs at most one handler, as `KeyPressStep` says; the invariant is kept |
| `FolderManagementApp.App.HandleNoteContentChange` | client/src/notesapp/FolderManagementApp.jsx:138-145 | the new state is `NoteContentChangeStep` of the old; the invariant is kept |
| `FolderManagementApp.App.SelectFolder` | client/src/notesapp/FolderManagementApp.jsx:236 | selects a listed folder; the invariant is kept |
| `FolderManagementApp.App.SelectNote` | client/src/notesapp/FolderManagementApp.jsx:347 | selects a note listed under the selected folder; the invariant is kept |
| `FolderManagementApp.App.ResetSelectedNote` | client/src/notesapp/FolderManagementApp.jsx:147-152 | the effect as a state change; the invariant is kept |
| `Backup.DeleteFolderStep` | client/src/notesapp/Backup.jsx:81-93 | the same removal and cascade (`FoldersWithout`, `NotesOutside`); clears the selected folder only if it was deleted, and never touches the selected note |
| `Backup.DeleteFolderStepKeepsIntegrity` | client/src/notesapp/Backup.jsx:81-93 | this deleteFolder keeps integrity |
| `Backup.DeleteFolderStrandsSelectedNote` | client/src/notesapp/Backup.jsx:89-92 | from a consistent state, deleting the selected folder leaves its deleted note selected with no folder selected |
| `Backup.NewerDeleteFolderAddsTheReset` | client/src/notesapp/Backup.jsx:81-93 | on consistent states the newer deleteFolder equals this one followed by the reset effect |
| `Backup.CommandFor` | client/src/notesapp/Backup.jsx:172-191 | a command is issued exactly for the eight button formats, except a link whose prompt answer is falsy; the plain formats pass their own name with no value, highlight passes `backColor` with the highlight colour, color passes `foreColor` with the text colour, link passes `createLink` with the URL |
| `Backup.CommandsMatchWrappers` | client/src/notesapp/Backup.jsx:172-191 | a command is issued exactly when the newer toolbar builds something other than a bare unstyled span |
| `Backup.App.constructor` | client/src/notesapp/Backup.jsx:41-144 | the initial notes state of the `useState` calls at lines 41-52, with the colour inputs declared at lines 143-144 starting at `#FFFF00` and `#000000` |
| `Backup.App.CreateFolder` | client/src/notesapp/Backup.jsx:54-64 | the same step as the newer file (`CreateFolderStep`); integrity is kept |
| `Backup.App.CreateNote` | client/src/notesapp/Backup.jsx:66-79 | the same step as the newer file (`CreateNoteStep`); integrity is kept |
| `Backup.App.DeleteFolder` | client/src/notesapp/Backup.jsx:81-93 | the new state is this file's `DeleteFolderStep` of the old; integrity is kept |
| `Backup.App.DeleteNote` | client/src/notesapp/Backup.jsx:95-101 | removes by id and always clears the selected note (`DeleteNoteStep`) |
| `Backup.App.RenameFolder` | client/src/notesapp/Backup.jsx:103-113 | the same guarded rename as the newer file (`RenameFolderStep`) |
| `Backup.App.RenameNote` | client/src/notesapp/Backup.jsx:115-125 | the same guarded rename as the newer file (`RenameNoteStep`) |
| `Backup.App.HandleKeyPress` | client/src/notesapp/Backup.jsx:127-139 | the same Enter dispatcher (`KeyPressStep`) |
| `Backup.App.HandleNoteContentChange` | client/src/notesapp/Backup.jsx:195-202 | replaces only the selected note's content; nothing without a selected note |
| `Backup.App.SelectFolder` | client/src/notesapp/Backup.jsx:286 | selects a listed folder (`SelectFolderStep`); integrity is kept and the colours are untouched |
| `Backup.App.SelectNote` | client/src/notesapp/Backup.jsx:397 | selects a note listed under the selected folder (`SelectNoteStep`); integrity is kept and the colours are untouched |
| `Backup.App.ApplyFormatting` | client/src/notesapp/Backup.jsx:172-193 | issues `CommandFor`'s command, if any, and always restores focus, also for formats that issue nothing |
| `Document.TextOfAppend` | client/src/notesapp/TextEditorToolbar.jsx:96-97 | the text of two consecutive fragments is the concatenation of their texts |
| `Document.TextOfSingle` | client/src/notesapp/TextEditorToolbar.jsx:96-97 | a one-node fragment's text is that node's text |
| `Document.TextOfSplit` | client/src/notesapp/TextEditorToolbar.jsx:96-97 | cutting the content before and after the range loses and adds no text |
| `Document.SplitText` | client/src/notesapp/TextEditorToolbar.jsx:75 | splitting a text node at a range boundary keeps the text and the other nodes, and adds one node (the empty text node a later insertion can leave is not modelled) |
| `TextEditorToolbar.WrapperFor` | client/src/notesapp/TextEditorToolbar.jsx:50-94 | the five style formats give a span with exactly one style property (`fontWeight` bold, `fontStyle` italic, `textDecoration` underline, `backgroundColor` highlight colour, `color` text colour); a truthy URL gives an anchor to it; the list formats give a `ul` or `ol`; a falsy URL or an unknown format give a span with no style |
| `TextEditorToolbar.Wrap` | client/src/notesapp/TextEditorToolbar.jsx:68-97 | the wrapper holds exactly the extracted nodes' text and is strictly deeper than them (a span or link adds one level, a list two) |
| `TextEditorToolbar.Formatted` | client/src/notesapp/TextEditorToolbar.jsx:46-98 | a caret leaves the content unchanged; otherwise the range is replaced by one wrapper of exactly its nodes, and the nodes before and after are unchanged |
| `TextEditorToolbar.FormattedKeepsText` | client/src/notesapp/TextEditorToolbar.jsx:75-97 | for every format and range, the flattened text before and after is the same |
| `TextEditorToolbar.ReapplyingNests` | client/src/notesapp/TextEditorToolbar.jsx:50-97 | formatting the wrapper again adds exactly one more wrapper around it |
| `TextEditorToolbar.FormattingNeverIdempotent` | client/src/notesapp/TextEditorToolbar.jsx:50-97 | formatting a non-empty range always changes the content |
| `TextEditorToolbar.BoldWorld` | client/src/notesapp/TextEditorToolbar.jsx:53-55 | bold on "world" in "hello world" gives "hello " and a bold span around "world" (the browser also leaves an empty text node after the span, which the model omits) |
| `TextEditorToolbar.OrderedListOfLine` | client/src/notesapp/TextEditorToolbar.jsx:87-93 | the ordered-list button on "buy milk" gives one `ol` with one `li` holding the line |
| `TextEditorToolbar.Editor.ExtractContents` | client/src/notesapp/TextEditorToolbar.jsx:75 | returns the range's nodes and removes them from the content |
| `TextEditorToolbar.Editor.InsertNode` | client/src/notesapp/TextEditorToolbar.jsx:76 | inserts one node at the range's start, between top-level nodes |
| `TextEditorToolbar.Editor.Focus` | client/src/notesapp/TextEditorToolbar.jsx:99 | the editor has focus afterwards |
| `TextEditorToolbar.Toolbar.constructor` | client/src/notesapp/TextEditorToolbar.jsx:16-19 | the toolbar starts hidden, with highlight colour `#FFFF00` and text colour `#000000` |
| `TextEditorToolbar.Toolbar.HandleSelectionChange` | client/src/notesapp/TextEditorToolbar.jsx:23-38 | the show is scheduled exactly when a non-collapsed selection is anchored in the editor; in every other case the toolbar is hidden at once |
| `TextEditorToolbar.Toolbar.ApplyFormatting` | client/src/notesapp/TextEditorToolbar.jsx:46-100 | the new content is `Formatted` with the format's wrapper; focus is restored for a caret and for spans, not after a link or a list |

## Findings

| source | as written | input that shows it | evidently intended | confidence | as-written member | corrected member |
|---|---|---|---|---|---|---|
| client/src/notesapp/Backup.jsx:89-92 | deleteFolder clears the selected folder but not the selected note, so the editor keeps showing a note that was just deleted with its folder | folder `{1, "Work"}` selected, its note `{10, folderId 1}` selected, delete folder 1 | clear the selected note too, as `FolderManagementApp.jsx:83-86` does | high (not executed) | `Backup.DeleteFolderStrandsSelectedNote` | `FolderManagementApp.DeleteFolderKeepsConsistent` |

## Left out

- Everything the browser or React does: rendering, icons, styles, tooltips,
  dropdown menus and the search input that does nothing. `useState` setter
  batching and stale closures are left out too: each handler is one atomic
  step.
- The clock: `Date.now()` and `new Date().toISOString()` are the parameters
  `now` and `createdAt`. Ids are not claimed to be unique; the source does
  not ensure it, and every filter removes all records with an id.
- The input `onChange` setters and the buttons that open or close a create
  or rename mode assign one field each. They are not separate operations
  here; their fields are plain fields of `App`.
- The toolbar's position (`getBoundingClientRect`, `scrollY`, floating point),
  the 200 ms `setTimeout` that finally shows it, and the registration of the
  `selectionchange` listener. `Toolbar.HandleSelectionChange` returns
  whether a show is scheduled instead of running the timer. The same
  listener in `Backup.jsx` (lines 148-170) is not modelled separately.
- `Toolbar.ApplyFormatting`: the selection is a range over the editor's
  top-level nodes. Splitting a text node at a boundary is modelled by
  `Document.SplitText`, but the empty text node that `insertNode` leaves
  when it splits the start's text node again is not: node counts in the
  model (for example two nodes where the browser has three after bold on
  "world" in "hello world") are up to such empty nodes, which carry no
  text. A boundary inside an element, which the DOM handles
  by cloning the partly selected element, is not modelled. A selection
  outside the editor is not modelled either: `applyFormatting` does not
  check where the selection is.
- `document.execCommand` and what the browser does with the command: the
  older file is modelled up to the command it issues.
- `innerHTML` serialisation: the note content is the string the editor
  reports, and the node tree is not serialised.
- JavaScript strings are UTF-16 code units and Dafny strings are Unicode
  scalar values. The two agree on every character `trim` removes.
