/**
 * The component state of the notes app (the twelve `useState` slots that
 * both `FolderManagementApp.jsx` and its older copy `Backup.jsx` declare) as
 * one value, and the handlers the two files share, each as the state change
 * it makes in one atomic step. `deleteFolder`, the one handler in which the
 * files differ, is defined in each file's own module.
 */
module NotesState {
  import opened Wrappers
  import opened JsString
  import opened Records

  datatype AppState = AppState(
    folders: seq<Folder>,
    notes: seq<Note>,
    newFolderName: string,
    isCreatingFolder: bool,
    isCreatingNote: bool,
    selectedFolder: Option<Folder>,
    selectedNote: Option<Note>,
    newNoteName: string,
    isRenamingFolder: bool,
    isRenamingNote: bool,
    newFolderNameForRename: string,
    newNoteNameForRename: string)

  /** What a handler does: it completes with a new state, or it throws (`TypeError` on `null.id`) before any setter runs. */
  datatype Outcome = Completed(state: AppState) | Threw

  /** The initial `useState` values. */
  const Initial := AppState([], [], "", false, false, None, None, "", false, false, "", "")

  /**
   * The bookkeeping both files keep: every note belongs to a stored folder,
   * and a selected folder is one of the stored folders (by id).
   */
  predicate Integrity(st: AppState) {
    && NotesResolve(st.folders, st.notes)
    && (st.selectedFolder.Some? ==> st.selectedFolder.value.id in FolderIds(st.folders))
  }

  /** Integrity, and no note is selected while no folder is (the editor shows a note only inside a folder). */
  predicate Consistent(st: AppState) {
    Integrity(st) && (st.selectedFolder.None? ==> st.selectedNote.None?)
  }

  /** createFolder: append `{ id: now, name: newFolderName.trim() }` when the trimmed name is non-empty. */
  function CreateFolderStep(st: AppState, now: int): (r: AppState)
    ensures Trim(st.newFolderName) == [] ==> r == st
    ensures Trim(st.newFolderName) != [] ==>
      && r.folders == st.folders + [Folder(now, Trim(st.newFolderName))]
      && r == st.(folders := r.folders, newFolderName := "", isCreatingFolder := false)
  {
    if Trim(st.newFolderName) != [] then
      st.(folders := st.folders + [Folder(now, Trim(st.newFolderName))],
          newFolderName := "",
          isCreatingFolder := false)
    else st
  }

  /** createNote: append an empty note to the selected folder when the trimmed name is non-empty and a folder is selected. */
  function CreateNoteStep(st: AppState, now: int, createdAt: string): (r: AppState)
    ensures Trim(st.newNoteName) == [] || st.selectedFolder.None? ==> r == st
    ensures Trim(st.newNoteName) != [] && st.selectedFolder.Some? ==>
      && r.notes == st.notes + [Note(now, st.selectedFolder.value.id, Trim(st.newNoteName), "", createdAt)]
      && r == st.(notes := r.notes, newNoteName := "", isCreatingNote := false)
  {
    if Trim(st.newNoteName) != [] && st.selectedFolder.Some? then
      st.(notes := st.notes + [Note(now, st.selectedFolder.value.id, Trim(st.newNoteName), "", createdAt)],
          newNoteName := "",
          isCreatingNote := false)
    else st
  }

  /** deleteNote: drop every note with the id and clear the selected note, whichever note it was. */
  function DeleteNoteStep(st: AppState, noteId: int): (r: AppState)
    ensures forall n :: n in r.notes <==> n in st.notes && n.id != noteId
    ensures r.selectedNote == None
    ensures r == st.(notes := r.notes, selectedNote := None)
  {
    st.(notes := NotesWithout(st.notes, noteId), selectedNote := None)
  }

  /**
   * renameFolder: when the trimmed new name is non-empty, rename the folders
   * whose id is the selected folder's id. The id is read inside the `map`
   * callback, so with no selected folder the handler throws, but only if
   * there is a folder for the callback to run on.
   */
  function RenameFolderStep(st: AppState): (r: Outcome)
    ensures Trim(st.newFolderNameForRename) == [] ==> r == Completed(st)
    ensures r.Threw? <==> Trim(st.newFolderNameForRename) != [] && st.selectedFolder.None? && st.folders != []
    ensures r.Completed? && Trim(st.newFolderNameForRename) != [] ==>
      && |r.state.folders| == |st.folders|
      && (forall i :: 0 <= i < |st.folders| && st.folders[i].id == st.selectedFolder.value.id ==>
            r.state.folders[i] == st.folders[i].(name := Trim(st.newFolderNameForRename)))
      && (forall i :: 0 <= i < |st.folders| && st.folders[i].id != st.selectedFolder.value.id ==>
            r.state.folders[i] == st.folders[i])
      && r.state == st.(folders := r.state.folders, newFolderNameForRename := "", isRenamingFolder := false)
  {
    var name := Trim(st.newFolderNameForRename);
    if name == [] then Completed(st)
    else if st.selectedFolder.None? && st.folders != [] then Threw
    else
      var renamed := if st.folders == [] then [] else RenameFolders(st.folders, st.selectedFolder.value.id, name);
      Completed(st.(folders := renamed, newFolderNameForRename := "", isRenamingFolder := false))
  }

  /** renameNote: the same as renameFolder, on the notes and the selected note. */
  function RenameNoteStep(st: AppState): (r: Outcome)
    ensures Trim(st.newNoteNameForRename) == [] ==> r == Completed(st)
    ensures r.Threw? <==> Trim(st.newNoteNameForRename) != [] && st.selectedNote.None? && st.notes != []
    ensures r.Completed? && Trim(st.newNoteNameForRename) != [] ==>
      && |r.state.notes| == |st.notes|
      && (forall i :: 0 <= i < |st.notes| && st.notes[i].id == st.selectedNote.value.id ==>
            r.state.notes[i] == st.notes[i].(name := Trim(st.newNoteNameForRename)))
      && (forall i :: 0 <= i < |st.notes| && st.notes[i].id != st.selectedNote.value.id ==>
            r.state.notes[i] == st.notes[i])
      && r.state == st.(notes := r.state.notes, newNoteNameForRename := "", isRenamingNote := false)
  {
    var name := Trim(st.newNoteNameForRename);
    if name == [] then Completed(st)
    else if st.selectedNote.None? && st.notes != [] then Threw
    else
      var renamed := if st.notes == [] then [] else RenameNotes(st.notes, st.selectedNote.value.id, name);
      Completed(st.(notes := renamed, newNoteNameForRename := "", isRenamingNote := false))
  }

  /**
   * handleKeyPress: only Enter acts, and it runs the first of createFolder,
   * createNote, renameFolder, renameNote whose mode flag is set, whichever
   * input the key was pressed in.
   */
  function KeyPressStep(st: AppState, key: string, now: int, createdAt: string): (r: Outcome)
    ensures key != "Enter" ==> r == Completed(st)
    ensures !(st.isCreatingFolder || st.isCreatingNote || st.isRenamingFolder || st.isRenamingNote) ==> r == Completed(st)
    ensures r.Completed? ==>
      r.state.selectedFolder == st.selectedFolder && r.state.selectedNote == st.selectedNote
    ensures key == "Enter" && st.isCreatingFolder ==> r == Completed(CreateFolderStep(st, now))
    ensures key == "Enter" && !st.isCreatingFolder && st.isCreatingNote ==> r == Completed(CreateNoteStep(st, now, createdAt))
    ensures key == "Enter" && st.isCreatingFolder ==> r.state.notes == st.notes
    ensures key == "Enter" && !st.isCreatingFolder && st.isCreatingNote ==> r.state.folders == st.folders
    ensures key == "Enter" && !st.isCreatingFolder && !st.isCreatingNote && st.isRenamingFolder ==> r == RenameFolderStep(st)
    ensures key == "Enter" && !st.isCreatingFolder && !st.isCreatingNote && !st.isRenamingFolder && st.isRenamingNote ==> r == RenameNoteStep(st)
  {
    if key != "Enter" then Completed(st)
    else if st.isCreatingFolder then Completed(CreateFolderStep(st, now))
    else if st.isCreatingNote then Completed(CreateNoteStep(st, now, createdAt))
    else if st.isRenamingFolder then RenameFolderStep(st)
    else if st.isRenamingNote then RenameNoteStep(st)
    else Completed(st)
  }

  /** handleNoteContentChange: store the editor's markup as the selected note's content; no-op without a selected note. */
  function NoteContentChangeStep(st: AppState, innerHtml: string): (r: AppState)
    ensures st.selectedNote.None? ==> r == st
    ensures st.selectedNote.Some? ==>
      && |r.notes| == |st.notes|
      && (forall i :: 0 <= i < |st.notes| && st.notes[i].id == st.selectedNote.value.id ==>
            r.notes[i] == st.notes[i].(content := innerHtml))
      && (forall i :: 0 <= i < |st.notes| && st.notes[i].id != st.selectedNote.value.id ==>
            r.notes[i] == st.notes[i])
      && r == st.(notes := r.notes)
  {
    if st.selectedNote.Some? then st.(notes := SetNoteContent(st.notes, st.selectedNote.value.id, innerHtml))
    else st
  }

  /** Clicking a folder in the sidebar selects that folder record. */
  function SelectFolderStep(st: AppState, f: Folder): (r: AppState)
    ensures r.selectedFolder == Some(f) && r == st.(selectedFolder := Some(f))
  {
    st.(selectedFolder := Some(f))
  }

  /** Clicking a note in the selected folder's list selects that note record. */
  function SelectNoteStep(st: AppState, n: Note): (r: AppState)
    ensures r.selectedNote == Some(n) && r == st.(selectedNote := Some(n))
  {
    st.(selectedNote := Some(n))
  }

  /** Creating a folder only appends a folder, so integrity and consistency are kept. */
  lemma CreateFolderKeepsConsistent(st: AppState, now: int)
    requires Integrity(st)
    ensures Integrity(CreateFolderStep(st, now)) && (Consistent(st) ==> Consistent(CreateFolderStep(st, now)))
    ensures FolderIds(CreateFolderStep(st, now).folders) <= FolderIds(st.folders) + {now}
  {
    var r := CreateFolderStep(st, now);
    if r != st {
      forall x | x in FolderIds(st.folders) ensures x in FolderIds(r.folders) {
        var f :| f in st.folders && f.id == x;
        assert f in r.folders;
      }
    }
  }

  /** A created note is attached to the selected folder, which is stored, so integrity and consistency are kept. */
  lemma CreateNoteKeepsConsistent(st: AppState, now: int, createdAt: string)
    requires Integrity(st)
    ensures Integrity(CreateNoteStep(st, now, createdAt)) && (Consistent(st) ==> Consistent(CreateNoteStep(st, now, createdAt)))
  {
  }

  /** The new note joins the end of the selected folder's list, and every other folder's list is unchanged. */
  lemma CreateNoteListsIt(st: AppState, now: int, createdAt: string)
    requires Trim(st.newNoteName) != [] && st.selectedFolder.Some?
    ensures var id := st.selectedFolder.value.id;
      NotesOf(CreateNoteStep(st, now, createdAt).notes, id)
        == NotesOf(st.notes, id) + [Note(now, id, Trim(st.newNoteName), "", createdAt)]
    ensures forall f :: f != st.selectedFolder.value.id ==>
      NotesOf(CreateNoteStep(st, now, createdAt).notes, f) == NotesOf(st.notes, f)
  {
    var n := Note(now, st.selectedFolder.value.id, Trim(st.newNoteName), "", createdAt);
    forall f ensures NotesOf(st.notes + [n], f) == NotesOf(st.notes, f) + if n.folderId == f then [n] else [] {
      NotesOfAppend(st.notes, n, f);
    }
  }

  /** Deleting a note removes notes and clears the selected note, so integrity and consistency are kept. */
  lemma DeleteNoteKeepsConsistent(st: AppState, noteId: int)
    requires Integrity(st)
    ensures Integrity(DeleteNoteStep(st, noteId)) && (Consistent(st) ==> Consistent(DeleteNoteStep(st, noteId)))
  {
  }

  /** Renaming a folder keeps every folder id, so a completed rename keeps integrity and consistency. */
  lemma RenameFolderKeepsConsistent(st: AppState)
    requires Integrity(st)
    ensures RenameFolderStep(st).Completed? ==>
      Integrity(RenameFolderStep(st).state) && (Consistent(st) ==> Consistent(RenameFolderStep(st).state))
  {
    var r := RenameFolderStep(st);
    if r.Completed? && Trim(st.newFolderNameForRename) != [] && st.folders != [] {
      RenameFoldersKeepsIds(st.folders, st.selectedFolder.value.id, Trim(st.newFolderNameForRename));
      assert FolderIds(r.state.folders) == FolderIds(st.folders);
    }
  }

  /** Renaming a note moves it to no other folder, so a completed rename keeps integrity and consistency. */
  lemma RenameNoteKeepsConsistent(st: AppState)
    requires Integrity(st)
    ensures RenameNoteStep(st).Completed? ==>
      Integrity(RenameNoteStep(st).state) && (Consistent(st) ==> Consistent(RenameNoteStep(st).state))
  {
    var r := RenameNoteStep(st);
    if r.Completed? && Trim(st.newNoteNameForRename) != [] && st.notes != [] {
      var ns := r.state.notes;
      forall n | n in ns ensures n.folderId in FolderIds(st.folders) {
        var i :| 0 <= i < |ns| && ns[i] == n;
        assert st.notes[i] in st.notes;
      }
    }
  }

  /** The Enter-key dispatcher keeps integrity, and keeps a consistent state consistent. */
  lemma KeyPressKeepsConsistent(st: AppState, key: string, now: int, createdAt: string)
    requires Integrity(st)
    ensures KeyPressStep(st, key, now, createdAt).Completed? ==>
      Integrity(KeyPressStep(st, key, now, createdAt).state) && (Consistent(st) ==> Consistent(KeyPressStep(st, key, now, createdAt).state))
  {
    CreateFolderKeepsConsistent(st, now);
    CreateNoteKeepsConsistent(st, now, createdAt);
    RenameFolderKeepsConsistent(st);
    RenameNoteKeepsConsistent(st);
  }

  /** Editing the selected note's content keeps integrity and consistency. */
  lemma NoteContentChangeKeepsConsistent(st: AppState, innerHtml: string)
    requires Integrity(st)
    ensures Integrity(NoteContentChangeStep(st, innerHtml)) && (Consistent(st) ==> Consistent(NoteContentChangeStep(st, innerHtml)))
  {
    if st.selectedNote.Some? {
      SetNoteContentKeepsIntegrity(st.folders, st.notes, st.selectedNote.value.id, innerHtml);
    }
  }

  /** Selecting a listed folder, or a note listed under the selected folder, yields a consistent state. */
  lemma SelectKeepsConsistent(st: AppState, f: Folder, n: Note)
    requires Integrity(st)
    ensures f in st.folders ==> Consistent(SelectFolderStep(st, f))
    ensures st.selectedFolder.Some? && n in NotesOf(st.notes, st.selectedFolder.value.id) ==>
      Integrity(SelectNoteStep(st, n)) && Consistent(SelectNoteStep(st, n))
  {
  }
}
