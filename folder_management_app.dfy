/**
 * `FolderManagementApp.jsx`: the notes app's component. Its state lives in
 * the fields of `App`; each handler is a method that updates those fields
 * as the shared step functions of `NotesState` (and, for deleteFolder, this
 * module's own `DeleteFolderStep`) say.
 */
module FolderManagementApp {
  import opened Wrappers
  import opened JsString
  import opened Records
  import opened NotesState

  /**
   * deleteFolder: drop the folders with the id and every note filed under it;
   * when the deleted folder is the selected one, clear both the selected
   * folder and the selected note.
   */
  function DeleteFolderStep(st: AppState, folderId: int): (r: AppState)
    ensures forall f :: f in r.folders <==> f in st.folders && f.id != folderId
    ensures forall n :: n in r.notes <==> n in st.notes && n.folderId != folderId
    ensures st.selectedFolder.Some? && st.selectedFolder.value.id == folderId ==>
      r.selectedFolder.None? && r.selectedNote.None?
    ensures !(st.selectedFolder.Some? && st.selectedFolder.value.id == folderId) ==>
      r.selectedFolder == st.selectedFolder && r.selectedNote == st.selectedNote
    ensures r == st.(folders := r.folders, notes := r.notes,
                     selectedFolder := r.selectedFolder, selectedNote := r.selectedNote)
    ensures r.folders == FoldersWithout(st.folders, folderId) && r.notes == NotesOutside(st.notes, folderId)
  {
    var st' := st.(folders := FoldersWithout(st.folders, folderId),
                   notes := NotesOutside(st.notes, folderId));
    if st.selectedFolder.Some? && st.selectedFolder.value.id == folderId then
      st'.(selectedFolder := None, selectedNote := None)
    else st'
  }

  /** The effect on `selectedFolder`: whenever no folder is selected, no note is either. */
  function ResetSelectedNoteStep(st: AppState): (r: AppState)
    ensures r.selectedFolder.None? ==> r.selectedNote.None?
    ensures st.selectedFolder.Some? ==> r == st
    ensures r == st.(selectedNote := r.selectedNote)
  {
    if st.selectedFolder.None? then st.(selectedNote := None) else st
  }

  /** Deleting a folder keeps integrity, and clearing both selections together keeps consistency. */
  lemma DeleteFolderKeepsConsistent(st: AppState, folderId: int)
    requires Integrity(st)
    ensures Integrity(DeleteFolderStep(st, folderId))
    ensures Consistent(st) ==> Consistent(DeleteFolderStep(st, folderId))
    ensures st.selectedFolder.Some? && st.selectedFolder.value.id == folderId ==> Consistent(DeleteFolderStep(st, folderId))
  {
    DeleteFolderKeepsIntegrity(st.folders, st.notes, folderId);
  }

  /**
   * The cascade empties the deleted folder: afterwards no note is filed under
   * its id, and exactly its badge count of notes is gone.
   */
  lemma DeleteFolderEmptiesIt(st: AppState, folderId: int)
    ensures NotesOf(DeleteFolderStep(st, folderId).notes, folderId) == []
    ensures |DeleteFolderStep(st, folderId).notes| == |st.notes| - NoteCount(st.notes, folderId)
  {
    assert NoteCount(DeleteFolderStep(st, folderId).notes, folderId) == 0;
    NotesPartition(st.notes, folderId);
  }

  /** The cascade spares the rest: every other folder's note list (and so its badge) is exactly as before. */
  lemma DeleteFolderCascade(st: AppState, folderId: int, other: int)
    requires other != folderId
    ensures NotesOf(DeleteFolderStep(st, folderId).notes, other) == NotesOf(st.notes, other)
  {
    CascadeSparesOtherFolders(st.notes, folderId, other);
  }

  /** On a consistent state the effect has nothing left to do: deleteFolder has already cleared the note. */
  lemma ResetSelectedNoteIsIdle(st: AppState)
    requires Consistent(st)
    ensures ResetSelectedNoteStep(st) == st
  {
  }

  /**
   * Selecting a folder does not clear the selected note, so the selected note
   * can belong to another folder; deleting that other folder removes the
   * note from the list but leaves it selected.
   */
  lemma DeletingAnotherFolderKeepsItsNoteSelected()
    ensures
      var work := Folder(1, "Work");
      var home := Folder(2, "Home");
      var n := Note(10, 1, "Todo", "", "2024-01-01T00:00:00.000Z");
      var st := SelectFolderStep(SelectNoteStep(SelectFolderStep(
                  Initial.(folders := [work, home], notes := [n]), work), n), home);
      var r := DeleteFolderStep(st, 1);
      && Consistent(st) && Consistent(r)
      && r.selectedNote == Some(n) && n !in r.notes
  {
  }

  /**
   * The selected folder is a copy of the record taken when it was clicked:
   * renaming it updates the stored record, while the selection (whose name
   * the notes pane shows as its heading) keeps the old name.
   */
  lemma RenameLeavesSelectionStale()
    ensures
      var f := Folder(1, "Work");
      var st := SelectFolderStep(Initial.(folders := [f]), f).(isRenamingFolder := true, newFolderNameForRename := "Jobs");
      var r := KeyPressStep(st, "Enter", 0, "");
      && r.Completed?
      && r.state.folders == [Folder(1, "Jobs")]
      && r.state.selectedFolder == Some(Folder(1, "Work"))
  {
    var f := Folder(1, "Work");
    var st := SelectFolderStep(Initial.(folders := [f]), f).(isRenamingFolder := true, newFolderNameForRename := "Jobs");
    assert LeadingSpace("Jobs") == 0 && TrailingSpace("Jobs") == 0;
    assert Trim("Jobs") == "Jobs";
  }

  class App {
    var folders: seq<Folder>
    var notes: seq<Note>
    var newFolderName: string
    var isCreatingFolder: bool
    var isCreatingNote: bool
    var selectedFolder: Option<Folder>
    var selectedNote: Option<Note>
    var newNoteName: string
    var isRenamingFolder: bool
    var isRenamingNote: bool
    var newFolderNameForRename: string
    var newNoteNameForRename: string

    /** The component's state as one value. */
    function State(): AppState
      reads this
    {
      AppState(folders, notes, newFolderName, isCreatingFolder, isCreatingNote, selectedFolder,
               selectedNote, newNoteName, isRenamingFolder, isRenamingNote,
               newFolderNameForRename, newNoteNameForRename)
    }

    ghost predicate Valid()
      reads this
    {
      Consistent(State())
    }

    constructor ()
      ensures State() == Initial && Valid()
    {
      folders, notes := [], [];
      newFolderName, newNoteName := "", "";
      isCreatingFolder, isCreatingNote := false, false;
      selectedFolder, selectedNote := None, None;
      isRenamingFolder, isRenamingNote := false, false;
      newFolderNameForRename, newNoteNameForRename := "", "";
    }

    method CreateFolder(now: int)
      requires Valid()
      modifies this
      ensures State() == CreateFolderStep(old(State()), now) && Valid()
    {
      CreateFolderKeepsConsistent(State(), now);
      var name := Trim(newFolderName);
      if name != "" {
        var newFolder := Folder(now, name);
        folders := folders + [newFolder];
        newFolderName := "";
        isCreatingFolder := false;
      }
    }

    method CreateNote(now: int, createdAt: string)
      requires Valid()
      modifies this
      ensures State() == CreateNoteStep(old(State()), now, createdAt) && Valid()
    {
      CreateNoteKeepsConsistent(State(), now, createdAt);
      var name := Trim(newNoteName);
      if name != "" && selectedFolder.Some? {
        var newNote := Note(now, selectedFolder.value.id, name, "", createdAt);
        notes := notes + [newNote];
        newNoteName := "";
        isCreatingNote := false;
      }
    }

    method DeleteFolder(folderId: int)
      requires Valid()
      modifies this
      ensures State() == DeleteFolderStep(old(State()), folderId) && Valid()
    {
      DeleteFolderKeepsConsistent(State(), folderId);
      var updatedFolders := FoldersWithout(folders, folderId);
      folders := updatedFolders;
      notes := NotesOutside(notes, folderId);
      if selectedFolder.Some? && selectedFolder.value.id == folderId {
        selectedFolder := None;
        selectedNote := None;
      }
    }

    method DeleteNote(noteId: int)
      requires Valid()
      modifies this
      ensures State() == DeleteNoteStep(old(State()), noteId) && Valid()
    {
      notes := NotesWithout(notes, noteId);
      selectedNote := None;
    }

    method RenameFolder() returns (threw: bool)
      requires Valid()
      modifies this
      ensures threw == RenameFolderStep(old(State())).Threw?
      ensures State() == if threw then old(State()) else RenameFolderStep(old(State())).state
      ensures Valid()
    {
      RenameFolderKeepsConsistent(State());
      threw := false;
      var name := Trim(newFolderNameForRename);
      if name != "" {
        if selectedFolder.None? && folders != [] {
          threw := true;
          return;
        }
        if selectedFolder.Some? {
          folders := RenameFolders(folders, selectedFolder.value.id, name);
        }
        newFolderNameForRename := "";
        isRenamingFolder := false;
      }
    }

    method RenameNote() returns (threw: bool)
      requires Valid()
      modifies this
      ensures threw == RenameNoteStep(old(State())).Threw?
      ensures State() == if threw then old(State()) else RenameNoteStep(old(State())).state
      ensures Valid()
    {
      RenameNoteKeepsConsistent(State());
      threw := false;
      var name := Trim(newNoteNameForRename);
      if name != "" {
        if selectedNote.None? && notes != [] {
          threw := true;
          return;
        }
        if selectedNote.Some? {
          notes := RenameNotes(notes, selectedNote.value.id, name);
        }
        newNoteNameForRename := "";
        isRenamingNote := false;
      }
    }

    method HandleKeyPress(key: string, now: int, createdAt: string) returns (threw: bool)
      requires Valid()
      modifies this
      ensures threw == KeyPressStep(old(State()), key, now, createdAt).Threw?
      ensures State() == if threw then old(State()) else KeyPressStep(old(State()), key, now, createdAt).state
      ensures Valid()
    {
      threw := false;
      if key == "Enter" {
        if isCreatingFolder {
          CreateFolder(now);
        } else if isCreatingNote {
          CreateNote(now, createdAt);
        } else if isRenamingFolder {
          threw := RenameFolder();
        } else if isRenamingNote {
          threw := RenameNote();
        }
      }
    }

    method HandleNoteContentChange(innerHtml: string)
      requires Valid()
      modifies this
      ensures State() == NoteContentChangeStep(old(State()), innerHtml) && Valid()
    {
      NoteContentChangeKeepsConsistent(State(), innerHtml);
      if selectedNote.Some? {
        var updatedNotes := SetNoteContent(notes, selectedNote.value.id, innerHtml);
        notes := updatedNotes;
      }
    }

    method SelectFolder(folder: Folder)
      requires Valid() && folder in folders
      modifies this
      ensures State() == SelectFolderStep(old(State()), folder) && Valid()
    {
      selectedFolder := Some(folder);
    }

    method SelectNote(note: Note)
      requires Valid() && selectedFolder.Some? && note in NotesOf(notes, selectedFolder.value.id)
      modifies this
      ensures State() == SelectNoteStep(old(State()), note) && Valid()
    {
      selectedNote := Some(note);
    }

    method ResetSelectedNote()
      requires Valid()
      modifies this
      ensures State() == ResetSelectedNoteStep(old(State())) && Valid()
    {
      if selectedFolder.None? {
        selectedNote := None;
      }
    }
  }
}
