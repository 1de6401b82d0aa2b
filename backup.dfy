/**
 * `Backup.jsx`: the older copy of the notes app. Its handlers are the shared
 * steps of `NotesState` except deleteFolder, which here does not clear the
 * selected note, and its format buttons issue browser editing commands
 * (`document.execCommand`) instead of rewriting the document themselves.
 */
module Backup {
  import opened Wrappers
  import opened JsString
  import opened Records
  import opened NotesState
  import FolderManagementApp
  import opened TextEditorToolbar

  /**
   * deleteFolder as this file has it: the same filters and cascade, but only
   * the selected folder is cleared; the selected note is left as it was.
   */
  function DeleteFolderStep(st: AppState, folderId: int): (r: AppState)
    ensures forall f :: f in r.folders <==> f in st.folders && f.id != folderId
    ensures forall n :: n in r.notes <==> n in st.notes && n.folderId != folderId
    ensures r.selectedFolder == if st.selectedFolder.Some? && st.selectedFolder.value.id == folderId then None else st.selectedFolder
    ensures r.selectedNote == st.selectedNote
    ensures r == st.(folders := r.folders, notes := r.notes, selectedFolder := r.selectedFolder)
    ensures r.folders == FoldersWithout(st.folders, folderId) && r.notes == NotesOutside(st.notes, folderId)
  {
    var st' := st.(folders := FoldersWithout(st.folders, folderId),
                   notes := NotesOutside(st.notes, folderId));
    if st.selectedFolder.Some? && st.selectedFolder.value.id == folderId then
      st'.(selectedFolder := None)
    else st'
  }

  /** This deleteFolder keeps integrity (the cascade is the same as in the newer file). */
  lemma DeleteFolderStepKeepsIntegrity(st: AppState, folderId: int)
    requires Integrity(st)
    ensures Integrity(DeleteFolderStep(st, folderId))
  {
    Records.DeleteFolderKeepsIntegrity(st.folders, st.notes, folderId);
  }

  /**
   * Deleting the selected folder while one of its notes is selected leaves
   * that note selected although it is no longer stored: the editor goes on
   * showing a deleted note and no folder is selected.
   */
  lemma DeleteFolderStrandsSelectedNote()
    ensures
      var f := Folder(1, "Work");
      var n := Note(10, 1, "Todo", "", "2024-01-01T00:00:00.000Z");
      var st := Initial.(folders := [f], notes := [n], selectedFolder := Some(f), selectedNote := Some(n));
      var r := DeleteFolderStep(st, 1);
      && Consistent(st)
      && r.selectedFolder.None? && r.selectedNote == Some(n) && n !in r.notes
      && !Consistent(r)
  {
  }

  /**
   * The newer file's deleteFolder is this one followed by the effect that
   * clears the selected note whenever no folder is selected.
   */
  lemma NewerDeleteFolderAddsTheReset(st: AppState, folderId: int)
    requires Consistent(st)
    ensures FolderManagementApp.ResetSelectedNoteStep(DeleteFolderStep(st, folderId))
         == FolderManagementApp.DeleteFolderStep(st, folderId)
  {
  }

  /** A browser editing command: `document.execCommand(name, false, value)`. */
  datatype Command = Command(name: string, value: Option<string>)

  /**
   * The command applyFormatting issues for a format, given the two colour
   * inputs and the answer to the URL prompt (asked only for `link`).
   */
  function CommandFor(format: string, highlightColor: string, textColor: string, url: Option<string>): (c: Option<Command>)
    ensures c.Some? <==> IsToolbarFormat(format) && (format == "link" ==> Truthy(url))
    ensures format in {"bold", "italic", "underline", "insertUnorderedList", "insertOrderedList"} ==>
      c == Some(Command(format, None))
    ensures c.Some? && c.value.value.Some? <==> format in {"highlight", "color", "link"} && c.Some?
    ensures format == "highlight" ==> c == Some(Command("backColor", Some(highlightColor)))
    ensures format == "color" ==> c == Some(Command("foreColor", Some(textColor)))
    ensures format == "link" && Truthy(url) ==> c == Some(Command("createLink", url))
  {
    match format
    case "bold" => Some(Command(format, None))
    case "italic" => Some(Command(format, None))
    case "underline" => Some(Command(format, None))
    case "insertUnorderedList" => Some(Command(format, None))
    case "insertOrderedList" => Some(Command(format, None))
    case "highlight" => Some(Command("backColor", Some(highlightColor)))
    case "color" => Some(Command("foreColor", Some(textColor)))
    case "link" => if Truthy(url) then Some(Command("createLink", url)) else None
    case _ => None
  }

  /**
   * The older buttons and the newer toolbar agree on when formatting does
   * something visible: a command is issued exactly when the newer code
   * builds a styled span, an anchor or a list rather than a bare span.
   */
  lemma CommandsMatchWrappers(format: string, highlightColor: string, textColor: string, url: Option<string>)
    ensures CommandFor(format, highlightColor, textColor, url).Some?
        <==> WrapperFor(format, highlightColor, textColor, url) != SpanWith([])
  {
  }

  class App {
    var folders: seq<Folder>
    var notes: seq<Note>
    var newFolderName: string
    var isCreatingFolder: bool
    var isCreatingNote: bool
    var selectedFolder: Option<Folder>
    var selectedNote: Option<Note>
    var newNoteName: string
    var isRenamingFolder: bool
    var isRenamingNote: bool
    var newFolderNameForRename: string
    var newNoteNameForRename: string
    var highlightColor: string
    var textColor: string

    /** The notes part of the component's state as one value. */
    function State(): AppState
      reads this
    {
      AppState(folders, notes, newFolderName, isCreatingFolder, isCreatingNote, selectedFolder,
               selectedNote, newNoteName, isRenamingFolder, isRenamingNote,
               newFolderNameForRename, newNoteNameForRename)
    }

    /** This file keeps integrity only: its deleteFolder can leave a note selected without a folder. */
    ghost predicate Valid()
      reads this
    {
      Integrity(State())
    }

    constructor ()
      ensures State() == Initial && Valid()
      ensures highlightColor == "#FFFF00" && textColor == "#000000"
    {
      folders, notes := [], [];
      newFolderName, newNoteName := "", "";
      isCreatingFolder, isCreatingNote := false, false;
      selectedFolder, selectedNote := None, None;
      isRenamingFolder, isRenamingNote := false, false;
      newFolderNameForRename, newNoteNameForRename := "", "";
      highlightColor, textColor := "#FFFF00", "#000000";
    }

    method CreateFolder(now: int)
      requires Valid()
      modifies this
      ensures State() == CreateFolderStep(old(State()), now) && Valid()
      ensures highlightColor == old(highlightColor) && textColor == old(textColor)
    {
      CreateFolderKeepsConsistent(State(), now);
      var name := Trim(newFolderName);
      if name != "" {
        var newFolder := Folder(now, name);
        folders := folders + [newFolder];
        newFolderName := "";
        isCreatingFolder := false;
      }
    }

    method CreateNote(now: int, createdAt: string)
      requires Valid()
      modifies this
      ensures State() == CreateNoteStep(old(State()), now, createdAt) && Valid()
      ensures highlightColor == old(highlightColor) && textColor == old(textColor)
    {
      CreateNoteKeepsConsistent(State(), now, createdAt);
      var name := Trim(newNoteName);
      if name != "" && selectedFolder.Some? {
        var newNote := Note(now, selectedFolder.value.id, name, "", createdAt);
        notes := notes + [newNote];
        newNoteName := "";
        isCreatingNote := false;
      }
    }

    method DeleteFolder(folderId: int)
      requires Valid()
      modifies this
      ensures State() == DeleteFolderStep(old(State()), folderId) && Valid()
      ensures highlightColor == old(highlightColor) && textColor == old(textColor)
    {
      DeleteFolderStepKeepsIntegrity(State(), folderId);
      var updatedFolders := FoldersWithout(folders, folderId);
      folders := updatedFolders;
      notes := NotesOutside(notes, folderId);
      if selectedFolder.Some? && selectedFolder.value.id == folderId {
        selectedFolder := None;
      }
    }

    method DeleteNote(noteId: int)
      requires Valid()
      modifies this
      ensures State() == DeleteNoteStep(old(State()), noteId) && Valid()
      ensures highlightColor == old(highlightColor) && textColor == old(textColor)
    {
      notes := NotesWithout(notes, noteId);
      selectedNote := None;
    }

    method RenameFolder() returns (threw: bool)
      requires Valid()
      modifies this
      ensures threw == RenameFolderStep(old(State())).Threw?
      ensures State() == if threw then old(State()) else RenameFolderStep(old(State())).state
      ensures Valid()
      ensures highlightColor == old(highlightColor) && textColor == old(textColor)
    {
      RenameFolderKeepsConsistent(State());
      threw := false;
      var name := Trim(newFolderNameForRename);
      if name != "" {
        if selectedFolder.None? && folders != [] {
          threw := true;
          return;
        }
        if selectedFolder.Some? {
          folders := RenameFolders(folders, selectedFolder.value.id, name);
        }
        newFolderNameForRename := "";
        isRenamingFolder := false;
      }
    }

    method RenameNote() returns (threw: bool)
      requires Valid()
      modifies this
      ensures threw == RenameNoteStep(old(State())).Threw?
      ensures State() == if threw then old(State()) else RenameNoteStep(old(State())).state
      ensures Valid()
      ensures highlightColor == old(highlightColor) && textColor == old(textColor)
    {
      RenameNoteKeepsConsistent(State());
      threw := false;
      var name := Trim(newNoteNameForRename);
      if name != "" {
        if selectedNote.None? && notes != [] {
          threw := true;
          return;
        }
        if selectedNote.Some? {
          notes := RenameNotes(notes, selectedNote.value.id, name);
        }
        newNoteNameForRename := "";
        isRenamingNote := false;
      }
    }

    method HandleKeyPress(key: string, now: int, createdAt: string) returns (threw: bool)
      requires Valid()
      modifies this
      ensures threw == KeyPressStep(old(State()), key, now, createdAt).Threw?
      ensures State() == if threw then old(State()) else KeyPressStep(old(State()), key, now, createdAt).state
      ensures Valid()
      ensures highlightColor == old(highlightColor) && textColor == old(textColor)
    {
      threw := false;
      if key == "Enter" {
        if isCreatingFolder {
          CreateFolder(now);
        } else if isCreatingNote {
          CreateNote(now, createdAt);
        } else if isRenamingFolder {
          threw := RenameFolder();
        } else if isRenamingNote {
          threw := RenameNote();
        }
      }
    }

    method HandleNoteContentChange(innerHtml: string)
      requires Valid()
      modifies this
      ensures State() == NoteContentChangeStep(old(State()), innerHtml) && Valid()
      ensures highlightColor == old(highlightColor) && textColor == old(textColor)
    {
      NoteContentChangeKeepsConsistent(State(), innerHtml);
      if selectedNote.Some? {
        var updatedNotes := SetNoteContent(notes, selectedNote.value.id, innerHtml);
        notes := updatedNotes;
      }
    }

    /** Clicking a folder in the sidebar selects it. */
    method SelectFolder(folder: Folder)
      requires Valid() && folder in folders
      modifies this
      ensures State() == SelectFolderStep(old(State()), folder) && Valid()
      ensures highlightColor == old(highlightColor) && textColor == old(textColor)
    {
      selectedFolder := Some(folder);
    }

    /** Clicking a note of the selected folder's list selects it. */
    method SelectNote(note: Note)
      requires Valid() && selectedFolder.Some? && note in NotesOf(notes, selectedFolder.value.id)
      modifies this
      ensures State() == SelectNoteStep(old(State()), note) && Valid()
      ensures highlightColor == old(highlightColor) && textColor == old(textColor)
    {
      selectedNote := Some(note);
    }

    /**
     * applyFormatting: the command handed to `document.execCommand`, if any,
     * and whether focus goes back to the editor, which it always does.
     */
    method ApplyFormatting(format: string, url: Option<string>) returns (command: Option<Command>, refocus: bool)
      ensures command.Some? <==> IsToolbarFormat(format) && (format == "link" ==> Truthy(url))
      ensures command == CommandFor(format, highlightColor, textColor, url)
      ensures refocus
    {
      command := CommandFor(format, highlightColor, textColor, url);
      refocus := true;
    }
  }
}
