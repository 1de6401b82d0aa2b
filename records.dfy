/**
 * The two record kinds the notes app keeps in its component state and the
 * list transformations its handlers apply to them: `Array.prototype.filter`
 * by id or by folder id, and `Array.prototype.map` with an object spread
 * that rewrites one field of the records whose id matches.
 */
module Records {

  /** A folder record `{ id, name }`; the id is `Date.now()` at creation. */
  datatype Folder = Folder(id: int, name: string)

  /** A note record `{ id, folderId, name, content, createdAt }`. */
  datatype Note = Note(id: int, folderId: int, name: string, content: string, createdAt: string)

  /** `s.filter(keep)`: the elements that satisfy `keep`, in their original order. */
  function Filter<T(!new)>(s: seq<T>, keep: T -> bool): (r: seq<T>)
    ensures |r| <= |s|
    ensures forall x :: x in r <==> x in s && keep(x)
    ensures forall i :: 0 <= i < |r| ==> keep(r[i])
  {
    if s == [] then []
    else if keep(s[0]) then [s[0]] + Filter(s[1..], keep)
    else Filter(s[1..], keep)
  }

  /** Filtering distributes over concatenation: what survives keeps its relative order. */
  lemma {:induction false} FilterAppend<T(!new)>(a: seq<T>, b: seq<T>, keep: T -> bool)
    ensures Filter(a + b, keep) == Filter(a, keep) + Filter(b, keep)
  {
    if a == [] {
      assert a + b == b;
    } else {
      assert (a + b)[1..] == a[1..] + b;
      FilterAppend(a[1..], b, keep);
    }
  }

  /** A filter that rejects nothing returns the list unchanged. */
  lemma {:induction false} FilterKeepsAll<T(!new)>(s: seq<T>, keep: T -> bool)
    requires forall x :: x in s ==> keep(x)
    ensures Filter(s, keep) == s
  {
    if s != [] {
      FilterKeepsAll(s[1..], keep);
    }
  }

  /** The ids of a folder list. */
  function FolderIds(folders: seq<Folder>): set<int> {
    set f | f in folders :: f.id
  }

  /** Referential integrity: every note's `folderId` names a stored folder. */
  predicate NotesResolve(folders: seq<Folder>, notes: seq<Note>) {
    forall n :: n in notes ==> n.folderId in FolderIds(folders)
  }

  /** `folders.filter(folder => folder.id !== id)` (deleteFolder). */
  function FoldersWithout(folders: seq<Folder>, id: int): (r: seq<Folder>)
    ensures forall f :: f in r <==> f in folders && f.id != id
    ensures FolderIds(r) == FolderIds(folders) - {id}
  {
    var r := Filter(folders, (f: Folder) => f.id != id);
    assert forall x :: x in FolderIds(folders) - {id} ==> x in FolderIds(r) by {
      forall x | x in FolderIds(folders) - {id} ensures x in FolderIds(r) {
        var f :| f in folders && f.id == x;
        assert f in r;
      }
    }
    r
  }

  /** `notes.filter(note => note.id !== id)` (deleteNote). */
  function NotesWithout(notes: seq<Note>, id: int): (r: seq<Note>)
    ensures forall n :: n in r <==> n in notes && n.id != id
  {
    Filter(notes, (n: Note) => n.id != id)
  }

  /** `notes.filter(note => note.folderId !== folderId)`: the cascade of deleteFolder. */
  function NotesOutside(notes: seq<Note>, folderId: int): (r: seq<Note>)
    ensures forall n :: n in r <==> n in notes && n.folderId != folderId
  {
    Filter(notes, (n: Note) => n.folderId != folderId)
  }

  /** A filter keeps list order around any one element. */
  lemma {:induction false} FilterKeepsOrder<T(!new)>(a: seq<T>, x: T, b: seq<T>, keep: T -> bool)
    ensures Filter(a + [x] + b, keep) == Filter(a, keep) + (if keep(x) then [x] else []) + Filter(b, keep)
  {
    assert Filter([x], keep) == if keep(x) then [x] else [] by {
      assert [x][1..] == [];
    }
    FilterAppend(a, [x], keep);
    FilterAppend(a + [x], b, keep);
  }

  /** Removing folders by id keeps the survivors in their original order. */
  lemma FoldersWithoutKeepsOrder(a: seq<Folder>, f: Folder, b: seq<Folder>, id: int)
    ensures FoldersWithout(a + [f] + b, id) ==
      FoldersWithout(a, id) + (if f.id != id then [f] else []) + FoldersWithout(b, id)
  {
    FilterKeepsOrder(a, f, b, (g: Folder) => g.id != id);
  }

  /** Removing a folder's notes keeps the other notes in their original order. */
  lemma NotesOutsideKeepsOrder(a: seq<Note>, n: Note, b: seq<Note>, folderId: int)
    ensures NotesOutside(a + [n] + b, folderId) ==
      NotesOutside(a, folderId) + (if n.folderId != folderId then [n] else []) + NotesOutside(b, folderId)
  {
    FilterKeepsOrder(a, n, b, (m: Note) => m.folderId != folderId);
  }

  /** `notes.filter(note => note.folderId === folderId)`: the notes listed, and counted, for one folder. */
  function NotesOf(notes: seq<Note>, folderId: int): (r: seq<Note>)
    ensures forall n :: n in r <==> n in notes && n.folderId == folderId
  {
    Filter(notes, (n: Note) => n.folderId == folderId)
  }

  /** The badge shown beside a folder: `notes.filter(...).length`. */
  function NoteCount(notes: seq<Note>, folderId: int): (c: nat)
    ensures c <= |notes|
    ensures c == 0 <==> forall n :: n in notes ==> n.folderId != folderId
  {
    var r := NotesOf(notes, folderId);
    assert r != [] ==> r[0] in r;
    |r|
  }

  /** `folders.map(f => f.id === id ? { ...f, name } : f)` (renameFolder). */
  function RenameFolders(folders: seq<Folder>, id: int, name: string): (r: seq<Folder>)
    ensures |r| == |folders|
    ensures forall i :: 0 <= i < |r| ==> r[i].id == folders[i].id
    ensures forall i :: 0 <= i < |r| && folders[i].id == id ==> r[i].name == name
    ensures forall i :: 0 <= i < |r| && folders[i].id != id ==> r[i] == folders[i]
  {
    seq(|folders|, i requires 0 <= i < |folders| =>
      if folders[i].id == id then folders[i].(name := name) else folders[i])
  }

  /** `notes.map(n => n.id === id ? { ...n, name } : n)` (renameNote). */
  function RenameNotes(notes: seq<Note>, id: int, name: string): (r: seq<Note>)
    ensures |r| == |notes|
    ensures forall i :: 0 <= i < |r| && notes[i].id == id ==> r[i] == notes[i].(name := name)
    ensures forall i :: 0 <= i < |r| && notes[i].id != id ==> r[i] == notes[i]
  {
    seq(|notes|, i requires 0 <= i < |notes| =>
      if notes[i].id == id then notes[i].(name := name) else notes[i])
  }

  /** `notes.map(n => n.id === id ? { ...n, content } : n)` (handleNoteContentChange). */
  function SetNoteContent(notes: seq<Note>, id: int, content: string): (r: seq<Note>)
    ensures |r| == |notes|
    ensures forall i :: 0 <= i < |r| && notes[i].id == id ==> r[i] == notes[i].(content := content)
    ensures forall i :: 0 <= i < |r| && notes[i].id != id ==> r[i] == notes[i]
  {
    seq(|notes|, i requires 0 <= i < |notes| =>
      if notes[i].id == id then notes[i].(content := content) else notes[i])
  }

  /** A folder's notes and the notes outside it split the note list: nothing is lost or duplicated. */
  lemma {:induction false} NotesPartition(notes: seq<Note>, folderId: int)
    ensures multiset(NotesOf(notes, folderId)) + multiset(NotesOutside(notes, folderId)) == multiset(notes)
    ensures |NotesOf(notes, folderId)| + |NotesOutside(notes, folderId)| == |notes|
  {
    if notes != [] {
      NotesPartition(notes[1..], folderId);
      assert notes == [notes[0]] + notes[1..];
    }
  }

  /** The delete cascade leaves the note list of every other folder exactly as it was. */
  lemma {:induction false} CascadeSparesOtherFolders(notes: seq<Note>, folderId: int, other: int)
    requires other != folderId
    ensures NotesOf(NotesOutside(notes, folderId), other) == NotesOf(notes, other)
  {
    if notes != [] {
      CascadeSparesOtherFolders(notes[1..], folderId, other);
    }
  }

  /** Appending a note adds it to its own folder's list, at the end, and to no other list. */
  lemma NotesOfAppend(notes: seq<Note>, n: Note, folderId: int)
    ensures NotesOf(notes + [n], folderId)
         == NotesOf(notes, folderId) + if n.folderId == folderId then [n] else []
  {
    FilterAppend(notes, [n], (m: Note) => m.folderId == folderId);
  }

  /** Renaming folders keeps the set of folder ids. */
  lemma RenameFoldersKeepsIds(folders: seq<Folder>, id: int, name: string)
    ensures FolderIds(RenameFolders(folders, id, name)) == FolderIds(folders)
  {
    var r := RenameFolders(folders, id, name);
    forall x | x in FolderIds(folders) ensures x in FolderIds(r) {
      var i :| 0 <= i < |folders| && folders[i].id == x;
      assert r[i] in r;
    }
    forall x | x in FolderIds(r) ensures x in FolderIds(folders) {
      var i :| 0 <= i < |r| && r[i].id == x;
      assert folders[i] in folders;
    }
  }

  /** Renaming the same folder twice leaves only the second name. */
  lemma RenameFoldersLastWins(folders: seq<Folder>, id: int, first: string, second: string)
    ensures RenameFolders(RenameFolders(folders, id, first), id, second) == RenameFolders(folders, id, second)
  {
  }

  /** Renaming notes moves no note between folders: every folder keeps its note count. */
  lemma {:induction false} RenameNotesKeepsCounts(notes: seq<Note>, id: int, name: string, folderId: int)
    ensures NoteCount(RenameNotes(notes, id, name), folderId) == NoteCount(notes, folderId)
  {
    if notes != [] {
      var r := RenameNotes(notes, id, name);
      assert r[1..] == RenameNotes(notes[1..], id, name);
      RenameNotesKeepsCounts(notes[1..], id, name, folderId);
      assert r[0].folderId == notes[0].folderId;
    }
  }

  /** Rewriting a note's content keeps every note in its folder and keeps integrity. */
  lemma SetNoteContentKeepsIntegrity(folders: seq<Folder>, notes: seq<Note>, id: int, content: string)
    requires NotesResolve(folders, notes)
    ensures NotesResolve(folders, SetNoteContent(notes, id, content))
  {
    var r := SetNoteContent(notes, id, content);
    forall n | n in r ensures n.folderId in FolderIds(folders) {
      var i :| 0 <= i < |r| && r[i] == n;
      assert notes[i] in notes;
    }
  }

  /** Deleting a folder with its cascade keeps every remaining note attached to a remaining folder. */
  lemma DeleteFolderKeepsIntegrity(folders: seq<Folder>, notes: seq<Note>, id: int)
    requires NotesResolve(folders, notes)
    ensures NotesResolve(FoldersWithout(folders, id), NotesOutside(notes, id))
    ensures NoteCount(NotesOutside(notes, id), id) == 0
  {
  }
}
