/**
 * Lesson notes: the note view model's list, loading flag and error
 * message, and how loading, saving and deleting change them.  The store's
 * answers are parameters: the fetched list (empty when the query fails),
 * the id a new document gets, and whether a write succeeded.
 */
module Notes {
  import opened Wrappers
  import opened Seqs

  datatype Note = Note(id: string, lessonId: string, userId: string, title: string, content: string, createdAt: int)

  /** The outcome of a write to the store; a failure carries the exception's message, which may be null. */
  datatype Write = Written | WriteFailed(message: Option<string>)

  datatype NotesState = NotesState(notes: seq<Note>, isLoading: bool, error: Option<string>,
                                   currentLessonId: Option<string>, currentUserId: Option<string>)

  const InitialState := NotesState([], false, None, None, None)

  /**
   * `loadNotes`: a no-op for the (user, lesson) pair last loaded;
   * otherwise the pair is remembered and the list becomes the fetched one.
   */
  function LoadNotes(st: NotesState, userId: string, lessonId: string, fetched: seq<Note>): (r: NotesState)
    ensures st.currentLessonId == Some(lessonId) && st.currentUserId == Some(userId) ==> r == st
    ensures !(st.currentLessonId == Some(lessonId) && st.currentUserId == Some(userId)) ==>
              r == NotesState(fetched, false, st.error, Some(lessonId), Some(userId))
  {
    if st.currentLessonId == Some(lessonId) && st.currentUserId == Some(userId) then st
    else NotesState(fetched, false, st.error, Some(lessonId), Some(userId))
  }

  /** Loading the same lesson again changes nothing, whatever the store would now return. */
  lemma LoadNotesOnce(st: NotesState, userId: string, lessonId: string, fetched: seq<Note>, later: seq<Note>)
    ensures LoadNotes(LoadNotes(st, userId, lessonId, fetched), userId, lessonId, later) ==
            LoadNotes(st, userId, lessonId, fetched)
  {
  }

  /** The note the store saves: a new id when the note has none, its own id otherwise. */
  function SavedNote(note: Note, freshId: string): (r: Note)
    ensures r.id == (if note.id == "" then freshId else note.id)
    ensures r.(id := note.id) == note
  {
    note.(id := if note.id == "" then freshId else note.id)
  }

  /** The list after a successful save: the first note with the id replaced in place, else the note put first. */
  function PutNote(notes: seq<Note>, saved: Note): (r: seq<Note>)
    ensures var i := IndexWhere(notes, (n: Note) => n.id == saved.id);
            if i >= 0 then
              |r| == |notes| && r[i] == saved && forall k :: 0 <= k < |notes| && k != i ==> r[k] == notes[k]
            else
              |r| == |notes| + 1 && r[0] == saved && r[1..] == notes
  {
    var i := IndexWhere(notes, (n: Note) => n.id == saved.id);
    if i >= 0 then notes[i := saved] else [saved] + notes
  }

  /** A save that succeeded puts the saved note; a failed one records the message; loading ends either way. */
  function SaveNote(st: NotesState, note: Note, freshId: string, w: Write): (r: NotesState)
    ensures !r.isLoading
    ensures r.currentLessonId == st.currentLessonId && r.currentUserId == st.currentUserId
    ensures w.Written? ==> r.notes == PutNote(st.notes, SavedNote(note, freshId)) && r.error == st.error
    ensures w.WriteFailed? ==> r.notes == st.notes && r.error == w.message
  {
    match w
    case Written => st.(notes := PutNote(st.notes, SavedNote(note, freshId)), isLoading := false)
    case WriteFailed(m) => st.(error := m, isLoading := false)
  }

  /** A delete that succeeded drops every note with the id; a failed one records the message. */
  function DeleteNote(st: NotesState, noteId: string, w: Write): (r: NotesState)
    ensures !r.isLoading
    ensures r.currentLessonId == st.currentLessonId && r.currentUserId == st.currentUserId
    ensures w.Written? ==> r.error == st.error && IsSubsequence(r.notes, st.notes) &&
                           forall x :: x in r.notes <==> x in st.notes && x.id != noteId
    ensures w.WriteFailed? ==> r.notes == st.notes && r.error == w.message
  {
    match w
    case Written => st.(notes := Filter(st.notes, (n: Note) => n.id != noteId), isLoading := false)
    case WriteFailed(m) => st.(error := m, isLoading := false)
  }

  /** `clearError`: the message goes, nothing else changes. */
  function ClearError(st: NotesState): (r: NotesState)
    ensures r.error.None? && r.(error := st.error) == st
  {
    st.(error := None)
  }

  lemma {:induction false} FilterUpdateRejected<T(!new)>(s: seq<T>, i: int, x: T, p: T -> bool)
    requires 0 <= i < |s| && !p(s[i]) && !p(x)
    ensures Filter(s[i := x], p) == Filter(s, p)
    decreases |s|
  {
    if i > 0 {
      FilterUpdateRejected(s[1..], i - 1, x, p);
      assert s[i := x][1..] == s[1..][i - 1 := x];
    } else {
      assert s[i := x][1..] == s[1..];
    }
  }

  /** Deleting a note just saved leaves the list as deleting it would have left it before the save. */
  lemma DeleteUndoesSave(st: NotesState, note: Note, freshId: string)
    ensures var saved := SavedNote(note, freshId);
            DeleteNote(SaveNote(st, note, freshId, Written), saved.id, Written).notes ==
            DeleteNote(st, saved.id, Written).notes
  {
    var saved := SavedNote(note, freshId);
    var p := (n: Note) => n.id != saved.id;
    var i := IndexWhere(st.notes, (n: Note) => n.id == saved.id);
    if i >= 0 {
      FilterUpdateRejected(st.notes, i, saved, p);
    } else {
      FilterConcat([saved], st.notes, p);
    }
  }

  /** Saving a note twice gives the same list as saving it once. */
  lemma SaveIdempotent(st: NotesState, note: Note, freshId: string)
    requires note.id != ""
    ensures var once := SaveNote(st, note, freshId, Written);
            SaveNote(once, note, freshId, Written) == once
  {
    var saved := SavedNote(note, freshId);
    var notes := PutNote(st.notes, saved);
    var i := IndexWhere(st.notes, (n: Note) => n.id == saved.id);
    var j := IndexWhere(notes, (n: Note) => n.id == saved.id);
    if i >= 0 {
      assert forall k :: 0 <= k < i ==> notes[k] == st.notes[k];
      assert j == i;
    } else {
      assert j == 0;
    }
    assert PutNote(notes, saved) == notes;
  }
}
