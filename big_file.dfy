/** The single-file view, client/src/components/BigFile.js: the file's slot
    position can be saved, and notes can be added to and deleted from the
    file, the local list following each successful answer. */
module BigFile {
  import opened JsValues
  import opened Strings
  import opened Mongo
  import opened Client

  /** A note as the client builds it: the trimmed text, a fresh `uniqueId`
      and the ISO time it was written. */
  datatype Note = Note(note: string, uniqueId: string, createdAt: string)

  /** The longest note the text area accepts. */
  const MaxNote := 180

  /** The bodies of the requests. */
  datatype SlotUpdate = SlotUpdate(userId: string, projectId: string, fileId: string, slotPosition: string)
  datatype AddNote = AddNote(userId: string, projectId: string, fileId: string, noteObject: Note)
  datatype DeleteNote = DeleteNote(userId: string, projectId: string, fileId: string, uniqueId: string)

  function OtherNote(uniqueId: string): Note -> bool
  {
    (n: Note) => n.uniqueId != uniqueId
  }

  /** The local list after a successful delete: the notes with that id go,
      the others stay in order. */
  function WithoutNote(notes: seq<Note>, uniqueId: string): (r: seq<Note>)
    ensures forall n :: n in r <==> n in notes && n.uniqueId != uniqueId
    ensures |r| <= |notes|
  {
    KeepMembers(notes, OtherNote(uniqueId));
    Keep(notes, OtherNote(uniqueId))
  }

  /** Deleting a note just added with a fresh id gives back the list as it
      was before the add. */
  lemma AddThenDelete(notes: seq<Note>, n: Note)
    requires forall m :: m in notes ==> m.uniqueId != n.uniqueId
    ensures WithoutNote(notes + [n], n.uniqueId) == notes
  {
    KeepAppend(notes, [n], OtherNote(n.uniqueId));
    KeepAll(notes, OtherNote(n.uniqueId));
    assert Keep([n], OtherNote(n.uniqueId)) == [] by {
      assert Keep([n], OtherNote(n.uniqueId)) == Keep([n][1..], OtherNote(n.uniqueId));
    }
  }

  /** Deleting twice is deleting once. */
  lemma DeleteIdempotent(notes: seq<Note>, uniqueId: string)
    ensures WithoutNote(WithoutNote(notes, uniqueId), uniqueId) == WithoutNote(notes, uniqueId)
  {
    var once := WithoutNote(notes, uniqueId);
    forall n | n in once ensures OtherNote(uniqueId)(n) {
    }
    KeepAll(once, OtherNote(uniqueId));
  }

  class BigFile {
    const projectId: string
    const fileId: string
    var slotPosition: string
    var notes: seq<Note>
    var newNote: string
    /** `error?.message`: what the error line shows. */
    var error: JsVal
    var addingNote: bool
    var deletingNoteId: Option<string>

    /** The note being typed stays within the cap, counted in UTF-16 code
        units as `length` counts. */
    predicate Valid()
      reads this
    {
      Utf16Length(newNote) <= MaxNote
    }

    /** The view opened on a file's `projectId`, `fileId`, slot position
        and notes. */
    constructor (projectId: string, fileId: string, slot: JsVal, notes: seq<Note>)
      ensures Valid()
      ensures this.projectId == projectId && this.fileId == fileId
      ensures slotPosition == (if Truthy(slot) && slot.Str? then slot.s else "")
      ensures this.notes == notes && newNote == "" && error == Undef && !addingNote && deletingNoteId.None?
    {
      this.projectId := projectId;
      this.fileId := fileId;
      slotPosition := if Truthy(slot) && slot.Str? then slot.s else "";
      this.notes := notes;
      newNote := "";
      error := Undef;
      addingNote := false;
      deletingNoteId := None;
    }

    /** The text area's `onChange`: a value longer than the cap in UTF-16
        code units is ignored. */
    method TypeNote(value: string)
      requires Valid()
      modifies this
      ensures Valid()
      ensures newNote == if Utf16Length(value) <= MaxNote then value else old(newNote)
      ensures notes == old(notes) && error == old(error) && slotPosition == old(slotPosition)
    {
      if Utf16Length(value) <= MaxNote {
        newNote := value;
      }
    }

    method TypeSlot(value: string)
      requires Valid()
      modifies this
      ensures Valid() && slotPosition == value
      ensures notes == old(notes) && error == old(error) && newNote == old(newNote)
    {
      slotPosition := value;
    }

    /** `handleSave`: without a user or the file's ids nothing is sent. Any
        answer clears the typed slot, a refusal shows the server's error;
        a failed request keeps the slot and shows a fixed message. */
    method HandleSave(userId: string, reply: Call<Answer>) returns (request: Option<SlotUpdate>)
      requires Valid()
      modifies this
      ensures Valid()
      ensures !(SignedIn(userId) && projectId != "" && fileId != "") ==>
        request.None? && error == Str("Required data missing") && slotPosition == old(slotPosition)
      ensures SignedIn(userId) && projectId != "" && fileId != "" ==>
        request == Some(SlotUpdate(userId, projectId, fileId, old(slotPosition))) &&
        (reply.Returned? ==> slotPosition == "" && error == (if reply.body.success then old(error) else reply.body.error)) &&
        (reply.Threw? ==> slotPosition == old(slotPosition) &&
                          error == Str("An error occurred while updating slot position"))
      ensures notes == old(notes) && newNote == old(newNote) && addingNote == old(addingNote)
    {
      if !SignedIn(userId) || projectId == "" || fileId == "" {
        error := Str("Required data missing");
        return None;
      }
      request := Some(SlotUpdate(userId, projectId, fileId, slotPosition));
      match reply {
      case Threw =>
        error := Str("An error occurred while updating slot position");
      case Returned(answer) =>
        if !answer.success {
          error := answer.error;
        }
        slotPosition := "";
      }
    }

    /** `handleAddNote`: without a user or the file's ids, or with a note
        that is blank once trimmed, nothing is sent. Otherwise the trimmed
        note is sent with a fresh id and the time; on success it is
        appended to the local notes, which are handed to the parent, and the
        text area empties. */
    method HandleAddNote(userId: string, uuid: string, now: string, reply: Call<Answer>)
      returns (request: Option<AddNote>, updated: Option<seq<Note>>)
      requires Valid()
      modifies this
      ensures Valid()
      ensures !(SignedIn(userId) && projectId != "" && fileId != "") ==>
        request.None? && updated.None? && error == Str("Required data missing for adding note") &&
        notes == old(notes) && newNote == old(newNote)
      ensures SignedIn(userId) && projectId != "" && fileId != "" && Trim(old(newNote)) == "" ==>
        request.None? && updated.None? && error == Str("Note cannot be empty") &&
        notes == old(notes) && newNote == old(newNote)
      ensures SignedIn(userId) && projectId != "" && fileId != "" && Trim(old(newNote)) != "" ==>
        var n := Note(Trim(old(newNote)), uuid, now);
        request == Some(AddNote(userId, projectId, fileId, n)) && !addingNote &&
        (reply.Returned? && reply.body.success ==>
           notes == old(notes) + [n] && updated == Some(notes) && newNote == "" && error == old(error)) &&
        (reply.Returned? && !reply.body.success ==>
           notes == old(notes) && updated.None? && newNote == old(newNote) &&
           error == Or(reply.body.error, Str("Failed to add note"))) &&
        (reply.Threw? ==>
           notes == old(notes) && updated.None? && newNote == old(newNote) &&
           error == Str("An error occurred while adding the note"))
      ensures slotPosition == old(slotPosition) && deletingNoteId == old(deletingNoteId)
    {
      updated := None;
      if !SignedIn(userId) || projectId == "" || fileId == "" {
        error := Str("Required data missing for adding note");
        return None, None;
      }
      if Trim(newNote) == "" {
        error := Str("Note cannot be empty");
        return None, None;
      }
      addingNote := true;
      var noteObject := Note(Trim(newNote), uuid, now);
      request := Some(AddNote(userId, projectId, fileId, noteObject));
      match reply {
      case Threw =>
        error := Str("An error occurred while adding the note");
      case Returned(answer) =>
        if answer.success {
          var updatedNotes := notes + [noteObject];
          notes := updatedNotes;
          updated := Some(updatedNotes);
          newNote := "";
        } else {
          error := Or(answer.error, Str("Failed to add note"));
        }
      }
      addingNote := false;
    }

    /** `handleDeleteNote`: without a user, the file's ids or a note id
        nothing is sent. On success the notes with that id leave the local
        list, which is handed to the parent. */
    method HandleDeleteNote(userId: string, uniqueId: string, reply: Call<Answer>)
      returns (request: Option<DeleteNote>, updated: Option<seq<Note>>)
      requires Valid()
      modifies this
      ensures Valid()
      ensures !(SignedIn(userId) && projectId != "" && fileId != "" && uniqueId != "") ==>
        request.None? && updated.None? && error == Str("Required data missing for deleting note") &&
        notes == old(notes) && deletingNoteId == old(deletingNoteId)
      ensures SignedIn(userId) && projectId != "" && fileId != "" && uniqueId != "" ==>
        request == Some(DeleteNote(userId, projectId, fileId, uniqueId)) && deletingNoteId.None? &&
        (reply.Returned? && reply.body.success ==>
           notes == WithoutNote(old(notes), uniqueId) && updated == Some(notes) && error == old(error)) &&
        (reply.Returned? && !reply.body.success ==>
           notes == old(notes) && updated.None? && error == Or(reply.body.error, Str("Failed to delete note"))) &&
        (reply.Threw? ==>
           notes == old(notes) && updated.None? && error == Str("An error occurred while deleting the note"))
      ensures slotPosition == old(slotPosition) && newNote == old(newNote) && addingNote == old(addingNote)
    {
      updated := None;
      if !SignedIn(userId) || projectId == "" || fileId == "" || uniqueId == "" {
        error := Str("Required data missing for deleting note");
        return None, None;
      }
      deletingNoteId := Some(uniqueId);
      request := Some(DeleteNote(userId, projectId, fileId, uniqueId));
      match reply {
      case Threw =>
        error := Str("An error occurred while deleting the note");
      case Returned(answer) =>
        if answer.success {
          var updatedNotes := WithoutNote(notes, uniqueId);
          notes := updatedNotes;
          updated := Some(updatedNotes);
        } else {
          error := Or(answer.error, Str("Failed to delete note"));
        }
      }
      deletingNoteId := None;
    }
  }
}
