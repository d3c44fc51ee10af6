/** The program list, client/src/components/ProgrammingDisplay.js:
    programs are reordered by dragging, the order is saved on drag end, a
    selected program shows its first folder sorted by slot, and a file's
    slot can be changed or the file deleted. The selected program is a
    snapshot taken on click: the local updates change `programs`, not it. */
module ProgrammingDisplay {
  import opened JsValues
  import opened Mongo
  import opened Store
  import opened Client
  import opened ListMoves
  import opened SlotOrder

  /** The ids in list order, as drag end sends them. */
  function Ids(ps: seq<Program>): (r: seq<string>)
    ensures |r| == |ps| && forall i :: 0 <= i < |ps| ==> r[i] == ps[i].programId
  {
    seq(|ps|, i requires 0 <= i < |ps| => ps[i].programId)
  }

  /** Moving programs moves their ids the same way, so the saved order is a
      permutation of the loaded ids. */
  lemma IdsRemoveAt(ps: seq<Program>, i: nat)
    requires i < |ps|
    ensures Ids(RemoveAt(ps, i)) == RemoveAt(Ids(ps), i)
  {
    var r := RemoveAt(ps, i);
    forall k | 0 <= k < |r| ensures r[k].programId == RemoveAt(Ids(ps), i)[k] {
      if k < i {
        assert r[k] == ps[k];
      } else {
        assert r[k] == ps[k + 1];
      }
    }
  }

  lemma IdsInsertAt(ps: seq<Program>, i: nat, p: Program)
    requires i <= |ps|
    ensures Ids(InsertAt(ps, i, p)) == InsertAt(Ids(ps), i, p.programId)
  {
    var r := InsertAt(ps, i, p);
    forall k | 0 <= k < |r| ensures r[k].programId == InsertAt(Ids(ps), i, p.programId)[k] {
      if k < i {
        assert r[k] == ps[k];
      } else if k > i {
        assert r[k] == ps[k - 1];
      }
    }
  }

  lemma IdsMove(ps: seq<Program>, from: nat, to: nat)
    requires from < |ps| && to < |ps|
    ensures Ids(Move(ps, from, to)) == Move(Ids(ps), from, to)
    ensures multiset(Ids(Move(ps, from, to))) == multiset(Ids(ps))
  {
    IdsRemoveAt(ps, from);
    IdsInsertAt(RemoveAt(ps, from), to, ps[from]);
    MovePermutes(Ids(ps), from, to);
  }


  function WithProgramId(programId: string): Program -> bool
  {
    (p: Program) => p.programId == programId
  }

  /** Every file with `fileId`, in every folder, gets the new slot. */
  function SetSlotIn(fileId: string, v: JsVal): Program -> Program
  {
    (p: Program) => p.(programFolder := seq(|p.programFolder|, i requires 0 <= i < |p.programFolder| =>
      Folder(seq(|p.programFolder[i].filesProgram|, j requires 0 <= j < |p.programFolder[i].filesProgram| =>
        var f := p.programFolder[i].filesProgram[j];
        if f.fileId == fileId then f.(slotPosition := v) else f))))
  }

  function OtherFile(fileId: string): FileRecord -> bool
  {
    (f: FileRecord) => f.fileId != fileId
  }

  /** Every folder loses the files with `fileId`. */
  function DropFileIn(fileId: string): Program -> Program
  {
    (p: Program) => p.(programFolder := seq(|p.programFolder|, i requires 0 <= i < |p.programFolder| =>
      Folder(Keep(p.programFolder[i].filesProgram, OtherFile(fileId)))))
  }

  /** The slot update touches only the slot of the matching files of the
      matching programs; ids, titles, folder and file counts are kept. */
  lemma SetSlotOnly(ps: seq<Program>, programId: string, fileId: string, v: JsVal)
    ensures var r := UpdateWhere(ps, WithProgramId(programId), SetSlotIn(fileId, v));
      |r| == |ps| &&
      forall i :: 0 <= i < |ps| ==>
        r[i].programId == ps[i].programId && r[i].programTitle == ps[i].programTitle &&
        |r[i].programFolder| == |ps[i].programFolder| &&
        forall k, j :: 0 <= k < |ps[i].programFolder| && 0 <= j < |ps[i].programFolder[k].filesProgram| ==>
          var f := ps[i].programFolder[k].filesProgram[j];
          |r[i].programFolder[k].filesProgram| == |ps[i].programFolder[k].filesProgram| &&
          r[i].programFolder[k].filesProgram[j] ==
            if ps[i].programId == programId && f.fileId == fileId then f.(slotPosition := v) else f
  {
  }

  /** After a delete no folder of the program holds the file, every other
      file of it is still there, and other programs are untouched. */
  lemma DropFileOnly(ps: seq<Program>, programId: string, fileId: string)
    ensures var r := UpdateWhere(ps, WithProgramId(programId), DropFileIn(fileId));
      |r| == |ps| &&
      forall i :: 0 <= i < |ps| ==>
        (ps[i].programId != programId ==> r[i] == ps[i]) &&
        (ps[i].programId == programId ==>
           |r[i].programFolder| == |ps[i].programFolder| &&
           forall k :: 0 <= k < |ps[i].programFolder| ==>
             forall f :: f in r[i].programFolder[k].filesProgram <==>
               f in ps[i].programFolder[k].filesProgram && f.fileId != fileId)
  {
    var r := UpdateWhere(ps, WithProgramId(programId), DropFileIn(fileId));
    forall i, k | 0 <= i < |ps| && ps[i].programId == programId && 0 <= k < |ps[i].programFolder| {
      KeepMembers(ps[i].programFolder[k].filesProgram, OtherFile(fileId));
    }
  }

  /** What the details pane lists for a program: its first folder sorted by
      slot, `None` when it has no folder (the render would throw). */
  function DetailsList(p: Program): (r: Option<seq<FileRecord>>)
    ensures r.None? <==> p.programFolder == []
    ensures r.Some? ==>
      SortedBySlot(r.value) && multiset(r.value) == multiset(p.programFolder[0].filesProgram)
  {
    if p.programFolder == [] then None else Some(SortBySlot(p.programFolder[0].filesProgram))
  }

  /** The slot accepted for the update: empty or one letter a to z. */
  predicate SlotInputValid(s: string)
  {
    s == [] || IsSlotLetter(Str(s))
  }

  /** The body of `/proGram-slot-check` and `/update-slot-prog`. */
  datatype SlotRequest = SlotRequest(userId: string, programId: string, fileId: string, slotPosition: string)

  const SlotFormatError := "Slot position must be a lowercase letter from a to z."
  const SlotUpdateError := "An error occurred while updating the slot position."
  const OrderError := "An error occurred while saving the program order."
  const DeleteError := "An unexpected error occurred while deleting the file."

  /** `handleDragOver(index)` as written, on the program list as JavaScript
      holds it (`None` is `undefined`). A drag from a row moves that program
      to the hovered row. With no drag from the list
      (`draggedProgramIndex === null`, as when a file is dragged in from the
      desktop), `programs[null]` is `undefined`, `splice(null, 1)` cuts the
      first program (null reads as 0), and `undefined` goes in at the
      hovered row. */
  function DragOverAsWritten(programs: seq<Program>, dragged: Option<nat>, index: nat): (r: seq<Option<Program>>)
    requires index < |programs| && (dragged.Some? ==> dragged.value < |programs|)
    ensures dragged.Some? ==> r == Lift(Move(programs, dragged.value, index))
    ensures dragged.None? ==>
      |r| == |programs| && r[index] == None &&
      multiset(r) == multiset(Lift(programs)) - multiset{Some(programs[0])} + multiset{None}
  {
    match dragged
    case Some(from) =>
      LiftMove(programs, from, index);
      MoveBack(programs, from, index);
      if from == index then Lift(programs) else Move(Lift(programs), from, index)
    case None =>
      var lifted := Lift(programs);
      var rest := RemoveAt(lifted, SpliceStart(0, |programs|));
      RemoveAtMultiset(lifted, 0);
      InsertAtMultiset(rest, index, None);
      InsertAt(rest, index, None)
  }

  /** An outside drag over a row loses the first program, when its entry is
      not repeated, and leaves a hole in the list. */
  lemma ExternalDragOverLosesFirst(programs: seq<Program>, index: nat)
    requires index < |programs| && programs[0] !in programs[1..]
    ensures var r := DragOverAsWritten(programs, None, index);
      None in r && Some(programs[0]) !in r
  {
    var r := DragOverAsWritten(programs, None, index);
    var lifted := Lift(programs);
    assert lifted == [lifted[0]] + lifted[1..];
    forall j | 1 <= j < |programs| ensures lifted[j] != Some(programs[0]) {
      assert programs[j] == programs[1..][j - 1];
    }
    assert Some(programs[0]) !in lifted[1..];
    assert multiset(lifted)[Some(programs[0])] == 1;
    assert r[index] == None;
  }

  class ProgrammingDisplay {
    var programs: seq<Program>
    var selected: Option<Program>
    var dragged: Option<nat>
    var error: string
    var detailsVisible: map<string, bool>
    var editingSlot: Option<string>
    var newSlotPosition: string

    constructor ()
      ensures programs == [] && selected.None? && dragged.None? && error == ""
      ensures detailsVisible == map[] && editingSlot.None? && newSlotPosition == ""
    {
      programs := [];
      selected := None;
      dragged := None;
      error := "";
      detailsVisible := map[];
      editingSlot := None;
      newSlotPosition := "";
    }

    /** `fetchPrograms`: without a user nothing happens; a throw sets the
        error; any answer that is not an array loads no program; every
        loaded program starts collapsed. */
    method FetchPrograms(userId: string, response: Call<Option<seq<Program>>>)
      modifies this
      ensures !SignedIn(userId) ==> programs == old(programs) && detailsVisible == old(detailsVisible) &&
                                    error == old(error)
      ensures SignedIn(userId) && response.Threw? ==>
        error == "Failed to load programs." && programs == old(programs) && detailsVisible == old(detailsVisible)
      ensures SignedIn(userId) && response.Returned? ==>
        var data := if response.body.Some? then response.body.value else [];
        programs == data && error == old(error) &&
        detailsVisible.Keys == (set i | 0 <= i < |data| :: data[i].programId) &&
        forall id :: id in detailsVisible ==> !detailsVisible[id]
      ensures selected == old(selected) && dragged == old(dragged) && editingSlot == old(editingSlot)
      ensures newSlotPosition == old(newSlotPosition)
    {
      if !SignedIn(userId) {
        return;
      }
      if response.Threw? {
        error := "Failed to load programs.";
        return;
      }
      var data := if response.body.Some? then response.body.value else [];
      programs := data;
      detailsVisible := map i | 0 <= i < |data| :: data[i].programId := false;
    }

    method HandleDragStart(index: nat)
      modifies this
      ensures dragged == Some(index) && programs == old(programs) && error == old(error)
      ensures selected == old(selected) && detailsVisible == old(detailsVisible)
      ensures editingSlot == old(editingSlot) && newSlotPosition == old(newSlotPosition)
    {
      dragged := Some(index);
    }

    /** `handleDragOver`, as intended: the dragged program moves to the
        hovered index, which becomes the dragged index, exactly as the source
        does; hovering its own place is a no-op. A drag that did not start
        in the list (`draggedProgramIndex === null`) is ignored. */
    method HandleDragOver(index: nat)
      requires index < |programs| && (dragged.Some? ==> dragged.value < |programs|)
      modifies this
      ensures old(dragged).None? ==> dragged == old(dragged) && programs == old(programs)
      ensures old(dragged).Some? ==>
        dragged == Some(index) && programs == Move(old(programs), old(dragged).value, index) &&
        multiset(programs) == multiset(old(programs)) && programs[index] == old(programs)[old(dragged).value] &&
        Lift(programs) == DragOverAsWritten(old(programs), old(dragged), index)
      ensures old(dragged) == Some(index) ==> programs == old(programs)
      ensures error == old(error) && selected == old(selected) && detailsVisible == old(detailsVisible)
      ensures editingSlot == old(editingSlot) && newSlotPosition == old(newSlotPosition)
    {
      if dragged.None? {
        return;
      }
      var from := dragged.value;
      MoveBack(programs, from, index);
      if from == index {
        return;
      }
      var updated := programs;
      var draggedProgram := updated[from];
      updated := RemoveAt(updated, from);
      updated := InsertAt(updated, index, draggedProgram);
      MovePermutes(programs, from, index);
      MoveLands(programs, from, index);
      dragged := Some(index);
      programs := updated;
    }

    /** `handleDragEnd`: the ids are sent in the current order; a throw sets
        the error. */
    method HandleDragEnd(threw: bool) returns (order: seq<string>)
      modifies this
      ensures dragged.None? && order == Ids(programs) && programs == old(programs)
      ensures error == if threw then OrderError else old(error)
      ensures selected == old(selected) && detailsVisible == old(detailsVisible)
      ensures editingSlot == old(editingSlot) && newSlotPosition == old(newSlotPosition)
    {
      dragged := None;
      order := Ids(programs);
      if threw {
        error := OrderError;
      }
    }

    method ToggleDetails(programId: string)
      modifies this
      ensures detailsVisible == old(detailsVisible)[programId := !(programId in old(detailsVisible) && old(detailsVisible)[programId])]
      ensures programs == old(programs) && selected == old(selected) && dragged == old(dragged)
      ensures error == old(error) && editingSlot == old(editingSlot) && newSlotPosition == old(newSlotPosition)
    {
      detailsVisible := detailsVisible[programId := !(programId in detailsVisible && detailsVisible[programId])];
    }

    /** `handleSelectProgram`: the clicked program becomes the snapshot and
        its details flip. */
    method HandleSelectProgram(p: Program)
      modifies this
      ensures selected == Some(p)
      ensures detailsVisible == old(detailsVisible)[p.programId := !(p.programId in old(detailsVisible) && old(detailsVisible)[p.programId])]
      ensures programs == old(programs) && dragged == old(dragged)
      ensures error == old(error) && editingSlot == old(editingSlot) && newSlotPosition == old(newSlotPosition)
    {
      selected := Some(p);
      ToggleDetails(p.programId);
    }

    /** `handleSlotPositionLabelClick`: start editing with the file's slot. */
    method HandleSlotPositionLabelClick(file: FileRecord)
      modifies this
      ensures editingSlot == Some(file.fileId) && newSlotPosition == SlotKey(file)
      ensures programs == old(programs) && selected == old(selected) && dragged == old(dragged)
      ensures error == old(error) && detailsVisible == old(detailsVisible)
    {
      editingSlot := Some(file.fileId);
      newSlotPosition := SlotKey(file);
    }

    method HandleSlotPositionChange(value: string)
      modifies this
      ensures newSlotPosition == value
      ensures programs == old(programs) && selected == old(selected) && dragged == old(dragged)
      ensures error == old(error) && detailsVisible == old(detailsVisible) && editingSlot == old(editingSlot)
    {
      newSlotPosition := value;
    }

    /** `handleSlotPositionUpdate` on blur. An input other than empty or one
        letter a to z is refused with an error and no request. Otherwise the
        check is asked; on success every matching file of the selected
        program takes the slot, the slot is saved, and when the save went
        through the details collapse, editing ends and the error clears. A
        refused check shows the route's error or a default; a throw (also
        the one from a missing selection) shows a generic error. */
    method HandleSlotPositionUpdate(userId: string, file: FileRecord, check: Call<Answer>, saveThrew: bool)
      returns (checked: Option<SlotRequest>, saved: Option<SlotRequest>)
      modifies this
      ensures !SlotInputValid(old(newSlotPosition)) ==>
        error == SlotFormatError && checked.None? && saved.None? && programs == old(programs) &&
        detailsVisible == old(detailsVisible) && editingSlot == old(editingSlot)
      ensures SlotInputValid(old(newSlotPosition)) && old(selected).None? ==>
        error == SlotUpdateError && checked.None? && saved.None? && programs == old(programs) &&
        detailsVisible == old(detailsVisible) && editingSlot == old(editingSlot)
      ensures SlotInputValid(old(newSlotPosition)) && old(selected).Some? ==>
        var pid := old(selected).value.programId;
        var req := SlotRequest(userId, pid, file.fileId, old(newSlotPosition));
        checked == Some(req) &&
        (check.Threw? ==>
           error == SlotUpdateError && saved.None? && programs == old(programs) &&
           detailsVisible == old(detailsVisible) && editingSlot == old(editingSlot)) &&
        (check.Returned? && !check.body.success ==>
           error == MessageOr(check.body.error, "Slot position already exists or is invalid.") && saved.None? &&
           programs == old(programs) && detailsVisible == old(detailsVisible) && editingSlot == old(editingSlot)) &&
        (check.Returned? && check.body.success ==>
           saved == Some(req) &&
           programs == UpdateWhere(old(programs), WithProgramId(pid), SetSlotIn(file.fileId, Str(old(newSlotPosition)))) &&
           (saveThrew ==> error == SlotUpdateError && detailsVisible == old(detailsVisible) &&
                          editingSlot == old(editingSlot)) &&
           (!saveThrew ==> error == "" && detailsVisible == old(detailsVisible)[pid := false] && editingSlot.None?))
      ensures selected == old(selected) && dragged == old(dragged) && newSlotPosition == old(newSlotPosition)
    {
      checked, saved := None, None;
      if !SlotInputValid(newSlotPosition) {
        error := SlotFormatError;
        return;
      }
      if selected.None? {
        error := SlotUpdateError;
        return;
      }
      var pid := selected.value.programId;
      var req := SlotRequest(userId, pid, file.fileId, newSlotPosition);
      checked := Some(req);
      if check.Threw? {
        error := SlotUpdateError;
        return;
      }
      if !check.body.success {
        error := MessageOr(check.body.error, "Slot position already exists or is invalid.");
        return;
      }
      programs := UpdateWhere(programs, WithProgramId(pid), SetSlotIn(file.fileId, Str(newSlotPosition)));
      saved := Some(req);
      if saveThrew {
        error := SlotUpdateError;
        return;
      }
      detailsVisible := detailsVisible[pid := false];
      editingSlot := None;
      error := "";
    }

    /** `handleDeleteFile`: on success the file leaves every folder of the
        selected program and its details collapse; a refusal shows the
        route's message or a default; a throw (also from a missing
        selection) shows a generic error. The request body is
        `(userId, programId, fileId, key)`. */
    method HandleDeleteFile(userId: string, file: FileRecord, answer: Call<Answer>)
      returns (request: Option<(string, string, string, string)>)
      modifies this
      ensures old(selected).None? ==>
        request.None? && error == DeleteError && programs == old(programs) && detailsVisible == old(detailsVisible)
      ensures old(selected).Some? ==>
        var pid := old(selected).value.programId;
        request == Some((userId, pid, file.fileId, file.key)) &&
        (answer.Threw? ==> error == DeleteError && programs == old(programs) && detailsVisible == old(detailsVisible)) &&
        (answer.Returned? && !answer.body.success ==>
           error == MessageOr(answer.body.message, "Failed to delete file from S3 or database.") &&
           programs == old(programs) && detailsVisible == old(detailsVisible)) &&
        (answer.Returned? && answer.body.success ==>
           error == old(error) && detailsVisible == old(detailsVisible)[pid := false] &&
           programs == UpdateWhere(old(programs), WithProgramId(pid), DropFileIn(file.fileId)))
      ensures selected == old(selected) && dragged == old(dragged)
      ensures editingSlot == old(editingSlot) && newSlotPosition == old(newSlotPosition)
    {
      request := None;
      if selected.None? {
        error := DeleteError;
        return;
      }
      var pid := selected.value.programId;
      request := Some((userId, pid, file.fileId, file.key));
      if answer.Threw? {
        error := DeleteError;
        return;
      }
      if !answer.body.success {
        error := MessageOr(answer.body.message, "Failed to delete file from S3 or database.");
        return;
      }
      programs := UpdateWhere(programs, WithProgramId(pid), DropFileIn(file.fileId));
      detailsVisible := detailsVisible[pid := false];
    }
  }
}
