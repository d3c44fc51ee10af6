/** The program builder, client/src/components/ProgrammingPlay.js: slots are
    added one by one, each takes one dropped file, the first file fixes
    the program to audio or video, every slot may carry a letter position,
    and the upload sends the filled slots as one program. */
module ProgrammingPlay {
  import opened JsValues
  import opened Strings
  import opened Mongo
  import opened Client
  import opened Media

  /** A slot of `programmingFiles`. */
  datatype Slot = Slot(id: string, file: Option<LocalFile>, slotPosition: string, seqPos: nat, status: string)

  /** An entry of `existingProgramTitles`. */
  datatype TitleEntry = TitleEntry(title: string, id: string)

  /** A fresh empty slot at position `seqPos`. */
  function EmptySlot(id: string, seqPos: nat): Slot
  {
    Slot(id, None, "", seqPos, "")
  }

  /** `^[a-z]?$`. */
  predicate OptionalLetter(s: string)
  {
    s == [] || (|s| == 1 && IsLower(s[0]))
  }

  /** The entry is lower-cased before the check, so a capital and the
      Kelvin sign pass it as the lower-case letter. */
  lemma LoweredEntryPasses(c: char)
    requires IsUpper(c) || c == '\U{212A}'
    ensures Trim(ToLower([c])) == [LowerChar(c)] && OptionalLetter(Trim(ToLower([c])))
  {
    assert ToLower([c]) == [LowerChar(c)];
    assert !IsSpace(LowerChar(c));
  }

  /** The status cycle of a slot click: `''`, `green`, `red`, and back;
      any other status falls back to `''`. */
  function NextStatus(s: string): (r: string)
    ensures r == "" || r == "green" || r == "red"
    ensures r == "" <==> s != "" && s != "green"
  {
    if s == "" then "green" else if s == "green" then "red" else ""
  }

  /** Three clicks bring a slot back to its status. */
  lemma StatusCycle(s: string)
    requires s == "" || s == "green" || s == "red"
    ensures NextStatus(NextStatus(NextStatus(s))) == s
  {
  }

  function WithSlotId(id: string): Slot -> bool
  {
    (s: Slot) => s.id == id
  }

  function WithTitle(title: string): TitleEntry -> bool
  {
    (t: TitleEntry) => t.title == title
  }

  /** The slots with `slotId` given the position `v`; the others as they were. */
  function SetPosition(slots: seq<Slot>, slotId: string, v: string): (r: seq<Slot>)
    ensures |r| == |slots|
    ensures forall i :: 0 <= i < |r| ==>
      r[i] == if slots[i].id == slotId then slots[i].(slotPosition := v) else slots[i]
  {
    seq(|slots|, i requires 0 <= i < |slots| => if slots[i].id == slotId then slots[i].(slotPosition := v) else slots[i])
  }

  /** The error the slot check leaves: a failure without a user or of the
      request, the server's refusal, or none on approval. */
  function CheckReply(userId: string, check: Call<Answer>): (m: string)
    ensures m == "" <==> SignedIn(userId) && check.Returned? && check.body.success
    ensures (!SignedIn(userId) || check.Threw?) ==> m == CheckError
    ensures SignedIn(userId) && check.Returned? && !check.body.success ==>
      m == MessageOr(check.body.error, "Duplicate slot position detected.")
  {
    if !SignedIn(userId) || check.Threw? then CheckError
    else if check.body.success then ""
    else MessageOr(check.body.error, "Duplicate slot position detected.")
  }

  /** The id of the program with this exact title, or a new one. */
  function ProgramIdFor(titles: seq<TitleEntry>, title: string, newId: string): (r: string)
    ensures FindFirst(titles, WithTitle(title)).Some? ==> r == titles[FindFirst(titles, WithTitle(title)).value].id
    ensures (forall t :: t in titles ==> t.title != title) ==> r == newId
  {
    match FindFirst(titles, WithTitle(title))
    case Some(i) => titles[i].id
    case None => newId
  }

  /** The non-empty trimmed slot positions, in slot order
      (`map(file => file.slotPosition?.trim()).filter(Boolean)`). */
  function Positions(slots: seq<Slot>): (r: seq<string>)
    ensures forall x :: x in r ==> x != ""
  {
    if slots == [] then []
    else (if Trim(slots[0].slotPosition) != "" then [Trim(slots[0].slotPosition)] else []) + Positions(slots[1..])
  }

  lemma {:induction false} PositionsMembers(slots: seq<Slot>, x: string)
    ensures x in Positions(slots) <==> x != "" && exists i :: 0 <= i < |slots| && Trim(slots[i].slotPosition) == x
  {
    if slots != [] {
      PositionsMembers(slots[1..], x);
      if exists i :: 0 <= i < |slots[1..]| && Trim(slots[1..][i].slotPosition) == x {
        var i :| 0 <= i < |slots[1..]| && Trim(slots[1..][i].slotPosition) == x;
        assert slots[i + 1] == slots[1..][i];
      }
      if exists i :: 0 <= i < |slots| && Trim(slots[i].slotPosition) == x {
        var i :| 0 <= i < |slots| && Trim(slots[i].slotPosition) == x;
        if i > 0 {
          assert slots[1..][i - 1] == slots[i];
        }
      }
    }
  }

  /** Two slots share a non-empty trimmed position. */
  predicate SharedPosition(slots: seq<Slot>)
  {
    exists i, j :: 0 <= i < j < |slots| && Trim(slots[i].slotPosition) != "" &&
                  Trim(slots[i].slotPosition) == Trim(slots[j].slotPosition)
  }

  /** A shared position is shared by the first slot and a later one, or
      among the later slots. */
  lemma SharedPositionCons(slots: seq<Slot>)
    requires slots != []
    ensures var p0 := Trim(slots[0].slotPosition);
      SharedPosition(slots) <==>
        (p0 != "" && exists j :: 1 <= j < |slots| && Trim(slots[j].slotPosition) == p0) || SharedPosition(slots[1..])
  {
    var t := slots[1..];
    if SharedPosition(t) {
      var i, j :| 0 <= i < j < |t| && Trim(t[i].slotPosition) != "" &&
                  Trim(t[i].slotPosition) == Trim(t[j].slotPosition);
      assert slots[i + 1] == t[i] && slots[j + 1] == t[j];
    }
    if SharedPosition(slots) {
      var i, j :| 0 <= i < j < |slots| && Trim(slots[i].slotPosition) != "" &&
                  Trim(slots[i].slotPosition) == Trim(slots[j].slotPosition);
      if i > 0 {
        assert slots[i] == t[i - 1] && slots[j] == t[j - 1];
      }
    }
  }

  lemma {:induction false} PositionsDistinct(slots: seq<Slot>)
    ensures Distinct(Positions(slots)) <==> !SharedPosition(slots)
  {
    if slots != [] {
      var t := slots[1..];
      var p0 := Trim(slots[0].slotPosition);
      PositionsDistinct(t);
      SharedPositionCons(slots);
      PositionsMembers(t, p0);
      assert (exists j :: 1 <= j < |slots| && Trim(slots[j].slotPosition) == p0) <==>
             (exists j :: 0 <= j < |t| && Trim(t[j].slotPosition) == p0) by {
        if exists j :: 1 <= j < |slots| && Trim(slots[j].slotPosition) == p0 {
          var j :| 1 <= j < |slots| && Trim(slots[j].slotPosition) == p0;
          assert t[j - 1] == slots[j];
        }
        if exists j :: 0 <= j < |t| && Trim(t[j].slotPosition) == p0 {
          var j :| 0 <= j < |t| && Trim(t[j].slotPosition) == p0;
          assert slots[j + 1] == t[j];
        }
      }
      if p0 != "" {
        assert Positions(slots) == [p0] + Positions(t);
        DistinctCons(p0, Positions(t));
      } else {
        assert Positions(slots) == Positions(t);
      }
    }
  }

  /** The duplicate test of the upload: as many distinct positions as
      positions, exactly when no two slots share a non-empty position. */
  lemma DuplicateTest(slots: seq<Slot>)
    ensures (|set x | x in Positions(slots)| != |Positions(slots)|) <==> SharedPosition(slots)
  {
    DistinctCard(Positions(slots));
    PositionsDistinct(slots);
  }

  /** The slots the upload sends: those with a file of the program's kind. */
  function Filled(kind: MediaKind): Slot -> bool
  {
    (s: Slot) => s.file.Some? && StartsWith(s.file.value.mime, KindName(kind))
  }

  /** One entry of the `/new-save-programming-file-keys` body. */
  datatype ProgFile = ProgFile(key: JsVal, fileName: string, slotPosition: string, seqPos: nat, url: string)

  datatype SaveProgramming = SaveProgramming(files: seq<ProgFile>, accessType: string, userId: string,
                                             programId: string, programTitle: string)

  /** The `/proGram-slot-check` body; the slot has no `fileId`, so that
      field is always `undefined`. */
  datatype SlotCheck = SlotCheck(userId: string, programId: string, fileId: JsVal, slotPosition: string)

  /** What `Promise.all` of the uploads resolves to: per chosen slot, the
      signed key, the name with whitespace runs as `_`, the slot's position
      and number, and the encoded URL. */
  function UploadedFiles(chosen: seq<Slot>, signed: nat -> Call<Signed>, encodeUri: string -> string): (r: seq<ProgFile>)
    requires forall k :: 0 <= k < |chosen| ==> chosen[k].file.Some?
    ensures |r| == |chosen|
    ensures forall k :: 0 <= k < |r| ==>
      r[k].slotPosition == chosen[k].slotPosition && r[k].seqPos == chosen[k].seqPos &&
      r[k].fileName == CollapseSpaces(Trim(chosen[k].file.value.name)) &&
      (signed(k).Returned? ==> r[k].key == signed(k).body.key && r[k].url == encodeUri(signed(k).body.url))
  {
    seq(|chosen|, k requires 0 <= k < |chosen| =>
      var url := if signed(k).Returned? then signed(k).body.url else "";
      var key := if signed(k).Returned? then signed(k).body.key else Undef;
      ProgFile(key, CollapseSpaces(Trim(chosen[k].file.value.name)), chosen[k].slotPosition, chosen[k].seqPos, encodeUri(url)))
  }

  /** The kind filter only lets slots holding a file through. */
  lemma FilledHaveFiles(slots: seq<Slot>, kind: MediaKind)
    ensures forall k :: 0 <= k < |Keep(slots, Filled(kind))| ==> Keep(slots, Filled(kind))[k].file.Some?
  {
    forall k | 0 <= k < |Keep(slots, Filled(kind))| ensures Keep(slots, Filled(kind))[k].file.Some? {
      KeepMembers(slots, Filled(kind));
      assert Keep(slots, Filled(kind))[k] in Keep(slots, Filled(kind));
    }
  }

  /** How the `try` block of the upload ends. */
  datatype UploadOutcome = UploadOutcome(save: Option<SaveProgramming>, message: string, reset: bool)

  /** The `try` block of `handleFileUpload` for a program of `kind`: without a
      user, or when two slots share a position, nothing is saved; otherwise
      every slot holding a file of the kind is uploaded, and when all of
      them went through the files are saved, in slot order, under the
      program with this exact title or a new id. The form resets when the
      save and the extraction both answered; every other end shows the
      duplicate message or the generic upload error. */
  function UploadAttempt(slots: seq<Slot>, kind: MediaKind, title: string, titles: seq<TitleEntry>,
                         accessType: string, userId: string, uuid: string, signed: nat -> Call<Signed>,
                         putOk: nat -> bool, encodeUri: string -> string, saveThrew: bool, extractThrew: bool)
    : (o: UploadOutcome)
    ensures o.save.Some? <==>
      SignedIn(userId) && !SharedPosition(slots) &&
      forall k :: 0 <= k < |Keep(slots, Filled(kind))| ==> signed(k).Returned? && putOk(k)
    ensures o.save.Some? ==> (FilledHaveFiles(slots, kind);
      o.save.value == SaveProgramming(UploadedFiles(Keep(slots, Filled(kind)), signed, encodeUri), accessType, userId,
                                      ProgramIdFor(titles, title, CollapseSpaces(Trim(title)) + "-" + uuid), title))
    ensures o.reset <==> o.save.Some? && !saveThrew && !extractThrew
    ensures !o.reset ==> o.message == if SignedIn(userId) && SharedPosition(slots) then DuplicateError else UploadError
  {
    if !SignedIn(userId) then UploadOutcome(None, UploadError, false)
    else
      var programId := ProgramIdFor(titles, title, CollapseSpaces(Trim(title)) + "-" + uuid);
      var slotPositions := Positions(slots);
      DuplicateTest(slots);
      if |set x | x in slotPositions| != |slotPositions| then UploadOutcome(None, DuplicateError, false)
      else
        var chosen := Keep(slots, Filled(kind));
        FilledHaveFiles(slots, kind);
        if !(forall k :: 0 <= k < |chosen| ==> signed(k).Returned? && putOk(k)) then UploadOutcome(None, UploadError, false)
        else
          var save := SaveProgramming(UploadedFiles(chosen, signed, encodeUri), accessType, userId, programId, title);
          UploadOutcome(Some(save), UploadError, !saveThrew && !extractThrew)
  }

  const NeedFileError := "You must add a file before adding more slots."
  const KindError := "Only audio or video files are allowed."
  const PositionError := "Slot position must be a single letter from a-z."
  const CheckError := "An error occurred while checking the slot position."
  const UploadError := "An error occurred while uploading files."
  const DuplicateError := "Duplicate slot positions detected for non-empty slots."

  function MismatchError(k: MediaKind): string
  {
    "This program only accepts " + KindName(k) + " files."
  }

  /** What the form keeps of its slots: slots are numbered 1, 2, … in order;
      every file in a slot is of the program's kind, so no slot holds a file
      before the kind is fixed; positions are empty or one letter. */
  predicate SlotsValid(slots: seq<Slot>, mediaType: Option<MediaKind>)
  {
    (forall i :: 0 <= i < |slots| ==> slots[i].seqPos == i + 1) &&
    (forall i :: 0 <= i < |slots| && slots[i].file.Some? ==>
       mediaType.Some? && KindOf(slots[i].file.value.mime) == mediaType) &&
    (forall i :: 0 <= i < |slots| ==> OptionalLetter(slots[i].slotPosition))
  }

  class ProgrammingPlay {
    var slots: seq<Slot>
    var uploading: bool
    var accessType: string
    var programTitle: string
    var titles: seq<TitleEntry>
    var error: string
    var mediaType: Option<MediaKind>

    /** The form's invariant, stated on its slots and media kind. */
    predicate Valid()
      reads this
    {
      SlotsValid(slots, mediaType)
    }

    constructor (firstId: string)
      ensures Valid()
      ensures slots == [EmptySlot(firstId, 1)] && !uploading && accessType == "private"
      ensures programTitle == "" && titles == [] && error == "" && mediaType.None?
    {
      slots := [EmptySlot(firstId, 1)];
      uploading := false;
      accessType := "private";
      programTitle := "";
      titles := [];
      error := "";
      mediaType := None;
    }

    /** The title lookup on load: the list when the answer is an array. */
    method FetchProgramTitles(userId: string, response: Call<Option<seq<TitleEntry>>>)
      requires Valid()
      modifies this
      ensures Valid()
      ensures SignedIn(userId) && response.Returned? ==>
        titles == if response.body.Some? then response.body.value else []
      ensures !(SignedIn(userId) && response.Returned?) ==> titles == old(titles)
      ensures slots == old(slots) && error == old(error) && mediaType == old(mediaType)
      ensures programTitle == old(programTitle) && uploading == old(uploading)
    {
      if SignedIn(userId) && response.Returned? {
        titles := if response.body.Some? then response.body.value else [];
      }
    }

    method SetTitle(title: string)
      requires Valid()
      modifies this
      ensures Valid() && programTitle == title
      ensures slots == old(slots) && error == old(error) && mediaType == old(mediaType) && titles == old(titles)
    {
      programTitle := title;
    }

    /** `addSlot`: refused while an error shows, and until a file fixed the
        kind; otherwise a new empty slot is numbered after the others. */
    method AddSlot(freshId: string)
      requires Valid()
      modifies this
      ensures Valid()
      ensures old(error) != "" ==> slots == old(slots) && error == old(error)
      ensures old(error) == "" && old(mediaType).None? ==> slots == old(slots) && error == NeedFileError
      ensures old(error) == "" && old(mediaType).Some? ==>
        slots == old(slots) + [EmptySlot(freshId, |old(slots)| + 1)] && error == ""
      ensures mediaType == old(mediaType) && programTitle == old(programTitle) && titles == old(titles)
      ensures uploading == old(uploading)
    {
      if error != "" {
        return;
      }
      if mediaType.None? {
        error := NeedFileError;
        return;
      }
      slots := slots + [EmptySlot(freshId, |slots| + 1)];
    }

    /** `handleDrop`: a file that is neither audio nor video is refused; the
        first accepted file fixes the kind; a file of the other kind is
        refused and the slots stay; otherwise the slot takes the file and
        turns green. An empty drop throws before changing anything. */
    method HandleDrop(accepted: seq<LocalFile>, slotId: string)
      requires Valid()
      modifies this
      ensures Valid()
      ensures accepted == [] ==> slots == old(slots) && error == old(error) && mediaType == old(mediaType)
      ensures accepted != [] ==>
        var f := accepted[0];
        (KindOf(f.mime).None? ==> slots == old(slots) && error == KindError && mediaType == old(mediaType)) &&
        (KindOf(f.mime).Some? && old(mediaType).Some? && old(mediaType) != KindOf(f.mime) ==>
           slots == old(slots) && error == MismatchError(old(mediaType).value) && mediaType == old(mediaType)) &&
        (KindOf(f.mime).Some? && (old(mediaType).None? || old(mediaType) == KindOf(f.mime)) ==>
           mediaType == KindOf(f.mime) && error == old(error) && |slots| == |old(slots)| &&
           forall i :: 0 <= i < |slots| ==>
             slots[i] == if old(slots)[i].id == slotId then old(slots)[i].(file := Some(f), status := "green")
                         else old(slots)[i])
      ensures programTitle == old(programTitle) && titles == old(titles) && uploading == old(uploading)
    {
      if accepted == [] {
        return;
      }
      var newFile := accepted[0];
      var fileType := KindOf(newFile.mime);
      if fileType.None? {
        error := KindError;
        return;
      }
      if mediaType.None? {
        mediaType := fileType;
      } else if mediaType != fileType {
        error := MismatchError(mediaType.value);
        return;
      }
      slots := seq(|slots|, i requires 0 <= i < |slots| reads this =>
        if slots[i].id == slotId then slots[i].(file := Some(newFile), status := "green") else slots[i]);
    }

    /** `handleSlotPositionChange`: the value is lower-cased and trimmed and
        must be empty or one letter. A valid value clears the error; for a
        known slot the check is asked, against the program with this exact
        title or a newly named one, and its approval stores the value. */
    method HandleSlotPositionChange(slotId: string, value: string, userId: string, uuid: string, check: Call<Answer>)
      returns (request: Option<SlotCheck>)
      requires Valid()
      modifies this
      ensures Valid()
      ensures !OptionalLetter(Trim(ToLower(value))) ==> request.None? && slots == old(slots) && error == PositionError
      ensures OptionalLetter(Trim(ToLower(value))) && FindFirst(old(slots), WithSlotId(slotId)).None? ==>
        request.None? && slots == old(slots) && error == ""
      ensures OptionalLetter(Trim(ToLower(value))) && FindFirst(old(slots), WithSlotId(slotId)).Some? ==>
        request == (if SignedIn(userId)
                    then Some(SlotCheck(userId, ProgramIdFor(titles, programTitle, programTitle + "-" + uuid), Undef,
                                        Trim(ToLower(value))))
                    else None) &&
        error == CheckReply(userId, check) &&
        slots == if error == "" then SetPosition(old(slots), slotId, Trim(ToLower(value))) else old(slots)
      ensures mediaType == old(mediaType) && programTitle == old(programTitle) && titles == old(titles)
      ensures uploading == old(uploading)
    {
      var sanitizedValue := Trim(ToLower(value));
      if !OptionalLetter(sanitizedValue) {
        error := PositionError;
        return None;
      }
      if FindFirst(slots, WithSlotId(slotId)).None? {
        error := "";
        return None;
      }
      var programId := ProgramIdFor(titles, programTitle, programTitle + "-" + uuid);
      request := if SignedIn(userId) then Some(SlotCheck(userId, programId, Undef, sanitizedValue)) else None;
      var message := CheckReply(userId, check);
      if message == "" {
        slots := SetPosition(slots, slotId, sanitizedValue);
      }
      error := message;
    }

    /** `handleClickSlot`: only the clicked slot moves on in the cycle. */
    method HandleClickSlot(slotId: string)
      requires Valid()
      modifies this
      ensures Valid()
      ensures |slots| == |old(slots)| &&
        forall i :: 0 <= i < |slots| ==>
          slots[i] == if old(slots)[i].id == slotId then old(slots)[i].(status := NextStatus(old(slots)[i].status))
                      else old(slots)[i]
      ensures error == old(error) && mediaType == old(mediaType) && programTitle == old(programTitle)
      ensures titles == old(titles) && uploading == old(uploading)
    {
      slots := seq(|slots|, i requires 0 <= i < |slots| reads this =>
        if slots[i].id == slotId then slots[i].(status := NextStatus(slots[i].status)) else slots[i]);
    }

    /** `handleFileUpload`. A blank title or a missing kind is refused before
        uploading starts; otherwise the attempt runs and uploading ends false.
        A successful attempt empties the form; any other shows its message
        and leaves the slots as they were. */
    method HandleFileUpload(userId: string, uuid: string, signed: nat -> Call<Signed>, putOk: nat -> bool,
                            encodeUri: string -> string, saveThrew: bool, extractThrew: bool)
      returns (save: Option<SaveProgramming>)
      requires Valid()
      modifies this
      ensures Valid()
      ensures Trim(old(programTitle)) == [] ==>
        save.None? && error == "Program title is required" && slots == old(slots) &&
        mediaType == old(mediaType) && programTitle == old(programTitle) && uploading == old(uploading)
      ensures Trim(old(programTitle)) != [] && old(mediaType).None? ==>
        save.None? && error == "You must upload at least one audio or video file." && slots == old(slots) &&
        mediaType == old(mediaType) && programTitle == old(programTitle) && uploading == old(uploading)
      ensures Trim(old(programTitle)) != [] && old(mediaType).Some? ==>
        var o := UploadAttempt(old(slots), old(mediaType).value, old(programTitle), titles, accessType, userId, uuid,
                               signed, putOk, encodeUri, saveThrew, extractThrew);
        save == o.save && !uploading &&
        (o.reset ==> programTitle == "" && slots == [] && mediaType.None? && error == old(error)) &&
        (!o.reset ==> error == o.message && slots == old(slots) && mediaType == old(mediaType) &&
                      programTitle == old(programTitle))
      ensures titles == old(titles) && accessType == old(accessType)
    {
      if Trim(programTitle) == [] {
        error := "Program title is required";
        return None;
      }
      if mediaType.None? {
        error := "You must upload at least one audio or video file.";
        return None;
      }
      var o := UploadAttempt(slots, mediaType.value, programTitle, titles, accessType, userId, uuid,
                             signed, putOk, encodeUri, saveThrew, extractThrew);
      save := o.save;
      if o.reset {
        programTitle := "";
        slots := [];
        mediaType := None;
      } else {
        error := o.message;
      }
      uploading := false;
    }
  }

  /** Under the invariant the kind filter of the upload drops no filled
      slot: every slot holding a file is sent. */
  lemma FilledAreAllFiles(slots: seq<Slot>, kind: MediaKind)
    requires forall i :: 0 <= i < |slots| && slots[i].file.Some? ==> KindOf(slots[i].file.value.mime) == Some(kind)
    ensures forall s :: s in slots && s.file.Some? ==> s in Keep(slots, Filled(kind))
  {
    forall s | s in slots && s.file.Some? ensures s in Keep(slots, Filled(kind)) {
      KeepKeeps(slots, Filled(kind), s);
    }
  }
}
