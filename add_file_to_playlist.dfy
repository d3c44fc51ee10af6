/** Adding files to an existing playlist,
    client/src/components/AddFileToPlaylist.js: slots are added and removed
    freely, each takes one audio or video file (all of one kind), each may
    carry a letter position checked against the playlist, and the upload
    sends the filled slots and saves them to the project's playlist. */
module AddFileToPlaylist {
  import opened JsValues
  import opened Mongo
  import opened Client
  import opened Media
  import opened Strings

  /** A slot of `playlistFiles`. */
  datatype PSlot = PSlot(id: string, file: Option<LocalFile>, status: string, slotPosition: string, seqPos: nat)

  /** `addSequenceSlot`: an empty slot numbered one past the count. */
  function AddSequenceSlot(slots: seq<PSlot>, freshId: string): (r: seq<PSlot>)
    ensures |r| == |slots| + 1 && r[..|slots|] == slots
    ensures r[|slots|] == PSlot(freshId, None, "", "", |slots| + 1)
  {
    slots + [PSlot(freshId, None, "", "", |slots| + 1)]
  }

  function NotSlot(slotId: string): PSlot -> bool
  {
    (s: PSlot) => s.id != slotId
  }

  /** `removeSequenceSlot`: every slot with that id goes; the others keep
      their order and their numbers. */
  function RemoveSequenceSlot(slots: seq<PSlot>, slotId: string): (r: seq<PSlot>)
    ensures forall s :: s in r <==> s in slots && s.id != slotId
    ensures |r| <= |slots|
  {
    KeepMembers(slots, NotSlot(slotId));
    Keep(slots, NotSlot(slotId))
  }

  /** Numbers are not given out again after a removal, so removing the first
      of two slots and adding one leaves two slots numbered 2. */
  lemma SeqPosRepeats(a: PSlot, b: PSlot, freshId: string)
    requires a.seqPos == 1 && b.seqPos == 2 && a.id != b.id
    ensures var r := AddSequenceSlot(RemoveSequenceSlot([a, b], a.id), freshId);
      |r| == 2 && r[0].seqPos == 2 && r[1].seqPos == 2
  {
    assert Keep([a, b], NotSlot(a.id)) == [b] by {
      KeepAppend([a], [b], NotSlot(a.id));
    }
  }

  /** A slot holding a file. */
  function HasFile(): PSlot -> bool
  {
    (s: PSlot) => s.file.Some?
  }

  /** `^[a-z]$`. */
  predicate OneLetter(s: string)
  {
    |s| == 1 && IsLower(s[0])
  }

  /** The `/checkSlot` body. */
  datatype CheckSlot = CheckSlot(userId: JsVal, projectId: string, slotPosition: string)

  /** `authUser?._id`. */
  function UserIdValue(userId: string): (v: JsVal)
    ensures v == Undef <==> !SignedIn(userId)
  {
    if SignedIn(userId) then Str(userId) else Undef
  }

  const LetterError := "Slot position must be a letter from a to z."
  const CheckSlotError := "An error occurred while checking slot position."
  const TakenError := "Slot position already exists in this playlist."
  const KindAlert := "Only audio or video files are allowed."
  const ErrorsAlert := "Please resolve all errors before uploading."
  const EmptyAlert := "No files to upload."
  const FirstKindAlert := "Invalid file type. Only audio or video files are allowed."

  function MixedAlert(k: MediaKind): string
  {
    "You can only add " + KindName(k) + " files to this playlist."
  }

  function MismatchAlert(k: MediaKind): string
  {
    "All files must be " + KindName(k) + " files."
  }

  /** The error recorded for a slot position: none for an empty value; a
      value that is not one letter is refused without asking; otherwise the
      check's refusal message or its failure. */
  function PositionMessage(value: string, check: Call<Answer>): (m: string)
    ensures value == "" ==> m == ""
    ensures value != "" && !OneLetter(value) ==> m == LetterError
    ensures OneLetter(value) ==>
      (check.Threw? ==> m == CheckSlotError) &&
      (check.Returned? && check.body.success ==> m == "") &&
      (check.Returned? && !check.body.success ==> m == MessageOr(check.body.message, TakenError) && m != "")
  {
    if value == "" then ""
    else if !OneLetter(value) then LetterError
    else match check
      case Threw => CheckSlotError
      case Returned(answer) => if answer.success then "" else MessageOr(answer.message, TakenError)
  }

  /** The alert that stops the upload before it starts, in the order the
      handler checks: a slot error shows, no slots, a first slot without an
      audio or video file, or a filled slot of the other kind. */
  function UploadAlert(errors: map<string, string>, slots: seq<PSlot>): (a: Option<string>)
    ensures (exists id :: id in errors && errors[id] != "") ==> a == Some(ErrorsAlert)
    ensures !(exists id :: id in errors && errors[id] != "") ==>
      (slots == [] ==> a == Some(EmptyAlert)) &&
      (slots != [] && (slots[0].file.None? || KindOf(slots[0].file.value.mime).None?) ==> a == Some(FirstKindAlert)) &&
      (slots != [] && slots[0].file.Some? && KindOf(slots[0].file.value.mime).Some? ==>
         var k := KindOf(slots[0].file.value.mime).value;
         a == (if exists i :: 0 <= i < |slots| && slots[i].file.Some? && !StartsWith(slots[i].file.value.mime, KindName(k))
               then Some(MismatchAlert(k)) else None))
  {
    if exists id :: id in errors && errors[id] != "" then Some(ErrorsAlert)
    else if slots == [] then Some(EmptyAlert)
    else if slots[0].file.None? || KindOf(slots[0].file.value.mime).None? then Some(FirstKindAlert)
    else
      var k := KindOf(slots[0].file.value.mime).value;
      if exists i :: 0 <= i < |slots| && slots[i].file.Some? && !StartsWith(slots[i].file.value.mime, KindName(k))
      then Some(MismatchAlert(k)) else None
  }

  /** An entry of the `/new-save-playlist-file-keys` body. */
  datatype PlaylistFile = PlaylistFile(key: JsVal, fileName: string, seqPos: nat, url: string, slotPosition: string,
                                       accessType: string, mediaType: MediaKind)

  datatype SavePlaylist = SavePlaylist(files: seq<PlaylistFile>, accessType: string, userId: string, projectId: string)

  /** The `k`-th upload went through: a URL and a key were signed and the
      `PUT` succeeded. */
  predicate Uploaded(signed: nat -> Call<Signed>, putOk: nat -> bool, k: nat)
  {
    signed(k).Returned? && signed(k).body.url != "" && Truthy(signed(k).body.key) && putOk(k)
  }

  /** What `Promise.all` of the uploads resolves to: per filled slot, the
      signed key and URL, the file's own name, the slot's number and
      position, the access type and the playlist's kind. */
  function PlaylistFiles(chosen: seq<PSlot>, signed: nat -> Call<Signed>, accessType: string, kind: MediaKind)
    : (r: seq<PlaylistFile>)
    requires forall k :: 0 <= k < |chosen| ==> chosen[k].file.Some?
    ensures |r| == |chosen|
    ensures forall k :: 0 <= k < |r| ==>
      r[k].fileName == chosen[k].file.value.name && r[k].seqPos == chosen[k].seqPos &&
      r[k].slotPosition == chosen[k].slotPosition && r[k].accessType == accessType && r[k].mediaType == kind &&
      (signed(k).Returned? ==> r[k].key == signed(k).body.key && r[k].url == signed(k).body.url)
  {
    seq(|chosen|, k requires 0 <= k < |chosen| =>
      var key := if signed(k).Returned? then signed(k).body.key else Undef;
      var url := if signed(k).Returned? then signed(k).body.url else "";
      PlaylistFile(key, chosen[k].file.value.name, chosen[k].seqPos, url, chosen[k].slotPosition, accessType, kind))
  }

  lemma HasFileKept(slots: seq<PSlot>)
    ensures forall k :: 0 <= k < |Keep(slots, HasFile())| ==> Keep(slots, HasFile())[k].file.Some?
  {
    forall k | 0 <= k < |Keep(slots, HasFile())| ensures Keep(slots, HasFile())[k].file.Some? {
      KeepMembers(slots, HasFile());
      assert Keep(slots, HasFile())[k] in Keep(slots, HasFile());
    }
  }

  /** How the `try` block ends: the save request sent, whether the
      extraction was asked, and whether `onPlayUploadSuccess` ran. */
  datatype PlaylistOutcome = PlaylistOutcome(save: Option<SavePlaylist>, extract: bool, notified: bool)

  /** The `try` block of `handleFileUpload`: without a user, or when one
      upload fails, nothing is saved. With no filled slot nothing is sent
      and nobody is told. Otherwise the files are saved; when that answers
      with a message the extraction is asked for, and whenever the save
      answers at all the parent is told the upload succeeded. */
  function PlaylistUpload(slots: seq<PSlot>, kind: MediaKind, accessType: string, userId: string, projectId: string,
                          signed: nat -> Call<Signed>, putOk: nat -> bool, saveReply: Call<JsVal>)
    : (o: PlaylistOutcome)
    ensures o.save.Some? <==>
      SignedIn(userId) && Keep(slots, HasFile()) != [] &&
      forall k :: 0 <= k < |Keep(slots, HasFile())| ==> Uploaded(signed, putOk, k)
    ensures o.save.Some? ==> (HasFileKept(slots);
      o.save.value == SavePlaylist(PlaylistFiles(Keep(slots, HasFile()), signed, accessType, kind), accessType,
                                   userId, projectId))
    ensures o.notified <==> o.save.Some? && saveReply.Returned?
    ensures o.extract <==> o.notified && Truthy(saveReply.body)
  {
    var chosen := Keep(slots, HasFile());
    HasFileKept(slots);
    if !SignedIn(userId) || !(forall k :: 0 <= k < |chosen| ==> Uploaded(signed, putOk, k)) || chosen == [] then
      PlaylistOutcome(None, false, false)
    else
      var save := SavePlaylist(PlaylistFiles(chosen, signed, accessType, kind), accessType, userId, projectId);
      PlaylistOutcome(Some(save), saveReply.Returned? && Truthy(saveReply.body), saveReply.Returned?)
  }

  class AddFileToPlaylist {
    const projectId: string
    var slots: seq<PSlot>
    var uploading: bool
    var accessType: string
    var errors: map<string, string>
    var mediaType: Option<MediaKind>
    var mixed: bool

    /** Every file in a slot is of the playlist's kind. */
    predicate Valid()
      reads this
    {
      forall i :: 0 <= i < |slots| && slots[i].file.Some? ==>
        mediaType.Some? && KindOf(slots[i].file.value.mime) == mediaType
    }

    constructor (projectId: string)
      ensures Valid()
      ensures this.projectId == projectId && slots == [] && !uploading && accessType == "private"
      ensures errors == map[] && mediaType.None? && !mixed
    {
      this.projectId := projectId;
      slots := [];
      uploading := false;
      accessType := "private";
      errors := map[];
      mediaType := None;
      mixed := false;
    }

    method AddSlot(freshId: string)
      requires Valid()
      modifies this
      ensures Valid()
      ensures slots == AddSequenceSlot(old(slots), freshId)
      ensures errors == old(errors) && mediaType == old(mediaType) && mixed == old(mixed) && uploading == old(uploading)
    {
      slots := AddSequenceSlot(slots, freshId);
    }

    method RemoveSlot(slotId: string)
      requires Valid()
      modifies this
      ensures Valid()
      ensures slots == RemoveSequenceSlot(old(slots), slotId)
      ensures errors == old(errors) && mediaType == old(mediaType) && mixed == old(mixed) && uploading == old(uploading)
    {
      slots := RemoveSequenceSlot(slots, slotId);
    }

    /** `handleDrop`: a file that is neither audio nor video is refused with
        an alert; the first accepted file fixes the kind; a file of the
        other kind raises the mixed-media flag and leaves the slots alone;
        otherwise the flag drops and the slot takes the file. An empty drop
        throws before changing anything. */
    method HandleDrop(accepted: seq<LocalFile>, slotId: string) returns (alert: Option<string>)
      requires Valid()
      modifies this
      ensures Valid()
      ensures accepted == [] ==> alert.None? && slots == old(slots) && mediaType == old(mediaType) && mixed == old(mixed)
      ensures accepted != [] && KindOf(accepted[0].mime).None? ==>
        alert == Some(KindAlert) && slots == old(slots) && mediaType == old(mediaType) && mixed == old(mixed)
      ensures accepted != [] && KindOf(accepted[0].mime).Some? && old(mediaType).Some? &&
              old(mediaType) != KindOf(accepted[0].mime) ==>
        alert == Some(MixedAlert(old(mediaType).value)) && slots == old(slots) && mediaType == old(mediaType) && mixed
      ensures accepted != [] && KindOf(accepted[0].mime).Some? &&
              (old(mediaType).None? || old(mediaType) == KindOf(accepted[0].mime)) ==>
        alert.None? && mediaType == KindOf(accepted[0].mime) && !mixed && |slots| == |old(slots)| &&
        forall i :: 0 <= i < |slots| ==>
          slots[i] == if old(slots)[i].id == slotId then old(slots)[i].(file := Some(accepted[0])) else old(slots)[i]
      ensures errors == old(errors) && uploading == old(uploading)
    {
      if accepted == [] {
        return None;
      }
      var newFile := accepted[0];
      var fileType := KindOf(newFile.mime);
      if fileType.None? {
        return Some(KindAlert);
      }
      if mediaType.None? {
        mediaType := fileType;
      } else if mediaType != fileType {
        mixed := true;
        return Some(MixedAlert(mediaType.value));
      }
      mixed := false;
      slots := seq(|slots|, i requires 0 <= i < |slots| reads this =>
        if slots[i].id == slotId then slots[i].(file := Some(newFile)) else slots[i]);
      return None;
    }

    /** `handleSlotPositionChange`: the slot's error becomes the position's
        message and the raw value is stored either way; a one-letter value
        is checked against the playlist. */
    method HandleSlotPositionChange(slotId: string, value: string, userId: string, check: Call<Answer>)
      returns (request: Option<CheckSlot>)
      requires Valid()
      modifies this
      ensures Valid()
      ensures request == if OneLetter(value) then Some(CheckSlot(UserIdValue(userId), projectId, value)) else None
      ensures errors == old(errors)[slotId := PositionMessage(value, check)]
      ensures |slots| == |old(slots)| &&
        forall i :: 0 <= i < |slots| ==>
          slots[i] == if old(slots)[i].id == slotId then old(slots)[i].(slotPosition := value) else old(slots)[i]
      ensures mediaType == old(mediaType) && mixed == old(mixed) && uploading == old(uploading)
    {
      request := if OneLetter(value) then Some(CheckSlot(UserIdValue(userId), projectId, value)) else None;
      var errorMessage := PositionMessage(value, check);
      errors := errors[slotId := errorMessage];
      slots := seq(|slots|, i requires 0 <= i < |slots| reads this =>
        if slots[i].id == slotId then slots[i].(slotPosition := value) else slots[i]);
    }

    /** `handleFileUpload`: an alert stops it before it starts; otherwise the
        attempt runs and, however it ends, uploading stops and the slots are
        cleared. */
    method HandleFileUpload(userId: string, signed: nat -> Call<Signed>, putOk: nat -> bool, saveReply: Call<JsVal>)
      returns (alert: Option<string>, outcome: PlaylistOutcome)
      requires Valid()
      modifies this
      ensures Valid()
      ensures alert == UploadAlert(old(errors), old(slots))
      ensures alert.Some? ==>
        outcome == PlaylistOutcome(None, false, false) && slots == old(slots) && uploading == old(uploading)
      ensures alert.None? ==>
        outcome == PlaylistUpload(old(slots), KindOf(old(slots)[0].file.value.mime).value, accessType, userId,
                                  projectId, signed, putOk, saveReply) &&
        slots == [] && !uploading
      ensures errors == old(errors) && mediaType == old(mediaType) && mixed == old(mixed) && accessType == old(accessType)
    {
      alert := UploadAlert(errors, slots);
      if alert.Some? {
        return alert, PlaylistOutcome(None, false, false);
      }
      var kind := KindOf(slots[0].file.value.mime).value;
      outcome := PlaylistUpload(slots, kind, accessType, userId, projectId, signed, putOk, saveReply);
      uploading := false;
      slots := [];
    }
  }

  /** When the upload starts, every filled slot is of the first slot's kind,
      so the files sent all carry the kind they are labelled with. */
  lemma SentMatchKind(errors: map<string, string>, slots: seq<PSlot>)
    requires UploadAlert(errors, slots).None?
    ensures slots != [] && slots[0].file.Some? && KindOf(slots[0].file.value.mime).Some?
    ensures forall s :: s in Keep(slots, HasFile()) ==>
      s.file.Some? && KindOf(s.file.value.mime) == KindOf(slots[0].file.value.mime)
  {
    var k := KindOf(slots[0].file.value.mime).value;
    KeepMembers(slots, HasFile());
    forall s | s in Keep(slots, HasFile())
      ensures s.file.Some? && KindOf(s.file.value.mime) == KindOf(slots[0].file.value.mime)
    {
      var i :| 0 <= i < |slots| && slots[i] == s;
      assert StartsWith(s.file.value.mime, KindName(k));
    }
  }

  /** A first slot left empty stops the upload, whatever the others hold. */
  lemma EmptyFirstSlotBlocks(errors: map<string, string>, slots: seq<PSlot>)
    requires forall id :: id in errors ==> errors[id] == ""
    requires slots != [] && slots[0].file.None?
    ensures UploadAlert(errors, slots) == Some(FirstKindAlert)
  {
  }
}
