/** The playlist routes of api/s3routes.js: `/new-save-playlist-file-keys`,
    `/save-reordered-play`, `/extract-file-metadata`, `/update-slot-position`,
    `/checkSlot`, `/add-note` and `/delete-note`. */
module S3PlaylistRoutes {
  import opened JsValues
  import opened Strings
  import opened Mongo
  import opened Store
  import Metadata
  import S3ProgramRoutes

  /** The first project with `projectId` gets `f` applied to its playlist
      (`'userMeta.$.playlistsFile'`). */
  function SetPlaylist(d: UserDoc, projectId: string, files: seq<FileRecord>): UserDoc
  {
    UpdateProject(d, projectId, (p: Project) => p.(playlistsFile := files))
  }

  function AppendPlaylist(d: UserDoc, projectId: string, files: seq<FileRecord>): UserDoc
  {
    UpdateProject(d, projectId, (p: Project) => p.(playlistsFile := p.playlistsFile + files))
  }

  // ------------------------------------------- /new-save-playlist-file-keys

  /** One element of the request's `files`. */
  datatype PlaylistEntry = PlaylistEntry(key: string, fileName: string, url: string, fileId: string,
                                         slotPosition: JsVal, seqPos: JsVal)

  /** The record built for the i-th entry: trimmed key, file name with
      whitespace runs turned into `_`, `encodeURI`d url (`encode`), the given
      or a fresh file id, the slot as given (a missing one stored as `null`)
      and `seqPos || index + 1`. */
  function PlaylistDocument(e: PlaylistEntry, i: nat, accessType: string, projectId: string,
                            encode: string -> string, uuid: string, now: string): (f: FileRecord)
    ensures f.seqPos == Or(e.seqPos, Num(i + 1)) && Truthy(f.seqPos)
    ensures f.fileId == (if e.fileId != "" then e.fileId else uuid)
    ensures NoSpace(f.fileName) && f.key == Trim(e.key)
    ensures f.slotPosition != Undef && (e.slotPosition != Undef ==> f.slotPosition == e.slotPosition)
  {
    CollapseSpacesNoSpace(Trim(e.fileName));
    FileRecord(key := Trim(e.key), fileName := CollapseSpaces(Trim(e.fileName)), url := encode(e.url),
               accessType := accessType, projectId := projectId, projectTitle := "", programId := "",
               fileId := if e.fileId != "" then e.fileId else uuid, createdAt := now,
               slotPosition := S3ProgramRoutes.Stored(e.slotPosition), seqPos := Or(e.seqPos, Num(i + 1)), duration := Undef,
               frameRate := Undef, resolution := Undef, metadataError := Undef, notes := [])
  }

  function PlaylistDocuments(entries: seq<PlaylistEntry>, accessType: string, projectId: string,
                             encode: string -> string, uuid: nat -> string, now: string): (fs: seq<FileRecord>)
    ensures |fs| == |entries|
    ensures forall i :: 0 <= i < |entries| ==> fs[i] == PlaylistDocument(entries[i], i, accessType, projectId, encode, uuid(i), now)
  {
    seq(|entries|, i requires 0 <= i < |entries| => PlaylistDocument(entries[i], i, accessType, projectId, encode, uuid(i), now))
  }

  /** A batch without `seqPos` values is numbered 1, 2, ... in request order. */
  lemma PlaylistDocumentsNumbered(entries: seq<PlaylistEntry>, accessType: string, projectId: string,
                                  encode: string -> string, uuid: nat -> string, now: string)
    requires forall i :: 0 <= i < |entries| ==> !Truthy(entries[i].seqPos)
    ensures var fs := PlaylistDocuments(entries, accessType, projectId, encode, uuid, now);
      forall i :: 0 <= i < |fs| ==> fs[i].seqPos == Num(i + 1)
  {
  }

  datatype SavePlaylistOutcome = SavePlaylistMissing | SavePlaylistNotFound | SavePlaylistSaved

  /** The handler: `$push: {'userMeta.$.playlistsFile': {$each: playlistFiles}}`
      on the first project with `projectId`; nothing modified means 404. */
  function NewSavePlaylistFileKeys(st: State, files: Option<seq<PlaylistEntry>>, accessType: string, userId: string,
                                   projectId: string, encode: string -> string, uuid: nat -> string, now: string)
    : (r: (SavePlaylistOutcome, State))
    ensures r.0 == SavePlaylistMissing <==>
      files.None? || files.value == [] || userId == "" || projectId == "" || accessType == ""
    ensures r.0 == SavePlaylistNotFound <==>
      r.0 != SavePlaylistMissing && (userId !in st.docs || ProjectIndex(st.docs[userId], projectId).None?)
    ensures r.0 != SavePlaylistSaved ==> r.1 == st
    ensures r.0 == SavePlaylistSaved ==>
      var d := st.docs[userId];
      userId in r.1.docs &&
      var d' := r.1.docs[userId];
      r.1 == st.(docs := st.docs[userId := d']) &&
      Playlist(d', projectId) ==
        Playlist(d, projectId) + PlaylistDocuments(files.value, accessType, projectId, encode, uuid, now)
  {
    if files.None? || files.value == [] || userId == "" || projectId == "" || accessType == "" then
      (SavePlaylistMissing, st)
    else if userId !in st.docs then (SavePlaylistNotFound, st)
    else
      var d := st.docs[userId];
      var playlistFiles := PlaylistDocuments(files.value, accessType, projectId, encode, uuid, now);
      var d' := AppendPlaylist(d, projectId, playlistFiles);
      if ProjectIndex(d, projectId).None? then
        (SavePlaylistNotFound, st)
      else
        assert Playlist(d', projectId) == Playlist(d, projectId) + playlistFiles by {
          var i := ProjectIndex(d, projectId).value;
          FindFirstAfterUpdate(Meta(d), WithProjectId(projectId),
                               Meta(d)[i].(playlistsFile := Meta(d)[i].playlistsFile + playlistFiles));
        }
        (SavePlaylistSaved, st.(docs := st.docs[userId := d']))
  }

  // --------------------------------------------------- /save-reordered-play

  datatype ReorderOutcome = ReorderMissing | ReorderNotFound | ReorderSaved

  /** The handler: the submitted list, renumbered, replaces the first
      matching project's playlist; an identical result counts as not found. */
  function SaveReorderedPlay(st: State, projectId: string, files: Option<seq<FileRecord>>, userId: string)
    : (r: (ReorderOutcome, State))
    ensures r.0 == ReorderMissing <==> files.None? || files.value == [] || projectId == "" || userId == ""
    ensures r.0 == ReorderNotFound <==>
      !(files.None? || files.value == [] || projectId == "" || userId == "") &&
      (userId !in st.docs || ProjectIndex(st.docs[userId], projectId).None? ||
       Playlist(st.docs[userId], projectId) == Renumbered(files.value))
    ensures r.0 != ReorderSaved ==> r.1 == st
    ensures r.0 == ReorderSaved ==>
      userId in st.docs && ProjectIndex(st.docs[userId], projectId).Some? &&
      userId in r.1.docs && r.1 == st.(docs := st.docs[userId := r.1.docs[userId]]) &&
      Playlist(r.1.docs[userId], projectId) == Renumbered(files.value) &&
      Playlist(st.docs[userId], projectId) != Renumbered(files.value)
  {
    if files.None? || files.value == [] || projectId == "" || userId == "" then (ReorderMissing, st)
    else if userId !in st.docs || ProjectIndex(st.docs[userId], projectId).None? then (ReorderNotFound, st)
    else
      var d := st.docs[userId];
      var updated := Renumbered(files.value);
      var d' := SetPlaylist(d, projectId, updated);
      var i := ProjectIndex(d, projectId).value;
      FindFirstAfterUpdate(Meta(d), WithProjectId(projectId), Meta(d)[i].(playlistsFile := updated));
      assert Playlist(d, projectId) == updated ==> d' == d by {
        if Playlist(d, projectId) == updated {
          assert Meta(d)[i].(playlistsFile := updated) == Meta(d)[i];
          assert Meta(d)[i := Meta(d)[i]] == Meta(d);
        }
      }
      if d' == d then (ReorderNotFound, st)
      else (ReorderSaved, st.(docs := st.docs[userId := d']))
  }

  /** Saving the same order twice: the second request changes nothing and is
      answered 404. */
  lemma SaveReorderedTwice(st: State, projectId: string, files: seq<FileRecord>, userId: string)
    requires SaveReorderedPlay(st, projectId, Some(files), userId).0 == ReorderSaved
    ensures var st1 := SaveReorderedPlay(st, projectId, Some(files), userId).1;
      SaveReorderedPlay(st1, projectId, Some(files), userId).0 == ReorderNotFound
  {
    var st1 := SaveReorderedPlay(st, projectId, Some(files), userId).1;
    var d := st1.docs[userId];
    var i := ProjectIndex(d, projectId).value;
    assert Meta(d)[i].(playlistsFile := Renumbered(files)) == Meta(d)[i];
    assert Meta(d)[i := Meta(d)[i]] == Meta(d);
  }

  // ------------------------------------------------- /extract-file-metadata

  datatype ExtractPlayOutcome = ExtractPlayMissing | ExtractPlayNotFound | ExtractPlayBadKey
                              | ExtractPlayUnchanged | ExtractPlayDone(files: seq<FileRecord>)

  /** `/extract-file-metadata`: the metadata pass over the first matching
      project's playlist, written back with `$set`; a write that changes
      nothing is answered 404. */
  method ExtractFileMetadata(st: State, userId: string, projectId: string,
                             decode: string -> Option<string>, probe: nat -> Metadata.FileProbe)
    returns (outcome: ExtractPlayOutcome, st': State)
    ensures outcome == ExtractPlayMissing <==> userId == "" || projectId == ""
    ensures !outcome.ExtractPlayDone? ==> st' == st
    ensures outcome == ExtractPlayNotFound <==>
      userId != "" && projectId != "" &&
      (userId !in st.docs || st.docs[userId].userMeta.None? || ProjectIndex(st.docs[userId], projectId).None?)
    ensures outcome == ExtractPlayBadKey ==> !Metadata.AllKeysDecode(Playlist(st.docs[userId], projectId), decode)
    ensures outcome in {ExtractPlayUnchanged} || outcome.ExtractPlayDone? ==>
      userId in st.docs && Metadata.AllKeysDecode(Playlist(st.docs[userId], projectId), decode)
    ensures outcome == ExtractPlayUnchanged ==>
      var d := st.docs[userId];
      SetPlaylist(d, projectId, Metadata.ExtractList(Playlist(d, projectId), probe, false)) == d
    ensures outcome.ExtractPlayDone? ==>
      var d := st.docs[userId];
      outcome.files == Metadata.ExtractList(Playlist(d, projectId), probe, false) &&
      st' == st.(docs := st.docs[userId := SetPlaylist(d, projectId, outcome.files)]) &&
      SetPlaylist(d, projectId, outcome.files) != d
  {
    if userId == "" || projectId == "" {
      return ExtractPlayMissing, st;
    }
    if userId !in st.docs || st.docs[userId].userMeta.None? {
      return ExtractPlayNotFound, st;
    }
    var d := st.docs[userId];
    var pi := ProjectIndex(d, projectId);
    if pi.None? {
      return ExtractPlayNotFound, st;
    }
    var files := Meta(d)[pi.value].playlistsFile;
    var extracted := Metadata.ExtractChecked(files, decode, probe, false);
    if extracted.None? {
      return ExtractPlayBadKey, st;
    }
    var filesWithMetadata := extracted.value;
    var d' := SetPlaylist(d, projectId, filesWithMetadata);
    if d' == d {
      return ExtractPlayUnchanged, st;
    }
    return ExtractPlayDone(filesWithMetadata), st.(docs := st.docs[userId := d']);
  }

  /** Re-running the pass with the same probe results rewrites an identical
      playlist, so the second request is answered 404. */
  lemma ExtractFileMetadataAgain(d: UserDoc, projectId: string, probe: nat -> Metadata.FileProbe)
    requires ProjectIndex(d, projectId).Some?
    ensures var d1 := SetPlaylist(d, projectId, Metadata.ExtractList(Playlist(d, projectId), probe, false));
      SetPlaylist(d1, projectId, Metadata.ExtractList(Playlist(d1, projectId), probe, false)) == d1
  {
    var once := Metadata.ExtractList(Playlist(d, projectId), probe, false);
    var i := ProjectIndex(d, projectId).value;
    FindFirstAfterUpdate(Meta(d), WithProjectId(projectId), Meta(d)[i].(playlistsFile := once));
    var d1 := SetPlaylist(d, projectId, once);
    Metadata.ExtractListIdempotent(Playlist(d, projectId), probe, false);
    assert Playlist(d1, projectId) == once;
    assert Meta(d1)[i].(playlistsFile := once) == Meta(d1)[i];
    assert Meta(d1)[i := Meta(d1)[i]] == Meta(d1);
  }

  // ----------------------------------------------------- slot positions

  /** The match of `{userId, 'userMeta.projectId': p, 'userMeta.playlistsFile.fileId': f}`:
      the two conditions may be met by different projects. */
  predicate HasProjectAndFile(d: UserDoc, projectId: string, fileId: string)
  {
    (exists i :: 0 <= i < |Meta(d)| && Meta(d)[i].projectId == projectId) &&
    (exists i, j :: 0 <= i < |Meta(d)| && 0 <= j < |Meta(d)[i].playlistsFile| &&
                    Meta(d)[i].playlistsFile[j].fileId == fileId)
  }

  /** Some project with `projectId` has a playlist file in slot `slot` with
      another file id (`$elemMatch` on `{slotPosition, fileId: {$ne: fileId}}`). */
  predicate SlotTakenByOther(d: UserDoc, projectId: string, fileId: string, slot: JsVal)
  {
    exists i, j :: 0 <= i < |Meta(d)| && Meta(d)[i].projectId == projectId &&
                   0 <= j < |Meta(d)[i].playlistsFile| &&
                   Meta(d)[i].playlistsFile[j].slotPosition == slot && Meta(d)[i].playlistsFile[j].fileId != fileId
  }

  /** `{slotPosition: v}` on one record. */
  function SlotTo(v: JsVal): FileRecord -> FileRecord
  {
    (f: FileRecord) => f.(slotPosition := v)
  }

  function SlotIn(fileId: string, v: JsVal): Project -> Project
  {
    (p: Project) => p.(playlistsFile := UpdateWhere(p.playlistsFile, WithFileId(fileId), SlotTo(v)))
  }

  /** `$set 'userMeta.$[meta].playlistsFile.$[file].slotPosition'` with the
      filters `meta.projectId` and `file.fileId`: every matching file of
      every matching project. */
  function SetPlaylistSlot(d: UserDoc, projectId: string, fileId: string, v: JsVal): UserDoc
  {
    WithMeta(d, UpdateWhere(Meta(d), WithProjectId(projectId), SlotIn(fileId, v)))
  }

  datatype SlotOutcome = SlotInvalid | SlotFileNotFound | SlotDuplicate | SlotNotUpdated | SlotUpdated

  function SlotReply(o: SlotOutcome): Reply
  {
    match o
    case SlotInvalid => Status(400)
    case SlotFileNotFound => Status(404)
    case SlotDuplicate => Status(400)
    case SlotNotUpdated => Status(500)
    case SlotUpdated => Success(200)
  }

  /** `/update-slot-position`. */
  function UpdateSlotPosition(st: State, userId: string, projectId: string, fileId: string, slot: JsVal)
    : (r: (SlotOutcome, State))
    ensures r.0 == SlotInvalid <==> !SlotValid(slot)
    ensures r.0 == SlotFileNotFound <==>
      SlotValid(slot) && (userId !in st.docs || !HasProjectAndFile(st.docs[userId], projectId, fileId))
    ensures r.0 == SlotDuplicate <==>
      SlotValid(slot) && userId in st.docs && HasProjectAndFile(st.docs[userId], projectId, fileId) &&
      Truthy(slot) && SlotTakenByOther(st.docs[userId], projectId, fileId, slot)
    ensures r.0 == SlotNotUpdated <==>
      SlotValid(slot) && userId in st.docs && HasProjectAndFile(st.docs[userId], projectId, fileId) &&
      !(Truthy(slot) && SlotTakenByOther(st.docs[userId], projectId, fileId, slot)) &&
      SetPlaylistSlot(st.docs[userId], projectId, fileId, Or(slot, Str(""))) == st.docs[userId]
    ensures r.0 != SlotUpdated ==> r.1 == st
    ensures r.0 == SlotUpdated ==>
      var d := st.docs[userId];
      r.1 == st.(docs := st.docs[userId := SetPlaylistSlot(d, projectId, fileId, Or(slot, Str("")))]) &&
      SetPlaylistSlot(d, projectId, fileId, Or(slot, Str(""))) != d
  {
    if !SlotValid(slot) then (SlotInvalid, st)
    else if userId !in st.docs || !HasProjectAndFile(st.docs[userId], projectId, fileId) then (SlotFileNotFound, st)
    else
      var d := st.docs[userId];
      if Truthy(slot) && SlotTakenByOther(d, projectId, fileId, slot) then (SlotDuplicate, st)
      else
        var d' := SetPlaylistSlot(d, projectId, fileId, Or(slot, Str("")));
        if d' == d then (SlotNotUpdated, st)
        else (SlotUpdated, st.(docs := st.docs[userId := d']))
  }

  /** Within each project with `projectId`, files with different ids never
      share a non-empty slot. */
  predicate SlotsUnique(d: UserDoc, projectId: string)
  {
    forall i, j, k :: 0 <= i < |Meta(d)| && Meta(d)[i].projectId == projectId &&
                      0 <= j < |Meta(d)[i].playlistsFile| && 0 <= k < |Meta(d)[i].playlistsFile| &&
                      Meta(d)[i].playlistsFile[j].fileId != Meta(d)[i].playlistsFile[k].fileId &&
                      Truthy(Meta(d)[i].playlistsFile[j].slotPosition) ==>
                        Meta(d)[i].playlistsFile[j].slotPosition != Meta(d)[i].playlistsFile[k].slotPosition
  }

  /** The duplicate check guards the write: a successful update keeps the
      non-empty slots of the playlist unique. */
  lemma UpdateSlotKeepsUnique(st: State, userId: string, projectId: string, fileId: string, slot: JsVal)
    requires userId in st.docs && SlotsUnique(st.docs[userId], projectId)
    requires UpdateSlotPosition(st, userId, projectId, fileId, slot).0 == SlotUpdated
    ensures SlotsUnique(UpdateSlotPosition(st, userId, projectId, fileId, slot).1.docs[userId], projectId)
  {
    var d := st.docs[userId];
    var v := Or(slot, Str(""));
    var d' := SetPlaylistSlot(d, projectId, fileId, v);
    assert |Meta(d')| == |Meta(d)|;
    forall i, j, k | 0 <= i < |Meta(d')| && Meta(d')[i].projectId == projectId &&
                     0 <= j < |Meta(d')[i].playlistsFile| && 0 <= k < |Meta(d')[i].playlistsFile| &&
                     Meta(d')[i].playlistsFile[j].fileId != Meta(d')[i].playlistsFile[k].fileId &&
                     Truthy(Meta(d')[i].playlistsFile[j].slotPosition)
      ensures Meta(d')[i].playlistsFile[j].slotPosition != Meta(d')[i].playlistsFile[k].slotPosition
    {
      var old_ := Meta(d)[i].playlistsFile;
      assert Meta(d')[i] == SlotIn(fileId, v)(Meta(d)[i]);
      var new_ := Meta(d')[i].playlistsFile;
      assert new_ == UpdateWhere(old_, WithFileId(fileId), SlotTo(v));
      assert new_[j].fileId == old_[j].fileId && new_[k].fileId == old_[k].fileId;
      if old_[j].fileId == fileId {
        assert new_[j].slotPosition == v && new_[k] == old_[k];
        assert Truthy(slot) && v == slot;
        assert !SlotTakenByOther(d, projectId, fileId, slot);
      } else if old_[k].fileId == fileId {
        assert new_[j] == old_[j] && new_[k].slotPosition == v;
        if Truthy(v) {
          assert v == slot;
          assert !SlotTakenByOther(d, projectId, fileId, slot);
        }
      } else {
        assert new_[j] == old_[j] && new_[k] == old_[k];
      }
    }
  }

  /** The write touches each project with `projectId` through `SlotIn` and
      leaves the others alone. */
  lemma SetSlotAt(d: UserDoc, projectId: string, fileId: string, v: JsVal, i: nat)
    requires i < |Meta(d)|
    ensures var d' := SetPlaylistSlot(d, projectId, fileId, v);
      |Meta(d')| == |Meta(d)| &&
      Meta(d')[i] == (if Meta(d)[i].projectId == projectId then SlotIn(fileId, v)(Meta(d)[i]) else Meta(d)[i]) &&
      Meta(d')[i].projectId == Meta(d)[i].projectId &&
      |Meta(d')[i].playlistsFile| == |Meta(d)[i].playlistsFile| &&
      forall j :: 0 <= j < |Meta(d)[i].playlistsFile| ==>
        Meta(d')[i].playlistsFile[j].fileId == Meta(d)[i].playlistsFile[j].fileId &&
        Meta(d')[i].playlistsFile[j] ==
          (if Meta(d)[i].projectId == projectId && Meta(d)[i].playlistsFile[j].fileId == fileId
           then Meta(d)[i].playlistsFile[j].(slotPosition := v) else Meta(d)[i].playlistsFile[j])
  {
  }

  /** Setting the same slot twice is the same as setting it once. */
  lemma SetSlotIdempotent(d: UserDoc, projectId: string, fileId: string, v: JsVal)
    requires d.userMeta.Some?
    ensures var d1 := SetPlaylistSlot(d, projectId, fileId, v);
      SetPlaylistSlot(d1, projectId, fileId, v) == d1
  {
    var d1 := SetPlaylistSlot(d, projectId, fileId, v);
    var d2 := SetPlaylistSlot(d1, projectId, fileId, v);
    forall i | 0 <= i < |Meta(d)| ensures Meta(d2)[i] == Meta(d1)[i] {
      SetSlotAt(d, projectId, fileId, v, i);
      SetSlotAt(d1, projectId, fileId, v, i);
      assert Meta(d2)[i].playlistsFile == Meta(d1)[i].playlistsFile;
    }
    assert Meta(d2) == Meta(d1);
  }

  /** After the write the document still matches the file query. */
  lemma SetSlotStillMatches(d: UserDoc, projectId: string, fileId: string, v: JsVal)
    requires HasProjectAndFile(d, projectId, fileId)
    ensures HasProjectAndFile(SetPlaylistSlot(d, projectId, fileId, v), projectId, fileId)
  {
    var d1 := SetPlaylistSlot(d, projectId, fileId, v);
    var i0 :| 0 <= i0 < |Meta(d)| && Meta(d)[i0].projectId == projectId;
    SetSlotAt(d, projectId, fileId, v, i0);
    var i1, j1 :| 0 <= i1 < |Meta(d)| && 0 <= j1 < |Meta(d)[i1].playlistsFile| && Meta(d)[i1].playlistsFile[j1].fileId == fileId;
    SetSlotAt(d, projectId, fileId, v, i1);
    assert Meta(d1)[i1].playlistsFile[j1].fileId == fileId;
  }

  /** The write gives the slot only to files with `fileId`, so it creates no
      holder of `slot` with another id. */
  lemma SetSlotNoOtherHolder(d: UserDoc, projectId: string, fileId: string, v: JsVal, slot: JsVal)
    requires !SlotTakenByOther(d, projectId, fileId, slot)
    ensures !SlotTakenByOther(SetPlaylistSlot(d, projectId, fileId, v), projectId, fileId, slot)
  {
    var d1 := SetPlaylistSlot(d, projectId, fileId, v);
    forall i, j | 0 <= i < |Meta(d1)| && Meta(d1)[i].projectId == projectId && 0 <= j < |Meta(d1)[i].playlistsFile| &&
                  Meta(d1)[i].playlistsFile[j].fileId != fileId
      ensures Meta(d1)[i].playlistsFile[j].slotPosition != slot
    {
      SetSlotAt(d, projectId, fileId, v, i);
    }
  }

  /** Writing the slot the file already holds changes nothing, so the route
      answers 500 "update failed" instead of success. */
  lemma SameSlotAgainFails(st: State, userId: string, projectId: string, fileId: string, slot: JsVal)
    requires UpdateSlotPosition(st, userId, projectId, fileId, slot).0 == SlotUpdated
    ensures var st1 := UpdateSlotPosition(st, userId, projectId, fileId, slot).1;
      UpdateSlotPosition(st1, userId, projectId, fileId, slot).0 == SlotNotUpdated
  {
    var d := st.docs[userId];
    var v := Or(slot, Str(""));
    SetSlotStillMatches(d, projectId, fileId, v);
    if Truthy(slot) {
      SetSlotNoOtherHolder(d, projectId, fileId, v, slot);
    }
    SetSlotIdempotent(d, projectId, fileId, v);
  }

  /** `/checkSlot`: 400 when a field is missing, otherwise `success` says
      that no project with `projectId` has a playlist file in that slot. */
  function CheckSlot(st: State, userId: string, projectId: string, slot: JsVal): (r: Reply)
    ensures r.status == 400 <==> userId == "" || projectId == "" || !Truthy(slot)
    ensures r.status != 400 ==> r.status == 200
    ensures r.success <==>
      r.status == 200 &&
      (userId !in st.docs ||
       forall i, j :: 0 <= i < |Meta(st.docs[userId])| && Meta(st.docs[userId])[i].projectId == projectId &&
                      0 <= j < |Meta(st.docs[userId])[i].playlistsFile| ==>
                        Meta(st.docs[userId])[i].playlistsFile[j].slotPosition != slot)
  {
    if userId == "" || projectId == "" || !Truthy(slot) then Status(400)
    else if userId in st.docs && SlotTaken(st.docs[userId], projectId, slot) then Status(200)
    else Success(200)
  }

  predicate SlotTaken(d: UserDoc, projectId: string, slot: JsVal)
  {
    exists i, j :: 0 <= i < |Meta(d)| && Meta(d)[i].projectId == projectId &&
                   0 <= j < |Meta(d)[i].playlistsFile| && Meta(d)[i].playlistsFile[j].slotPosition == slot
  }

  /** A slot that `/checkSlot` reports free passes the duplicate check of
      `/update-slot-position`, whichever file it is then given to. */
  lemma CheckSlotFreeMeansNoDuplicate(st: State, userId: string, projectId: string, fileId: string, slot: JsVal)
    requires CheckSlot(st, userId, projectId, slot).success
    ensures UpdateSlotPosition(st, userId, projectId, fileId, slot).0 != SlotDuplicate
  {
  }

  /** `/checkSlot` does not exclude the asking file: a file that already holds
      a slot is told that its own slot is taken. */
  lemma CheckSlotCountsOwnFile(st: State, userId: string, projectId: string, slot: JsVal, i: nat, j: nat)
    requires userId != "" && projectId != "" && Truthy(slot) && userId in st.docs
    requires i < |Meta(st.docs[userId])| && Meta(st.docs[userId])[i].projectId == projectId
    requires j < |Meta(st.docs[userId])[i].playlistsFile| && Meta(st.docs[userId])[i].playlistsFile[j].slotPosition == slot
    ensures !CheckSlot(st, userId, projectId, slot).success
  {
  }

  // ------------------------------------------------ /add-note, /delete-note

  /** The request's `noteObject`; `note` must be a string. */
  datatype NoteObject = NoteObject(note: JsVal, uniqueId: string, createdAt: string)

  function NotesUpdate(g: seq<Note> -> seq<Note>): FileRecord -> FileRecord
  {
    (f: FileRecord) => f.(notes := g(f.notes))
  }

  /** Applies `g` to the notes of every file with `fileId` in every project
      with `projectId` (the two `arrayFilters`). */
  function UpdateNotes(d: UserDoc, projectId: string, fileId: string, g: seq<Note> -> seq<Note>): UserDoc
  {
    WithMeta(d, UpdateWhere(Meta(d), WithProjectId(projectId),
                            (p: Project) => p.(playlistsFile := UpdateWhere(p.playlistsFile, WithFileId(fileId), NotesUpdate(g)))))
  }

  function PushNote(n: Note): seq<Note> -> seq<Note>
  {
    (ns: seq<Note>) => ns + [n]
  }

  function WithUniqueId(uniqueId: string): Note -> bool
  {
    (n: Note) => n.uniqueId == uniqueId
  }

  function PullNotes(uniqueId: string): seq<Note> -> seq<Note>
  {
    (ns: seq<Note>) => Pull(ns, WithUniqueId(uniqueId))
  }

  datatype NoteOutcome = NoteInvalid | NoteNotFound | NoteSaved

  /** Some project with `projectId` holds a playlist file with `fileId`. */
  predicate FileInProject(d: UserDoc, projectId: string, fileId: string)
  {
    exists i, j :: 0 <= i < |Meta(d)| && Meta(d)[i].projectId == projectId &&
                   0 <= j < |Meta(d)[i].playlistsFile| && Meta(d)[i].playlistsFile[j].fileId == fileId
  }

  /** `/add-note`: `$push` of the note onto every matching file. */
  function AddNote(st: State, userId: string, projectId: string, fileId: string, noteObject: Option<NoteObject>)
    : (r: (NoteOutcome, State))
    ensures r.0 == NoteInvalid <==>
      userId == "" || projectId == "" || fileId == "" || noteObject.None? || !noteObject.value.note.Str?
    ensures r.0 == NoteNotFound <==>
      r.0 != NoteInvalid && (userId !in st.docs || !FileInProject(st.docs[userId], projectId, fileId))
    ensures r.0 != NoteSaved ==> r.1 == st
    ensures r.0 == NoteSaved ==>
      var n := Note(noteObject.value.note.s, noteObject.value.uniqueId, noteObject.value.createdAt);
      r.1 == st.(docs := st.docs[userId := UpdateNotes(st.docs[userId], projectId, fileId, PushNote(n))])
  {
    if userId == "" || projectId == "" || fileId == "" || noteObject.None? || !noteObject.value.note.Str? then
      (NoteInvalid, st)
    else if userId !in st.docs || !FileInProject(st.docs[userId], projectId, fileId) then
      (NoteNotFound, st)
    else
      var n := Note(noteObject.value.note.s, noteObject.value.uniqueId, noteObject.value.createdAt);
      (NoteSaved, st.(docs := st.docs[userId := UpdateNotes(st.docs[userId], projectId, fileId, PushNote(n))]))
  }

  /** `/delete-note`: `$pull` of the notes with `uniqueId` from every
      matching file; nothing removed means 404. */
  function DeleteNote(st: State, userId: string, projectId: string, fileId: string, uniqueId: string)
    : (r: (NoteOutcome, State))
    ensures r.0 == NoteInvalid <==> userId == "" || projectId == "" || fileId == "" || uniqueId == ""
    ensures r.0 == NoteNotFound <==>
      !(userId == "" || projectId == "" || fileId == "" || uniqueId == "") &&
      (userId !in st.docs ||
       UpdateNotes(st.docs[userId], projectId, fileId, PullNotes(uniqueId)) == st.docs[userId])
    ensures r.0 != NoteSaved ==> r.1 == st
    ensures r.0 == NoteSaved ==>
      userId in st.docs &&
      r.1 == st.(docs := st.docs[userId := UpdateNotes(st.docs[userId], projectId, fileId, PullNotes(uniqueId))]) &&
      r.1.docs[userId] != st.docs[userId]
  {
    if userId == "" || projectId == "" || fileId == "" || uniqueId == "" then (NoteInvalid, st)
    else if userId !in st.docs then (NoteNotFound, st)
    else
      var d' := UpdateNotes(st.docs[userId], projectId, fileId, PullNotes(uniqueId));
      if d' == st.docs[userId] then (NoteNotFound, st)
      else (NoteSaved, st.(docs := st.docs[userId := d']))
  }

  /** After `/add-note` each matching file's notes are its old notes followed
      by the new one; other files keep theirs. */
  lemma AddNoteAppends(d: UserDoc, projectId: string, fileId: string, n: Note, i: nat, j: nat)
    requires i < |Meta(d)| && j < |Meta(d)[i].playlistsFile|
    ensures var d' := UpdateNotes(d, projectId, fileId, PushNote(n));
      var f := Meta(d)[i].playlistsFile[j];
      |Meta(d')| == |Meta(d)| && |Meta(d')[i].playlistsFile| == |Meta(d)[i].playlistsFile| &&
      Meta(d')[i].playlistsFile[j].notes ==
        (if Meta(d)[i].projectId == projectId && f.fileId == fileId then f.notes + [n] else f.notes)
  {
  }

  /** After `/delete-note` no matching file holds a note with `uniqueId`, and
      its other notes stay in order. */
  lemma DeleteNoteRemoves(d: UserDoc, projectId: string, fileId: string, uniqueId: string, i: nat, j: nat)
    requires i < |Meta(d)| && j < |Meta(d)[i].playlistsFile|
    requires Meta(d)[i].projectId == projectId && Meta(d)[i].playlistsFile[j].fileId == fileId
    ensures var d' := UpdateNotes(d, projectId, fileId, PullNotes(uniqueId));
      var ns := Meta(d')[i].playlistsFile[j].notes;
      ns == Pull(Meta(d)[i].playlistsFile[j].notes, WithUniqueId(uniqueId)) &&
      forall k :: 0 <= k < |ns| ==> ns[k].uniqueId != uniqueId
  {
    PullRemovesAll(Meta(d)[i].playlistsFile[j].notes, WithUniqueId(uniqueId));
  }
}
