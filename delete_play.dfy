/** `DELETE /delete-play` (api/fileRoutes.js, the first and only live
    registration): removes one playlist file, metadata first and blob second,
    and puts the record back when the blob delete fails. */
module DeletePlay {
  import opened JsValues
  import opened Strings
  import opened Mongo
  import opened Store

  /** How the `DeleteObjectCommand` call ended: it returned a response, it
      threw, or it returned an empty response after the object was removed. */
  datatype BlobDelete = Returned | Threw | EmptyResponse

  /** Which branch of the handler produced the response. */
  datatype Outcome =
    | MissingField          // 400
    | NotFound              // 404: no document, no userMeta, no project or no file
    | BadKey                // 500: decodeURIComponent threw, nothing changed
    | NotModified           // 500: the pull changed nothing, the blob is untouched
    | RolledBack            // 500: the blob delete failed and the record was pushed back
    | Deleted               // 200

  function StatusOf(o: Outcome): (r: Reply)
  {
    match o
    case MissingField => Status(400)
    case NotFound => Status(404)
    case BadKey => Status(500)
    case NotModified => Status(500)
    case RolledBack => Status(500)
    case Deleted => Success(200)
  }

  /** `$pull: {'userMeta.$.playlistsFile': {fileId}}` applied to the project. */
  function PullFile(p: Project, fileId: string): Project
  {
    p.(playlistsFile := Pull(p.playlistsFile, WithFileId(fileId)))
  }

  /** `$push: {'userMeta.$.playlistsFile': record}` applied to the project. */
  function PushFile(p: Project, record: FileRecord): Project
  {
    p.(playlistsFile := p.playlistsFile + [record])
  }

  /** The document after the pull: the first project with `projectId` loses
      every playlist record with `fileId`. */
  function PullDoc(d: UserDoc, projectId: string, fileId: string): UserDoc
  {
    UpdateProject(d, projectId, q => PullFile(q, fileId))
  }

  /** The document after the compensating push. */
  function PushDoc(d: UserDoc, projectId: string, record: FileRecord): UserDoc
  {
    UpdateProject(d, projectId, q => PushFile(q, record))
  }

  /** The blob key the handler deletes: the stored key, trimmed and then
      percent-decoded (`decode` stands for `decodeURIComponent`, which throws
      on a malformed escape). */
  function BlobKey(record: FileRecord, decode: string -> Option<string>): Option<string>
  {
    decode(Trim(record.key))
  }

  /** The request names a user with `userMeta`, a project of that user and a
      playlist record of that project. */
  predicate Found(st: State, userId: string, projectId: string, fileId: string)
  {
    userId != "" && projectId != "" && fileId != "" &&
    userId in st.docs && st.docs[userId].userMeta.Some? &&
    ProjectIndex(st.docs[userId], projectId).Some? &&
    FileIndex(Meta(st.docs[userId])[ProjectIndex(st.docs[userId], projectId).value].playlistsFile, fileId).Some?
  }

  /** The first playlist record with `fileId` in the first project with
      `projectId`. */
  function FoundRecord(st: State, userId: string, projectId: string, fileId: string): FileRecord
    requires Found(st, userId, projectId, fileId)
  {
    var d := st.docs[userId];
    var p := Meta(d)[ProjectIndex(d, projectId).value];
    p.playlistsFile[FileIndex(p.playlistsFile, fileId).value]
  }

  /** The handler, step by step. Every external effect is an input:
      `decode` is `decodeURIComponent`, `blob` is how the bucket call ended. */
  method Handle(st: State, userId: string, projectId: string, fileId: string,
                decode: string -> Option<string>, blob: BlobDelete)
    returns (outcome: Outcome, st': State)
    ensures outcome == MissingField <==> userId == "" || projectId == "" || fileId == ""
    ensures outcome in {MissingField, NotFound, BadKey, NotModified} ==> st' == st
    ensures outcome == NotFound <==>
      outcome != MissingField &&
      (userId !in st.docs || st.docs[userId].userMeta.None? ||
       ProjectIndex(st.docs[userId], projectId).None? ||
       FileIndex(Meta(st.docs[userId])[ProjectIndex(st.docs[userId], projectId).value].playlistsFile, fileId).None?)
    ensures outcome in {BadKey, NotModified, RolledBack, Deleted} ==>
      userId in st.docs && ProjectIndex(st.docs[userId], projectId).Some?
    ensures outcome in {NotModified, RolledBack, Deleted} ==>
      var d := st.docs[userId];
      var p := Meta(d)[ProjectIndex(d, projectId).value];
      var record := p.playlistsFile[FileIndex(p.playlistsFile, fileId).value];
      BlobKey(record, decode).Some? &&
      var key := BlobKey(record, decode).value;
      (outcome == Deleted ==>
         blob == Returned &&
         st'.docs == st.docs[userId := PullDoc(d, projectId, fileId)] &&
         st'.blobs == st.blobs - {key}) &&
      (outcome == RolledBack ==>
         blob != Returned &&
         st'.docs == st.docs[userId := PushDoc(PullDoc(d, projectId, fileId), projectId, record)] &&
         st'.blobs == (if blob == EmptyResponse then st.blobs - {key} else st.blobs))
    ensures outcome == BadKey <==>
      Found(st, userId, projectId, fileId) && BlobKey(FoundRecord(st, userId, projectId, fileId), decode).None?
    ensures outcome == NotModified <==>
      Found(st, userId, projectId, fileId) && BlobKey(FoundRecord(st, userId, projectId, fileId), decode).Some? &&
      PullDoc(st.docs[userId], projectId, fileId) == st.docs[userId]
    ensures outcome == Deleted <==>
      Found(st, userId, projectId, fileId) && BlobKey(FoundRecord(st, userId, projectId, fileId), decode).Some? &&
      PullDoc(st.docs[userId], projectId, fileId) != st.docs[userId] && blob == Returned
    ensures outcome == RolledBack <==>
      Found(st, userId, projectId, fileId) && BlobKey(FoundRecord(st, userId, projectId, fileId), decode).Some? &&
      PullDoc(st.docs[userId], projectId, fileId) != st.docs[userId] && blob != Returned
    ensures st'.admin == st.admin
  {
    if userId == "" || projectId == "" || fileId == "" {
      return MissingField, st;
    }
    // Step 1: the user's document.
    if userId !in st.docs || st.docs[userId].userMeta.None? {
      return NotFound, st;
    }
    var doc := st.docs[userId];
    // Step 2: the project and the file.
    var pi := ProjectIndex(doc, projectId);
    if pi.None? {
      return NotFound, st;
    }
    var project := Meta(doc)[pi.value];
    var fi := FileIndex(project.playlistsFile, fileId);
    if fi.None? {
      return NotFound, st;
    }
    var fileToDelete := project.playlistsFile[fi.value];
    // Step 3: the key of the object in the bucket.
    var sanitizedKey := BlobKey(fileToDelete, decode);
    if sanitizedKey.None? {
      return BadKey, st;
    }
    // Step 4: remove the record from the database.
    var pulled := PullDoc(doc, projectId, fileId);
    if pulled == doc {
      return NotModified, st;
    }
    // Step 5: remove the object; on failure push the record back.
    if blob == Returned {
      return Deleted, State(st.docs[userId := pulled], st.admin, st.blobs - {sanitizedKey.value});
    }
    var blobs := if blob == EmptyResponse then st.blobs - {sanitizedKey.value} else st.blobs;
    var restored := PushDoc(pulled, projectId, fileToDelete);
    return RolledBack, State(st.docs[userId := restored], st.admin, blobs);
  }

  // ------------------------------------------------------------------ lemmas

  /** The pull rewrites only the first project with `projectId`, which stays
      the first one with that id. */
  lemma PullDocShape(d: UserDoc, projectId: string, fileId: string)
    requires ProjectIndex(d, projectId).Some?
    ensures var i := ProjectIndex(d, projectId).value;
      var d' := PullDoc(d, projectId, fileId);
      |Meta(d')| == |Meta(d)| && ProjectIndex(d', projectId) == Some(i) &&
      Meta(d') == Meta(d)[i := PullFile(Meta(d)[i], fileId)] &&
      d'.programming == d.programming
  {
    var i := ProjectIndex(d, projectId).value;
    FindFirstAfterUpdate(Meta(d), WithProjectId(projectId), PullFile(Meta(d)[i], fileId));
  }

  /** After the pull the project's playlist holds no record with `fileId`, and
      its other records are exactly what was there before: the removed
      records and the remaining ones together are the old playlist. */
  lemma PullDocEffect(d: UserDoc, projectId: string, fileId: string)
    requires ProjectIndex(d, projectId).Some?
    ensures var after := Playlist(PullDoc(d, projectId, fileId), projectId);
      after == Pull(Playlist(d, projectId), WithFileId(fileId)) &&
      (forall k :: 0 <= k < |after| ==> after[k].fileId != fileId) &&
      multiset(after) + multiset(Keep(Playlist(d, projectId), WithFileId(fileId))) == multiset(Playlist(d, projectId))
  {
    PullDocShape(d, projectId, fileId);
    PullPartition(Playlist(d, projectId), WithFileId(fileId));
  }

  /** When the handler found the file, the pull always changes the document:
      without another request writing in between, the 500 "failed to update"
      branch cannot be taken. */
  lemma FoundImpliesModified(d: UserDoc, projectId: string, fileId: string)
    requires ProjectIndex(d, projectId).Some?
    requires FileIndex(Playlist(d, projectId), fileId).Some?
    ensures PullDoc(d, projectId, fileId) != d
  {
    var s := Playlist(d, projectId);
    PullDocShape(d, projectId, fileId);
    PullPartition(s, WithFileId(fileId));
    KeepHead(s, WithFileId(fileId));
    assert |Playlist(PullDoc(d, projectId, fileId), projectId)| < |s|;
  }

  /** The compensating push appends the record after the pulled playlist. */
  lemma RollbackPlaylist(d: UserDoc, projectId: string, fileId: string, record: FileRecord)
    requires ProjectIndex(d, projectId).Some?
    ensures Playlist(PushDoc(PullDoc(d, projectId, fileId), projectId, record), projectId)
         == Pull(Playlist(d, projectId), WithFileId(fileId)) + [record]
  {
    PullDocShape(d, projectId, fileId);
    var d1 := PullDoc(d, projectId, fileId);
    var i := ProjectIndex(d1, projectId).value;
    FindFirstAfterUpdate(Meta(d1), WithProjectId(projectId), PushFile(Meta(d1)[i], record));
  }

  /** When the file id occurs once, the rollback restores the playlist's
      records, with the restored record moved to the end rather than back to
      its old position. */
  lemma {:induction false} RollbackRestoresUnique(d: UserDoc, projectId: string, fileId: string)
    requires ProjectIndex(d, projectId).Some?
    requires FileIndex(Playlist(d, projectId), fileId).Some?
    requires |Keep(Playlist(d, projectId), WithFileId(fileId))| == 1
    ensures var s := Playlist(d, projectId);
      var record := s[FileIndex(s, fileId).value];
      var after := Playlist(PushDoc(PullDoc(d, projectId, fileId), projectId, record), projectId);
      multiset(after) == multiset(s) && after[|after| - 1] == record
  {
    var s := Playlist(d, projectId);
    var record := s[FileIndex(s, fileId).value];
    RollbackPlaylist(d, projectId, fileId, record);
    PullPushUnique(s, WithFileId(fileId));
  }

  /** Pulling the one element that matches and appending it again gives the
      same elements. */
  lemma PullPushUnique(s: seq<FileRecord>, p: FileRecord -> bool)
    requires FindFirst(s, p).Some? && |Keep(s, p)| == 1
    ensures multiset(Pull(s, p) + [s[FindFirst(s, p).value]]) == multiset(s)
  {
    PullPartition(s, p);
    KeepHead(s, p);
    assert Keep(s, p) == [s[FindFirst(s, p).value]];
  }

  /** When several records share the file id, the pull removes all of them
      and the rollback pushes back only the first: records are lost. */
  lemma {:induction false} RollbackLosesDuplicates(d: UserDoc, projectId: string, fileId: string)
    requires ProjectIndex(d, projectId).Some?
    requires FileIndex(Playlist(d, projectId), fileId).Some?
    requires |Keep(Playlist(d, projectId), WithFileId(fileId))| >= 2
    ensures var s := Playlist(d, projectId);
      var record := s[FileIndex(s, fileId).value];
      |Playlist(PushDoc(PullDoc(d, projectId, fileId), projectId, record), projectId)| < |s|
  {
    var s := Playlist(d, projectId);
    var record := s[FileIndex(s, fileId).value];
    RollbackPlaylist(d, projectId, fileId, record);
    PullPartition(s, WithFileId(fileId));
  }
}
