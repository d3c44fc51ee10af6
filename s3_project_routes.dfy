/** The project routes of api/s3routes.js: `/save-file-keys`, `/extractor`,
    `/delete-file` and `/delete-project`. Each takes the state and the
    outcomes of its external calls and returns the reply and the new state. */
module S3ProjectRoutes {
  import opened JsValues
  import opened Mongo
  import opened Store
  import Metadata

  datatype Result = Result(reply: Reply, st: State)

  // ------------------------------------------------------- /save-file-keys

  /** One element of the request's `fileKeys`. */
  datatype KeyEntry = KeyEntry(key: string, fileName: string)

  /** The request body; `fileKeys` is `None` when it is missing or not an array. */
  datatype SaveRequest = SaveRequest(fileKeys: Option<seq<KeyEntry>>, accessType: string, userId: string,
                                     projectId: string, projectTitle: string)

  predicate HasKeyAndName(f: FileRecord)
  {
    f.key != "" && f.fileName != ""
  }

  /** The record built for the i-th entry: `{key, fileName, accessType,
      projectId, projectTitle, fileId: uuidv4(), createdAt}`. */
  function KeyDocument(e: KeyEntry, rq: SaveRequest, fileId: string, now: string): FileRecord
  {
    FileRecord(key := e.key, fileName := e.fileName, url := "", accessType := rq.accessType,
               projectId := rq.projectId, projectTitle := rq.projectTitle, programId := "", fileId := fileId,
               createdAt := now, slotPosition := Undef, seqPos := Undef, duration := Undef, frameRate := Undef,
               resolution := Undef, metadataError := Undef, notes := [])
  }

  /** `fileKeys.map(...)` then `.filter(Boolean)`: entries without key or
      file name are dropped. */
  function KeyDocuments(entries: seq<KeyEntry>, rq: SaveRequest, uuid: nat -> string, now: string): seq<FileRecord>
  {
    Keep(MappedEntries(entries, rq, uuid, now), Complete())
  }

  /** `fileKeys.map(...)`, before the filter. */
  function MappedEntries(entries: seq<KeyEntry>, rq: SaveRequest, uuid: nat -> string, now: string): (all: seq<FileRecord>)
    ensures |all| == |entries|
    ensures forall i :: 0 <= i < |entries| ==> all[i] == KeyDocument(entries[i], rq, uuid(i), now)
  {
    seq(|entries|, i requires 0 <= i < |entries| => KeyDocument(entries[i], rq, uuid(i), now))
  }

  function Complete(): FileRecord -> bool
  {
    (f: FileRecord) => HasKeyAndName(f)
  }

  /** Exactly the entries with both a key and a file name become records, in
      order, each stamped with the request's project. */
  lemma KeyDocumentsValid(entries: seq<KeyEntry>, rq: SaveRequest, uuid: nat -> string, now: string)
    ensures var docs := KeyDocuments(entries, rq, uuid, now);
      |docs| <= |entries| &&
      forall k :: 0 <= k < |docs| ==>
        (HasKeyAndName(docs[k]) && docs[k].projectId == rq.projectId &&
         docs[k].projectTitle == rq.projectTitle && docs[k].accessType == rq.accessType)
  {
    var all := MappedEntries(entries, rq, uuid, now);
    var docs := KeyDocuments(entries, rq, uuid, now);
    forall k | 0 <= k < |docs|
      ensures docs[k].projectId == rq.projectId && docs[k].projectTitle == rq.projectTitle &&
              docs[k].accessType == rq.accessType
    {
      KeepFrom(all, Complete(), k);
      var i :| 0 <= i < |all| && all[i] == docs[k];
      assert all[i] == KeyDocument(entries[i], rq, uuid(i), now);
    }
  }

  /** The 400 "no valid file keys" answer is given exactly when no entry has
      both a key and a file name. */
  lemma {:induction false} KeyDocumentsEmpty(entries: seq<KeyEntry>, rq: SaveRequest, uuid: nat -> string, now: string)
    ensures KeyDocuments(entries, rq, uuid, now) == [] <==>
      forall i :: 0 <= i < |entries| ==> entries[i].key == "" || entries[i].fileName == ""
  {
    var all := MappedEntries(entries, rq, uuid, now);
    var p := Complete();
    if forall i :: 0 <= i < |entries| ==> entries[i].key == "" || entries[i].fileName == "" {
      forall i | 0 <= i < |all| ensures !p(all[i]) {
        assert all[i] == KeyDocument(entries[i], rq, uuid(i), now);
      }
      KeepNoneEmpty(all, p);
    } else {
      var i :| 0 <= i < |entries| && entries[i].key != "" && entries[i].fileName != "";
      assert all[i] == KeyDocument(entries[i], rq, uuid(i), now);
      assert p(all[i]);
      KeepKeeps(all, p, all[i]);
    }
  }

  /** The condition `project.mainKey === mainKey`. */
  function WithMainKey(mainKey: string): Project -> bool
  {
    (p: Project) => p.mainKey == Some(mainKey)
  }

  /** The handler. `dbConnected` is the `if (!db)` test, `uuid(i)` the id
      generated for the i-th entry and `now` the creation time. */
  function SaveFileKeys(st: State, rq: SaveRequest, dbConnected: bool, uuid: nat -> string, now: string): (r: Result)
    ensures r.reply.status == 400 <==>
      rq.fileKeys.None? || rq.fileKeys.value == [] || rq.userId == "" || rq.projectId == "" || rq.projectTitle == "" ||
      (dbConnected && KeyDocuments(rq.fileKeys.value, rq, uuid, now) == [])
    ensures r.reply.status != 201 ==> r.st == st
    ensures r.reply.status == 201 ==>
      var docs := KeyDocuments(rq.fileKeys.value, rq, uuid, now);
      var mk := ProjectMainKey(rq.projectId);
      var old_ := if rq.userId in st.docs then Meta(st.docs[rq.userId]) else [];
      docs != [] && rq.userId in r.st.docs && r.st.blobs == st.blobs && r.st.admin == st.admin &&
      r.st.docs == st.docs[rq.userId := r.st.docs[rq.userId]] &&
      var new_ := Meta(r.st.docs[rq.userId]);
      match FindFirst(old_, WithMainKey(mk))
      case Some(i) =>
        new_ == old_[i := old_[i].(files := old_[i].files + docs)]
      case None =>
        new_ == old_ + [Project(Some(mk), rq.projectId, rq.projectTitle, docs, [], [])]
  {
    if rq.fileKeys.None? || rq.fileKeys.value == [] then Result(Status(400), st)
    else if rq.userId == "" || rq.projectId == "" || rq.projectTitle == "" then Result(Status(400), st)
    else if !dbConnected then Result(Status(500), st)
    else
      var docs := KeyDocuments(rq.fileKeys.value, rq, uuid, now);
      if docs == [] then Result(Status(400), st)
      else
        var mk := ProjectMainKey(rq.projectId);
        var doc := if rq.userId in st.docs then st.docs[rq.userId] else UserDoc(None, []);
        var ps := Meta(doc);
        var ps' := match FindFirst(ps, WithMainKey(mk))
          case Some(i) => ps[i := ps[i].(files := ps[i].files + docs)]
          case None => ps + [Project(Some(mk), rq.projectId, rq.projectTitle, docs, [], [])];
        Result(Success(201), st.(docs := st.docs[rq.userId := WithMeta(doc, ps')]))
  }

  // ------------------------------------------------------------ /extractor

  datatype ExtractOutcome = ExtractMissing | ExtractNotFound | ExtractDone(files: seq<FileRecord>)

  /** `/extractor`: probes every file of the first project with `projectId`
      and writes the rebuilt list back with `$set: {'userMeta.$.files': ...}`.
      The write's result is not checked. */
  method Extractor(st: State, userId: string, projectId: string, probe: nat -> Metadata.FileProbe)
    returns (outcome: ExtractOutcome, st': State)
    ensures outcome.ExtractMissing? <==> userId == "" || projectId == ""
    ensures !outcome.ExtractDone? ==> st' == st
    ensures outcome.ExtractNotFound? <==>
      userId != "" && projectId != "" &&
      (userId !in st.docs || st.docs[userId].userMeta.None? || ProjectIndex(st.docs[userId], projectId).None?)
    ensures outcome.ExtractDone? ==>
      var d := st.docs[userId];
      var i := ProjectIndex(d, projectId).value;
      outcome.files == Metadata.ExtractList(Meta(d)[i].files, probe, false) &&
      st' == st.(docs := st.docs[userId := WithMeta(d, Meta(d)[i := Meta(d)[i].(files := outcome.files)])])
  {
    if userId == "" || projectId == "" {
      return ExtractMissing, st;
    }
    if userId !in st.docs || st.docs[userId].userMeta.None? {
      return ExtractNotFound, st;
    }
    var d := st.docs[userId];
    var pi := ProjectIndex(d, projectId);
    if pi.None? {
      return ExtractNotFound, st;
    }
    var project := Meta(d)[pi.value];
    var updatedFiles := Metadata.ExtractAll(project.files, probe, false);
    var ps := Meta(d)[pi.value := project.(files := updatedFiles)];
    return ExtractDone(updatedFiles), st.(docs := st.docs[userId := WithMeta(d, ps)]);
  }

  // ---------------------------------------------------------- /delete-file

  datatype DeleteFileOutcome =
    | DeleteFileMissing         // 400
    | DeleteFileNotFound        // 404
    | DeleteFileNotModified     // 500
    | DeleteFileDone            // 200, whatever the bucket call did

  /** `/delete-file`: splices the first record with `fileId` out of the
      project's `files`, writes the list back, then deletes the object and
      ignores a failure of that call (`blobDeleted` false). */
  function DeleteFile(st: State, userId: string, projectId: string, fileId: string, blobDeleted: bool)
    : (r: (DeleteFileOutcome, State))
    ensures r.0 == DeleteFileMissing <==> userId == "" || projectId == "" || fileId == ""
    ensures r.0 != DeleteFileDone ==> r.1 == st
    ensures r.0 == DeleteFileNotFound <==>
      r.0 != DeleteFileMissing &&
      (userId !in st.docs || st.docs[userId].userMeta.None? ||
       ProjectIndex(st.docs[userId], projectId).None? ||
       FileIndex(Meta(st.docs[userId])[ProjectIndex(st.docs[userId], projectId).value].files, fileId).None?)
    ensures r.0 in {DeleteFileNotModified, DeleteFileDone} ==>
      userId in st.docs && ProjectIndex(st.docs[userId], projectId).Some?
    ensures r.0 == DeleteFileDone ==>
      var d := st.docs[userId];
      var i := ProjectIndex(d, projectId).value;
      var fs := Meta(d)[i].files;
      var j := FileIndex(fs, fileId).value;
      r.1.docs == st.docs[userId := WithMeta(d, Meta(d)[i := Meta(d)[i].(files := fs[..j] + fs[j + 1..])])] &&
      r.1.blobs == (if blobDeleted then st.blobs - {fs[j].key} else st.blobs)
  {
    if userId == "" || projectId == "" || fileId == "" then (DeleteFileMissing, st)
    else if userId !in st.docs || st.docs[userId].userMeta.None? then (DeleteFileNotFound, st)
    else
      var d := st.docs[userId];
      match ProjectIndex(d, projectId)
      case None => (DeleteFileNotFound, st)
      case Some(i) =>
        var fs := Meta(d)[i].files;
        match FileIndex(fs, fileId)
        case None => (DeleteFileNotFound, st)
        case Some(j) =>
          var fileKey := fs[j].key;
          var d' := WithMeta(d, Meta(d)[i := Meta(d)[i].(files := fs[..j] + fs[j + 1..])]);
          if d' == d then (DeleteFileNotModified, st)
          else
            var blobs := if blobDeleted then st.blobs - {fileKey} else st.blobs;
            (DeleteFileDone, State(st.docs[userId := d'], st.admin, blobs))
  }

  /** `/delete-file` reports success even when the object could not be
      deleted; the object then outlives its record. */
  lemma DeleteFileSwallowsBlobFailure(st: State, userId: string, projectId: string, fileId: string)
    requires DeleteFile(st, userId, projectId, fileId, false).0 == DeleteFileDone
    ensures DeleteFile(st, userId, projectId, fileId, false).1.blobs == st.blobs
  {
  }

  /** The file was found, so the write shortens the list: the 500 "failed to
      update" branch is never taken. */
  lemma DeleteFileAlwaysModifies(st: State, userId: string, projectId: string, fileId: string, blobDeleted: bool)
    ensures DeleteFile(st, userId, projectId, fileId, blobDeleted).0 != DeleteFileNotModified
  {
    if userId != "" && projectId != "" && fileId != "" && userId in st.docs && st.docs[userId].userMeta.Some? {
      var d := st.docs[userId];
      if ProjectIndex(d, projectId).Some? {
        var i := ProjectIndex(d, projectId).value;
        var fs := Meta(d)[i].files;
        if FileIndex(fs, fileId).Some? {
          var j := FileIndex(fs, fileId).value;
          var d' := WithMeta(d, Meta(d)[i := Meta(d)[i].(files := fs[..j] + fs[j + 1..])]);
          assert |Meta(d')[i].files| < |fs|;
        }
      }
    }
  }

  /** Only the first record with the id goes; a later duplicate stays. */
  lemma DeleteFileRemovesFirstOnly(fs: seq<FileRecord>, fileId: string)
    requires FileIndex(fs, fileId).Some?
    ensures var j := FileIndex(fs, fileId).value;
      var fs' := fs[..j] + fs[j + 1..];
      |fs'| == |fs| - 1 &&
      (forall k :: 0 <= k < j ==> fs'[k] == fs[k] && fs[k].fileId != fileId) &&
      (forall k :: j < k < |fs| ==> fs'[k - 1] == fs[k])
  {
  }

  // ------------------------------------------------------- /delete-project

  /** The keys the loop visits: `files` then `playlistsFile`. */
  function ProjectBlobKeys(p: Project): (ks: seq<string>)
    ensures |ks| == |p.files| + |p.playlistsFile|
  {
    seq(|p.files|, i requires 0 <= i < |p.files| => p.files[i].key) +
    seq(|p.playlistsFile|, i requires 0 <= i < |p.playlistsFile| => p.playlistsFile[i].key)
  }

  /** The keys whose delete call succeeded (`ok(i)` for the i-th call). */
  function DeletedKeys(keys: seq<string>, ok: nat -> bool): set<string>
  {
    set i | 0 <= i < |keys| && ok(i) :: keys[i]
  }

  /** The loop over the keys: a failed call is logged and the loop goes on. */
  method DeleteEach(blobs: set<string>, keys: seq<string>, ok: nat -> bool) returns (blobs': set<string>)
    ensures blobs' == blobs - DeletedKeys(keys, ok)
  {
    blobs' := blobs;
    var i := 0;
    while i < |keys|
      invariant 0 <= i <= |keys|
      invariant blobs' == blobs - DeletedKeys(keys[..i], ok)
    {
      if ok(i) {
        blobs' := blobs' - {keys[i]};
      }
      assert DeletedKeys(keys[..i + 1], ok) == DeletedKeys(keys[..i], ok) + (if ok(i) then {keys[i]} else {}) by {
        assert forall k :: 0 <= k < i ==> keys[..i + 1][k] == keys[..i][k];
      }
      i := i + 1;
    }
    assert keys[..i] == keys;
  }

  datatype DeleteProjectOutcome =
    | DeleteProjectMissing       // 400
    | DeleteProjectNotFound      // 404: no document, no userMeta or no project with the mainKey
    | DeleteProjectNotModified   // 500, after the blob deletes
    | DeleteProjectDone          // 200

  /** `/delete-project`: finds the project by `mainKey`, deletes the objects
      of its `files` and `playlistsFile` one by one, then removes every
      project with that `mainKey` from `userMeta`. */
  method DeleteProject(st: State, userId: string, projectId: string, ok: nat -> bool)
    returns (outcome: DeleteProjectOutcome, st': State)
    ensures outcome == DeleteProjectMissing <==> userId == "" || projectId == ""
    ensures outcome in {DeleteProjectMissing, DeleteProjectNotFound} ==> st' == st
    ensures outcome == DeleteProjectNotFound <==>
      userId != "" && projectId != "" &&
      (userId !in st.docs || st.docs[userId].userMeta.None? ||
       FindFirst(Meta(st.docs[userId]), WithMainKey(ProjectMainKey(projectId))).None?)
    ensures outcome in {DeleteProjectNotModified, DeleteProjectDone} ==>
      var d := st.docs[userId];
      var mk := ProjectMainKey(projectId);
      var p := Meta(d)[FindFirst(Meta(d), WithMainKey(mk)).value];
      st'.blobs == st.blobs - DeletedKeys(ProjectBlobKeys(p), ok) &&
      (outcome == DeleteProjectDone ==>
         st'.docs == st.docs[userId := WithMeta(d, Pull(Meta(d), WithMainKey(mk)))]) &&
      (outcome == DeleteProjectNotModified ==> st'.docs == st.docs)
    ensures outcome == DeleteProjectNotModified <==>
      userId != "" && projectId != "" && userId in st.docs && st.docs[userId].userMeta.Some? &&
      FindFirst(Meta(st.docs[userId]), WithMainKey(ProjectMainKey(projectId))).Some? &&
      WithMeta(st.docs[userId], Pull(Meta(st.docs[userId]), WithMainKey(ProjectMainKey(projectId)))) == st.docs[userId]
    ensures outcome == DeleteProjectDone <==>
      userId != "" && projectId != "" && userId in st.docs && st.docs[userId].userMeta.Some? &&
      FindFirst(Meta(st.docs[userId]), WithMainKey(ProjectMainKey(projectId))).Some? &&
      WithMeta(st.docs[userId], Pull(Meta(st.docs[userId]), WithMainKey(ProjectMainKey(projectId)))) != st.docs[userId]
  {
    if userId == "" || projectId == "" {
      return DeleteProjectMissing, st;
    }
    if userId !in st.docs || st.docs[userId].userMeta.None? {
      return DeleteProjectNotFound, st;
    }
    var d := st.docs[userId];
    var mk := ProjectMainKey(projectId);
    var found := FindFirst(Meta(d), WithMainKey(mk));
    if found.None? {
      return DeleteProjectNotFound, st;
    }
    var projectToDelete := Meta(d)[found.value];
    var blobs := DeleteEach(st.blobs, ProjectBlobKeys(projectToDelete), ok);
    var updatedUserMeta := Pull(Meta(d), WithMainKey(mk));
    var d' := WithMeta(d, updatedUserMeta);
    if d' == d {
      return DeleteProjectNotModified, st.(blobs := blobs);
    }
    return DeleteProjectDone, State(st.docs[userId := d'], st.admin, blobs);
  }

  /** A `renderFile` object of the deleted project, or any object not listed
      in its `files` and `playlistsFile`, survives the cascade. */
  lemma DeleteProjectSparesOtherBlobs(p: Project, ok: nat -> bool, blobs: set<string>, k: string)
    requires k in blobs
    requires forall i :: 0 <= i < |p.files| ==> p.files[i].key != k
    requires forall i :: 0 <= i < |p.playlistsFile| ==> p.playlistsFile[i].key != k
    ensures k in blobs - DeletedKeys(ProjectBlobKeys(p), ok)
  {
    var ks := ProjectBlobKeys(p);
    forall i | 0 <= i < |ks| ensures ks[i] != k {
      if i < |p.files| {
        assert ks[i] == p.files[i].key;
      } else {
        assert ks[i] == p.playlistsFile[i - |p.files|].key;
      }
    }
  }

  /** The cascade removes every project with the mainKey and keeps the
      others in their order; the found project is gone, so the write always
      changes the document. */
  lemma DeleteProjectKeepsOthers(ps: seq<Project>, mk: string)
    requires FindFirst(ps, WithMainKey(mk)).Some?
    ensures var ps' := Pull(ps, WithMainKey(mk));
      |ps'| < |ps| &&
      (forall d: UserDoc :: d.userMeta == Some(ps) ==> WithMeta(d, ps') != d) &&
      (forall k :: 0 <= k < |ps'| ==> ps'[k].mainKey != Some(mk)) &&
      (forall q :: q in ps && q.mainKey != Some(mk) ==> q in ps')
  {
    PullPartition(ps, WithMainKey(mk));
    KeepHead(ps, WithMainKey(mk));
    forall q | q in ps && q.mainKey != Some(mk) ensures q in Pull(ps, WithMainKey(mk)) {
      PullKeeps(ps, WithMainKey(mk), q);
    }
  }
}
