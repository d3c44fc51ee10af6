/** `/apply-program` of api/s3routes.js: the files of a program's folder 0
    replace, slot by slot, the files of several playlists. For every playlist
    file whose `slotPosition` is strictly equal to that of a program file,
    the old object is deleted, the program's object is copied into the
    playlist's folder and the record takes the program file's identity; a
    playlist is written back only when all of its files went through. */
module ApplyProgram {
  import opened JsValues
  import opened Strings
  import opened Mongo
  import opened Store
  import S3Keys
  import S3ProgramRoutes

  /** `programFile.slotPosition === playlistFile.slotPosition`. */
  function SameSlot(v: JsVal): FileRecord -> bool
  {
    (f: FileRecord) => StrictEq(f.slotPosition, v)
  }

  /** `programFiles.find(...)`: the first program file in the same slot. */
  function MatchOf(programFiles: seq<FileRecord>, pf: FileRecord): (r: Option<nat>)
    ensures r.Some? ==> r.value < |programFiles| && programFiles[r.value].slotPosition == pf.slotPosition
    ensures r.None? <==> forall i :: 0 <= i < |programFiles| ==> programFiles[i].slotPosition != pf.slotPosition
  {
    FindFirst(programFiles, SameSlot(pf.slotPosition))
  }

  /** `users/{userId}/projects/{playlistId}/playlists/{basename(key)}`. */
  function DestKey(userId: string, playlistId: string, m: FileRecord): string
  {
    S3Keys.ProjectFolder(userId, playlistId) + "playlists/" + Basename(m.key)
  }

  /** The playlist record after the copy: its own fields, with the program
      file's name, key, access type, id and metadata. */
  function Replaced(pf: FileRecord, m: FileRecord, dest: string, now: string): FileRecord
  {
    pf.(fileName := m.fileName, key := dest, accessType := m.accessType, fileId := m.fileId,
        duration := m.duration, frameRate := m.frameRate, resolution := m.resolution, createdAt := now)
  }

  /** Why a playlist is listed in `errors`. */
  datatype Failure =
    | PlaylistNotFound      // no project with that id
    | DeleteFailed(key: string)
    | CopyFailed(key: string)
    | NotUpdated            // the write changed nothing

  datatype PlaylistError = PlaylistError(playlistId: string, failure: Failure)

  /** The record the callback for one playlist file resolves to; `delOk`
      and `cpOk` are the outcomes of its delete and copy commands. */
  function NewRecord(pf: FileRecord, programFiles: seq<FileRecord>, userId: string, playlistId: string,
                     delOk: bool, cpOk: bool, now: string): FileRecord
  {
    match MatchOf(programFiles, pf)
    case None => pf
    case Some(i) =>
      if delOk && cpOk then Replaced(pf, programFiles[i], DestKey(userId, playlistId, programFiles[i]), now) else pf
  }

  /** The failure the callback rejects with, if any. */
  function FileFailure(pf: FileRecord, programFiles: seq<FileRecord>, delOk: bool, cpOk: bool): Option<Failure>
  {
    match MatchOf(programFiles, pf)
    case None => None
    case Some(i) =>
      if !delOk then Some(DeleteFailed(pf.key)) else if !cpOk then Some(CopyFailed(programFiles[i].key)) else None
  }

  /** The bucket after the callback's commands: the old object goes once
      its delete succeeds, the copy arrives once its copy succeeds. */
  function FileBlobs(blobs: set<string>, pf: FileRecord, programFiles: seq<FileRecord>, userId: string,
                     playlistId: string, delOk: bool, cpOk: bool): set<string>
  {
    match MatchOf(programFiles, pf)
    case None => blobs
    case Some(i) =>
      if !delOk then blobs
      else if !cpOk then blobs - {pf.key}
      else blobs - {pf.key} + {DestKey(userId, playlistId, programFiles[i])}
  }

  /** The result of the callbacks over a playlist's files: the new list, the
      first failure in file order, and the bucket. */
  datatype FilesResult = FilesResult(updated: seq<FileRecord>, failure: Option<Failure>, blobs: set<string>)

  /** `f(j)(s[j])` for every position `j`, in order. */
  function MapIndexed<T, U>(s: seq<T>, f: nat -> T -> U): (r: seq<U>)
    ensures |r| == |s|
    decreases |s|
  {
    if s == [] then [] else MapIndexed(s[..|s| - 1], f) + [f(|s| - 1)(s[|s| - 1])]
  }

  /** The first `f(j)(s[j])` that is `Some`, in order. */
  function FirstSome<T, U>(s: seq<T>, f: nat -> T -> Option<U>): Option<U>
    decreases |s|
  {
    if s == [] then None
    else
      var prev := FirstSome(s[..|s| - 1], f);
      if prev.Some? then prev else f(|s| - 1)(s[|s| - 1])
  }

  lemma {:induction false} MapIndexedPointwise<T, U>(s: seq<T>, f: nat -> T -> U)
    ensures forall j :: 0 <= j < |s| ==> MapIndexed(s, f)[j] == f(j)(s[j])
    decreases |s|
  {
    if s != [] {
      var k := |s| - 1;
      MapIndexedPointwise(s[..k], f);
      forall j | 0 <= j < k ensures MapIndexed(s, f)[j] == f(j)(s[j]) {
        assert s[..k][j] == s[j];
      }
    }
  }

  lemma {:induction false} FirstSomeNone<T, U>(s: seq<T>, f: nat -> T -> Option<U>)
    ensures FirstSome(s, f).None? <==> forall j :: 0 <= j < |s| ==> f(j)(s[j]).None?
    decreases |s|
  {
    if s != [] {
      var k := |s| - 1;
      FirstSomeNone(s[..k], f);
      if forall j :: 0 <= j < |s| ==> f(j)(s[j]).None? {
        forall j | 0 <= j < k ensures f(j)(s[..k][j]).None? {
          assert s[..k][j] == s[j];
        }
      }
      if FirstSome(s, f).None? {
        forall j | 0 <= j < |s| ensures f(j)(s[j]).None? {
          if j < k { assert s[..k][j] == s[j]; }
        }
      }
    }
  }

  /** The callback for file `j`: the record it resolves to. `del(j)` and
      `cp(j)` are file `j`'s command outcomes. */
  function Callback(programFiles: seq<FileRecord>, userId: string, playlistId: string, del: nat -> bool,
                    cp: nat -> bool, now: string): nat -> FileRecord -> FileRecord
  {
    (j: nat) => (pf: FileRecord) => NewRecord(pf, programFiles, userId, playlistId, del(j), cp(j), now)
  }

  /** The callback for file `j`: the failure it rejects with, if any. */
  function Rejection(programFiles: seq<FileRecord>, del: nat -> bool, cp: nat -> bool): nat -> FileRecord -> Option<Failure>
  {
    (j: nat) => (pf: FileRecord) => FileFailure(pf, programFiles, del(j), cp(j))
  }

  /** The bucket after every callback's commands. */
  function AllBlobs(blobs: set<string>, files: seq<FileRecord>, programFiles: seq<FileRecord>, userId: string,
                    playlistId: string, del: nat -> bool, cp: nat -> bool): set<string>
    decreases |files|
  {
    if files == [] then blobs
    else
      var j := |files| - 1;
      FileBlobs(AllBlobs(blobs, files[..j], programFiles, userId, playlistId, del, cp), files[j], programFiles,
                userId, playlistId, del(j), cp(j))
  }

  /** The callbacks over a playlist's files. */
  function StepFiles(blobs: set<string>, files: seq<FileRecord>, programFiles: seq<FileRecord>, userId: string,
                     playlistId: string, del: nat -> bool, cp: nat -> bool, now: string): FilesResult
  {
    FilesResult(MapIndexed(files, Callback(programFiles, userId, playlistId, del, cp, now)),
                FirstSome(files, Rejection(programFiles, del, cp)),
                AllBlobs(blobs, files, programFiles, userId, playlistId, del, cp))
  }

  /** One more callback is one more step of each fold. */
  lemma FoldsExtend(blobs: set<string>, files: seq<FileRecord>, j: nat, programFiles: seq<FileRecord>, userId: string,
                    playlistId: string, del: nat -> bool, cp: nat -> bool, now: string)
    requires j < |files|
    ensures var cb := Callback(programFiles, userId, playlistId, del, cp, now);
      MapIndexed(files[..j + 1], cb) == MapIndexed(files[..j], cb) +
        [NewRecord(files[j], programFiles, userId, playlistId, del(j), cp(j), now)]
    ensures var prev := FirstSome(files[..j], Rejection(programFiles, del, cp));
      FirstSome(files[..j + 1], Rejection(programFiles, del, cp)) ==
        if prev.Some? then prev else FileFailure(files[j], programFiles, del(j), cp(j))
    ensures AllBlobs(blobs, files[..j + 1], programFiles, userId, playlistId, del, cp) ==
      FileBlobs(AllBlobs(blobs, files[..j], programFiles, userId, playlistId, del, cp), files[j], programFiles,
                userId, playlistId, del(j), cp(j))
  {
    assert files[..j + 1][..j] == files[..j];
  }

  /** The `Promise.all` over a playlist's files. */
  method ApplyFiles(blobs: set<string>, files: seq<FileRecord>, programFiles: seq<FileRecord>, userId: string,
                    playlistId: string, del: nat -> bool, cp: nat -> bool, now: string) returns (r: FilesResult)
    ensures r == StepFiles(blobs, files, programFiles, userId, playlistId, del, cp, now)
  {
    var updated := [];
    var failure := None;
    var bucket := blobs;
    var j := 0;
    while j < |files|
      invariant 0 <= j <= |files|
      invariant updated == MapIndexed(files[..j], Callback(programFiles, userId, playlistId, del, cp, now))
      invariant failure == FirstSome(files[..j], Rejection(programFiles, del, cp))
      invariant bucket == AllBlobs(blobs, files[..j], programFiles, userId, playlistId, del, cp)
    {
      FoldsExtend(blobs, files, j, programFiles, userId, playlistId, del, cp, now);
      updated := updated + [NewRecord(files[j], programFiles, userId, playlistId, del(j), cp(j), now)];
      if failure.None? {
        failure := FileFailure(files[j], programFiles, del(j), cp(j));
      }
      bucket := FileBlobs(bucket, files[j], programFiles, userId, playlistId, del(j), cp(j));
      j := j + 1;
    }
    assert files[..|files|] == files;
    r := FilesResult(updated, failure, bucket);
  }

  /** File by file, the new list holds each file's callback result. */
  lemma NewRecordsPointwise(blobs: set<string>, files: seq<FileRecord>, programFiles: seq<FileRecord>,
                            userId: string, playlistId: string, del: nat -> bool, cp: nat -> bool, now: string)
    ensures var r := StepFiles(blobs, files, programFiles, userId, playlistId, del, cp, now);
      forall j :: 0 <= j < |files| ==>
        r.updated[j] == NewRecord(files[j], programFiles, userId, playlistId, del(j), cp(j), now)
  {
    MapIndexedPointwise(files, Callback(programFiles, userId, playlistId, del, cp, now));
  }

  /** The pass fails exactly when some matched file had a failed command. */
  lemma FirstFailureNone(blobs: set<string>, files: seq<FileRecord>, programFiles: seq<FileRecord>,
                         userId: string, playlistId: string, del: nat -> bool, cp: nat -> bool, now: string)
    ensures StepFiles(blobs, files, programFiles, userId, playlistId, del, cp, now).failure.None? <==>
      forall j :: 0 <= j < |files| && MatchOf(programFiles, files[j]).Some? ==> del(j) && cp(j)
  {
    FirstSomeNone(files, Rejection(programFiles, del, cp));
  }

  /** A playlist none of whose slots appears in the program comes back as
      it was, and the bucket is not touched. */
  lemma StepFilesNoMatch(blobs: set<string>, files: seq<FileRecord>, programFiles: seq<FileRecord>,
                         userId: string, playlistId: string, del: nat -> bool, cp: nat -> bool, now: string)
    requires forall j :: 0 <= j < |files| ==> MatchOf(programFiles, files[j]).None?
    ensures StepFiles(blobs, files, programFiles, userId, playlistId, del, cp, now) == FilesResult(files, None, blobs)
  {
    var cb := Callback(programFiles, userId, playlistId, del, cp, now);
    MapIndexedPointwise(files, cb);
    assert MapIndexed(files, cb) == files;
    FirstSomeNone(files, Rejection(programFiles, del, cp));
    AllBlobsNoMatch(blobs, files, programFiles, userId, playlistId, del, cp);
  }

  lemma {:induction false} AllBlobsNoMatch(blobs: set<string>, files: seq<FileRecord>, programFiles: seq<FileRecord>,
                                           userId: string, playlistId: string, del: nat -> bool, cp: nat -> bool)
    requires forall j :: 0 <= j < |files| ==> MatchOf(programFiles, files[j]).None?
    ensures AllBlobs(blobs, files, programFiles, userId, playlistId, del, cp) == blobs
    decreases |files|
  {
    if files != [] {
      var j := |files| - 1;
      assert forall q :: 0 <= q < j ==> files[..j][q] == files[q];
      AllBlobsNoMatch(blobs, files[..j], programFiles, userId, playlistId, del, cp);
    }
  }

  /** A replaced record keeps the playlist's own fields (slot, position,
      link, notes, project) and takes the program file's identity, under a
      key in the playlist's folder with the program object's name. */
  lemma ReplacedIdentity(userId: string, playlistId: string, pf: FileRecord, m: FileRecord, now: string)
    requires Basename(m.key) != []
    ensures var g := Replaced(pf, m, DestKey(userId, playlistId, m), now);
      g.slotPosition == pf.slotPosition && g.seqPos == pf.seqPos && g.url == pf.url && g.notes == pf.notes &&
      g.projectId == pf.projectId && g.fileId == m.fileId && g.fileName == m.fileName &&
      g.accessType == m.accessType && g.duration == m.duration && g.resolution == m.resolution &&
      Basename(g.key) == Basename(m.key)
  {
    DestKeyName(userId, playlistId, Basename(m.key));
  }

  /** The name under which the copy lands is the program object's name. */
  lemma DestKeyName(userId: string, playlistId: string, name: string)
    requires name != [] && forall i :: 0 <= i < |name| ==> name[i] != '/'
    ensures Basename(S3Keys.ProjectFolder(userId, playlistId) + "playlists/" + name) == name
  {
    var dir := S3Keys.ProjectFolder(userId, playlistId) + "playlists";
    assert S3Keys.ProjectFolder(userId, playlistId) + "playlists/" + name == dir + "/" + name;
    BasenameOfJoin(dir, name);
  }

  // ------------------------------------------------------------- playlists

  /** The progress of the playlist pass: the state and the errors so far. */
  datatype Progress = Progress(st: State, errors: seq<PlaylistError>)

  /** `$set: {'userMeta.$[meta].playlistsFile': files}` with the filter
      `{'meta.projectId': playlistId}`: every project with that id. */
  function SetPlaylists(ps: seq<Project>, playlistId: string, files: seq<FileRecord>): seq<Project>
  {
    if ps == [] then []
    else [if ps[0].projectId == playlistId then ps[0].(playlistsFile := files) else ps[0]] +
         SetPlaylists(ps[1..], playlistId, files)
  }

  /** Every project with that id already holds `files`: the write reports
      `modifiedCount == 0`. */
  predicate SamePlaylists(ps: seq<Project>, playlistId: string, files: seq<FileRecord>)
  {
    ps == [] || ((ps[0].projectId != playlistId || ps[0].playlistsFile == files) &&
                 SamePlaylists(ps[1..], playlistId, files))
  }

  /** The write rewrites exactly the projects with the id, and it changes
      nothing exactly when they all hold `files` already. */
  lemma {:induction false} SetPlaylistsEffect(ps: seq<Project>, playlistId: string, files: seq<FileRecord>)
    ensures |SetPlaylists(ps, playlistId, files)| == |ps|
    ensures forall j :: 0 <= j < |ps| ==>
      SetPlaylists(ps, playlistId, files)[j] ==
        if ps[j].projectId == playlistId then ps[j].(playlistsFile := files) else ps[j]
    ensures SamePlaylists(ps, playlistId, files) <==> SetPlaylists(ps, playlistId, files) == ps
    ensures SamePlaylists(ps, playlistId, files) <==>
      forall j :: 0 <= j < |ps| && ps[j].projectId == playlistId ==> ps[j].playlistsFile == files
  {
    if ps != [] {
      SetPlaylistsEffect(ps[1..], playlistId, files);
      assert ps == [ps[0]] + ps[1..];
      var h := if ps[0].projectId == playlistId then ps[0].(playlistsFile := files) else ps[0];
      assert SetPlaylists(ps, playlistId, files) == [h] + SetPlaylists(ps[1..], playlistId, files);
      if SetPlaylists(ps, playlistId, files) == ps {
        assert h == ps[0];
        assert SetPlaylists(ps[1..], playlistId, files) == ps[1..];
      }
      forall j | 0 < j < |ps| ensures ps[1..][j - 1] == ps[j] { }
    }
  }

  /** One playlist. It is read from `snap`, the document as it was when the
      pass started (the reads are issued before any write); its file
      commands act on the bucket even when one of them fails. */
  function StepPlaylist(snap: UserDoc, pr: Progress, userId: string, playlistId: string, k: nat,
                        programFiles: seq<FileRecord>, del: nat -> nat -> bool, cp: nat -> nat -> bool,
                        now: string): (r: Progress)
    requires userId in pr.st.docs
    ensures userId in r.st.docs && r.st.admin == pr.st.admin
    ensures |r.errors| == |pr.errors| || |r.errors| == |pr.errors| + 1
    ensures r.errors[..|pr.errors|] == pr.errors
    ensures |r.errors| > |pr.errors| ==> r.st.docs == pr.st.docs && r.errors[|pr.errors|].playlistId == playlistId
    ensures |r.errors| == |pr.errors| ==> ProjectIndex(snap, playlistId).Some?
    ensures r.st.docs.Keys == pr.st.docs.Keys &&
            forall u :: u in pr.st.docs && u != userId ==> r.st.docs[u] == pr.st.docs[u]
  {
    match ProjectIndex(snap, playlistId)
    case None => Progress(pr.st, pr.errors + [PlaylistError(playlistId, PlaylistNotFound)])
    case Some(i) =>
      var res := StepFiles(pr.st.blobs, Meta(snap)[i].playlistsFile, programFiles, userId, playlistId,
                           del(k), cp(k), now);
      var st1 := pr.st.(blobs := res.blobs);
      if res.failure.Some? then Progress(st1, pr.errors + [PlaylistError(playlistId, res.failure.value)])
      else
        var d := pr.st.docs[userId];
        if SamePlaylists(Meta(d), playlistId, res.updated) then
          Progress(st1, pr.errors + [PlaylistError(playlistId, NotUpdated)])
        else Progress(st1.(docs := st1.docs[userId := WithMeta(d, SetPlaylists(Meta(d), playlistId, res.updated))]),
                      pr.errors)
  }

  /** `found` holds of every id, checked last id first. */
  predicate AllFound(ids: seq<string>, found: string -> bool)
    decreases |ids|
  {
    ids == [] || (AllFound(ids[..|ids| - 1], found) && found(ids[|ids| - 1]))
  }

  /** The id names a project of the snapshot. */
  function FoundIn(snap: UserDoc): string -> bool
  {
    (id: string) => ProjectIndex(snap, id).Some?
  }

  lemma {:induction false} AllFoundEach(ids: seq<string>, found: string -> bool)
    ensures AllFound(ids, found) <==> forall q :: 0 <= q < |ids| ==> found(ids[q])
    decreases |ids|
  {
    if ids != [] {
      var k := |ids| - 1;
      var init := ids[..k];
      AllFoundEach(init, found);
      if forall q :: 0 <= q < |ids| ==> found(ids[q]) {
        forall q | 0 <= q < k ensures found(init[q]) {
          assert init[q] == ids[q];
        }
      }
      if AllFound(ids, found) {
        forall q | 0 <= q < |ids| ensures found(ids[q]) {
          if q < k { assert init[q] == ids[q]; }
        }
      }
    }
  }

  /** The pass over `ids`, in order. At most one error per playlist; a
      pass without errors found every playlist in the snapshot. */
  function ApplyPlaylists(snap: UserDoc, st: State, ids: seq<string>, userId: string, programFiles: seq<FileRecord>,
                          del: nat -> nat -> bool, cp: nat -> nat -> bool, now: string): (r: Progress)
    requires userId in st.docs
    ensures userId in r.st.docs
    ensures |r.errors| <= |ids|
    ensures r.errors == [] ==> AllFound(ids, FoundIn(snap))
    decreases |ids|
  {
    if ids == [] then Progress(st, [])
    else
      var k := |ids| - 1;
      var prev := ApplyPlaylists(snap, st, ids[..k], userId, programFiles, del, cp, now);
      var r := StepPlaylist(snap, prev, userId, ids[k], k, programFiles, del, cp, now);
      assert r.errors == [] ==> prev.errors == [] && ProjectIndex(snap, ids[k]).Some?;
      r
  }

  /** Every project with the id holds the playlist that the first one holds. */
  predicate OnePlaylist(d: UserDoc, playlistId: string)
  {
    ProjectIndex(d, playlistId).Some? &&
    forall j :: 0 <= j < |Meta(d)| && Meta(d)[j].projectId == playlistId ==>
      Meta(d)[j].playlistsFile == Meta(d)[ProjectIndex(d, playlistId).value].playlistsFile
  }

  /** A playlist with no slot in common with the program is reported as not
      updated: nothing is copied, the write changes nothing. */
  lemma NoMatchIsReported(snap: UserDoc, pr: Progress, userId: string, playlistId: string, k: nat,
                          programFiles: seq<FileRecord>, del: nat -> nat -> bool, cp: nat -> nat -> bool, now: string)
    requires userId in pr.st.docs && pr.st.docs[userId] == snap && OnePlaylist(snap, playlistId)
    requires var files := Meta(snap)[ProjectIndex(snap, playlistId).value].playlistsFile;
      forall j :: 0 <= j < |files| ==> MatchOf(programFiles, files[j]).None?
    ensures StepPlaylist(snap, pr, userId, playlistId, k, programFiles, del, cp, now)
         == Progress(pr.st, pr.errors + [PlaylistError(playlistId, NotUpdated)])
  {
    var i := ProjectIndex(snap, playlistId).value;
    var files := Meta(snap)[i].playlistsFile;
    StepFilesNoMatch(pr.st.blobs, files, programFiles, userId, playlistId, del(k), cp(k), now);
    SetPlaylistsEffect(Meta(snap), playlistId, files);
  }

  /** One playlist's handler: the copies, then the write. */
  method ApplyPlaylist(snap: UserDoc, pr: Progress, userId: string, playlistId: string, k: nat,
                       programFiles: seq<FileRecord>, del: nat -> nat -> bool, cp: nat -> nat -> bool, now: string)
    returns (next: Progress)
    requires userId in pr.st.docs
    ensures next == StepPlaylist(snap, pr, userId, playlistId, k, programFiles, del, cp, now)
  {
    var i := ProjectIndex(snap, playlistId);
    if i.None? {
      return Progress(pr.st, pr.errors + [PlaylistError(playlistId, PlaylistNotFound)]);
    }
    var res := ApplyFiles(pr.st.blobs, Meta(snap)[i.value].playlistsFile, programFiles, userId, playlistId,
                          del(k), cp(k), now);
    var st1 := pr.st.(blobs := res.blobs);
    if res.failure.Some? {
      return Progress(st1, pr.errors + [PlaylistError(playlistId, res.failure.value)]);
    }
    var d := pr.st.docs[userId];
    if SamePlaylists(Meta(d), playlistId, res.updated) {
      return Progress(st1, pr.errors + [PlaylistError(playlistId, NotUpdated)]);
    }
    next := Progress(st1.(docs := st1.docs[userId := WithMeta(d, SetPlaylists(Meta(d), playlistId, res.updated))]),
                     pr.errors);
  }

  /** The playlists, one after another. */
  method RunPlaylists(snap: UserDoc, st: State, ids: seq<string>, userId: string, programFiles: seq<FileRecord>,
                      del: nat -> nat -> bool, cp: nat -> nat -> bool, now: string)
    returns (pr: Progress)
    requires userId in st.docs
    ensures pr == ApplyPlaylists(snap, st, ids, userId, programFiles, del, cp, now)
  {
    pr := Progress(st, []);
    var k := 0;
    while k < |ids|
      invariant 0 <= k <= |ids|
      invariant userId in pr.st.docs
      invariant pr == ApplyPlaylists(snap, st, ids[..k], userId, programFiles, del, cp, now)
    {
      assert ids[..k + 1][..k] == ids[..k];
      pr := ApplyPlaylist(snap, pr, userId, ids[k], k, programFiles, del, cp, now);
      k := k + 1;
    }
    assert ids[..|ids|] == ids;
  }

  // ---------------------------------------------------------------- handler

  datatype ApplyOutcome =
    | ApplyInvalid                                // 400
    | ApplyProgramNotFound                        // 404
    | ApplyNoFiles                                // 400: the program has no folder 0
    | ApplyPartial(errors: seq<PlaylistError>)    // 207
    | ApplyDone                                   // 200

  function ApplyReply(o: ApplyOutcome): (r: Reply)
    ensures r.success <==> o == ApplyDone
  {
    match o
    case ApplyInvalid => Status(400)
    case ApplyProgramNotFound => Status(404)
    case ApplyNoFiles => Status(400)
    case ApplyPartial(_) => Status(207)
    case ApplyDone => Success(200)
  }

  /** The request is well formed. */
  predicate ApplyRequest(userId: string, programId: string, playlistIds: Option<seq<string>>)
  {
    userId != "" && programId != "" && playlistIds.Some? && playlistIds.value != []
  }

  /** The user's document holds a program with that id. */
  predicate HasProgram(st: State, userId: string, programId: string)
  {
    userId in st.docs && S3ProgramRoutes.ProgramIndex(st.docs[userId], programId).Some?
  }

  function SelectedProgram(st: State, userId: string, programId: string): Program
    requires HasProgram(st, userId, programId)
  {
    st.docs[userId].programming[S3ProgramRoutes.ProgramIndex(st.docs[userId], programId).value]
  }

  /** The ids in the order their handlers finished. */
  function Arranged(ids: seq<string>, finish: seq<nat>): (r: seq<string>)
    requires forall c :: 0 <= c < |finish| ==> finish[c] < |ids|
    ensures |r| == |finish| && forall c :: 0 <= c < |finish| ==> r[c] == ids[finish[c]]
  {
    seq(|finish|, c requires 0 <= c < |finish| => ids[finish[c]])
  }

  /** Handlers finishing in any order handle each requested playlist once:
      the arranged ids are the requested ones, position by position. */
  lemma ArrangedCoversIds(ids: seq<string>, finish: seq<nat>, q: nat)
    requires FinishOrder(finish, |ids|) && q < |ids|
    ensures exists c :: 0 <= c < |finish| && finish[c] == q && Arranged(ids, finish)[c] == ids[q]
  {
    assert q in finish;
    var c :| 0 <= c < |finish| && finish[c] == q;
  }

  /** `/apply-program`. The playlist handlers run concurrently; each reads
      the document, runs its file commands and then writes and reports, so
      they are taken one after another in the order `finish` in which they
      ended. `del(k)(j)` and `cp(k)(j)` are the outcomes of the delete and
      copy commands for file `j` of the `k`-th playlist to finish. */
  method ApplyProgramRoute(st: State, userId: string, programId: string, playlistIds: Option<seq<string>>,
                           finish: seq<nat>, del: nat -> nat -> bool, cp: nat -> nat -> bool, now: string)
    returns (outcome: ApplyOutcome, st': State)
    requires playlistIds.Some? ==> FinishOrder(finish, |playlistIds.value|)
    ensures outcome == ApplyInvalid <==> !ApplyRequest(userId, programId, playlistIds)
    ensures outcome == ApplyProgramNotFound <==>
      ApplyRequest(userId, programId, playlistIds) && !HasProgram(st, userId, programId)
    ensures outcome == ApplyNoFiles <==>
      ApplyRequest(userId, programId, playlistIds) && HasProgram(st, userId, programId) &&
      SelectedProgram(st, userId, programId).programFolder == []
    ensures outcome in {ApplyInvalid, ApplyProgramNotFound, ApplyNoFiles} ==> st' == st
    ensures outcome.ApplyPartial? || outcome == ApplyDone ==>
      ApplyRequest(userId, programId, playlistIds) && HasProgram(st, userId, programId) &&
      var pr := ApplyPlaylists(st.docs[userId], st, Arranged(playlistIds.value, finish), userId,
                               S3ProgramRoutes.Folder0(SelectedProgram(st, userId, programId)), del, cp, now);
      st' == pr.st && (outcome == ApplyDone <==> pr.errors == []) &&
      (outcome.ApplyPartial? ==> outcome.errors == pr.errors)
  {
    if userId == "" || programId == "" || playlistIds.None? || playlistIds.value == [] {
      return ApplyInvalid, st;
    }
    if userId !in st.docs {
      return ApplyProgramNotFound, st;
    }
    var snap := st.docs[userId];
    var pi := S3ProgramRoutes.ProgramIndex(snap, programId);
    if pi.None? {
      return ApplyProgramNotFound, st;
    }
    var selected := snap.programming[pi.value];
    if selected.programFolder == [] {
      return ApplyNoFiles, st;
    }
    var programFiles := selected.programFolder[0].filesProgram;
    var ids := Arranged(playlistIds.value, finish);
    var pr := RunPlaylists(snap, st, ids, userId, programFiles, del, cp, now);
    if pr.errors != [] {
      return ApplyPartial(pr.errors), pr.st;
    }
    return ApplyDone, pr.st;
  }
}
