/** `/render-playlist` of api/fileRoutes.js. For each requested id in turn:
    the first project of the document read at the start with that id is
    taken, its playlist sorted by `seqPos` and downloaded file by file
    (a failed download is skipped), the downloaded files merged and probed,
    the result uploaded as `users/{userId}/rendered_videos/output-{ms}.mp4`
    and its record pushed onto the project's `renderFile`. Any failure of
    one id skips that id; the route answers 200 with the records made. */
module NodeRender {
  import opened JsValues
  import opened Mongo
  import opened Store
  import Metadata
  import opened Probe
  import opened SeqPosOrder
  import opened Render

  /** The outside world seen by the handler, by the position `k` of the id in
      `playlistIds`: whether the object with a key could be downloaded, the
      probe of the merged output of the downloaded records (`None` when the
      merge or the probe rejects), whether the upload and the signing
      succeeded, `Date.now()`, the ISO timestamp, a fresh `uuidv4()` and the
      signed URL. */
  datatype Effects = Effects(
    fetched: nat -> string -> bool,
    probe: nat -> seq<FileRecord> -> Option<Report>,
    uploaded: nat -> bool,
    now: nat -> nat,
    iso: nat -> string,
    uuid: nat -> string,
    url: nat -> string)

  /** The download of a record succeeded. */
  function FetchedBy(ok: string -> bool): FileRecord -> bool
  {
    (f: FileRecord) => ok(f.key)
  }

  /** `fileMetadata` of the rendered output. */
  function NodeRecord(userId: string, playlistId: string, title: string, m: Summary, k: nat, fx: Effects): (r: FileRecord)
  {
    FileRecord(key := RenderedKey(userId, fx.now(k)), fileName := title + " " + fx.iso(k), url := fx.url(k),
               accessType := "", projectId := playlistId, projectTitle := "", programId := "",
               fileId := fx.uuid(k), createdAt := fx.iso(k), slotPosition := Undef, seqPos := Undef,
               duration := m.duration, frameRate := m.frameRate,
               resolution := Str(Metadata.Template(m.width) + "x" + Metadata.Template(m.height)),
               metadataError := Undef, notes := [])
  }

  /** The record the `k`-th id produces, `None` when it is skipped: no
      project with that id, no file downloaded, the merge or probe failed,
      or the upload failed. */
  function NodeResult(snap: UserDoc, userId: string, k: nat, playlistId: string, fx: Effects): (r: Option<FileRecord>)
    ensures r.Some? <==>
      ProjectIndex(snap, playlistId).Some? &&
      (var p := Meta(snap)[ProjectIndex(snap, playlistId).value];
       var downloaded := Keep(SortBySeqPos(p.playlistsFile), FetchedBy(fx.fetched(k)));
       downloaded != [] && fx.probe(k)(downloaded).Some? && fx.uploaded(k))
    ensures r.Some? ==>
      var p := Meta(snap)[ProjectIndex(snap, playlistId).value];
      var downloaded := Keep(SortBySeqPos(p.playlistsFile), FetchedBy(fx.fetched(k)));
      r.value == NodeRecord(userId, playlistId, p.projectTitle, NodeSummary(fx.probe(k)(downloaded).value), k, fx)
  {
    match ProjectIndex(snap, playlistId)
    case None => None
    case Some(i) =>
      var p := Meta(snap)[i];
      var downloaded := Keep(SortBySeqPos(p.playlistsFile), FetchedBy(fx.fetched(k)));
      if downloaded == [] then None
      else match fx.probe(k)(downloaded)
        case None => None
        case Some(report) =>
          if !fx.uploaded(k) then None
          else Some(NodeRecord(userId, playlistId, p.projectTitle, NodeSummary(report), k, fx))
  }

  /** The ids `ids` processed in order from `st`, reading projects from the
      document `snap` fetched at the start. */
  function NodeAll(snap: UserDoc, st: State, userId: string, ids: seq<string>, fx: Effects): (acc: Acc)
    requires userId in st.docs
    ensures userId in acc.st.docs
    ensures |acc.rendered| <= |ids|
    decreases |ids|
  {
    if ids == [] then Acc(st, [])
    else
      var k := |ids| - 1;
      var prev := NodeAll(snap, st, userId, ids[..k], fx);
      assert forall q :: q in ids[..k] ==> q in ids;
      match NodeResult(snap, userId, k, ids[k], fx)
      case None => prev
      case Some(r) => Record(prev, userId, r)
  }

  lemma NodeAllExtend(snap: UserDoc, st: State, userId: string, ids: seq<string>, k: nat, fx: Effects)
    requires userId in st.docs && k < |ids|
    ensures NodeAll(snap, st, userId, ids[..k + 1], fx) ==
      match NodeResult(snap, userId, k, ids[k], fx)
      case None => NodeAll(snap, st, userId, ids[..k], fx)
      case Some(r) => Record(NodeAll(snap, st, userId, ids[..k], fx), userId, r)
  {
    assert ids[..k + 1][..k] == ids[..k];
  }

  /** Rendering only appends to `renderFile` arrays and adds blobs; every
      returned record was uploaded, is placed in the playlist it renders,
      and that playlist is one of the requested ids. */
  lemma {:induction false} NodeAllGood(st: State, userId: string, ids: seq<string>, fx: Effects)
    requires userId in st.docs
    ensures var acc := NodeAll(st.docs[userId], st, userId, ids, fx);
      Good(st, acc, userId) && forall r :: r in acc.rendered ==> r.projectId in ids
    decreases |ids|
  {
    var snap := st.docs[userId];
    if ids != [] {
      var k := |ids| - 1;
      NodeAllGood(st, userId, ids[..k], fx);
      var prev := NodeAll(snap, st, userId, ids[..k], fx);
      assert forall q :: q in ids[..k] ==> q in ids;
      match NodeResult(snap, userId, k, ids[k], fx)
      case None =>
      case Some(r) =>
        RecordGood(st, prev, userId, r);
    }
  }

  /** The inner loop: the downloaded records, in playlist order. */
  method Download(files: seq<FileRecord>, ok: string -> bool) returns (paths: seq<FileRecord>)
    ensures paths == Keep(files, FetchedBy(ok))
  {
    paths := [];
    var j := 0;
    while j < |files|
      invariant 0 <= j <= |files|
      invariant paths == Keep(files[..j], FetchedBy(ok))
    {
      KeepAppend(files[..j], [files[j]], FetchedBy(ok));
      assert files[..j + 1] == files[..j] + [files[j]];
      if ok(files[j].key) {
        paths := paths + [files[j]];
      }
      j := j + 1;
    }
    assert files[..|files|] == files;
  }

  /** One iteration of the outer loop. */
  method RenderOne(snap: UserDoc, acc: Acc, userId: string, k: nat, playlistId: string, fx: Effects)
    returns (next: Acc)
    requires userId in acc.st.docs
    ensures next == match NodeResult(snap, userId, k, playlistId, fx)
                    case None => acc
                    case Some(r) => Record(acc, userId, r)
  {
    next := acc;
    var found := ProjectIndex(snap, playlistId);
    if found.None? {
      return;
    }
    var p := Meta(snap)[found.value];
    var filePaths := Download(SortBySeqPos(p.playlistsFile), fx.fetched(k));
    if filePaths == [] {
      return;
    }
    var metadata := fx.probe(k)(filePaths);
    if metadata.None? || !fx.uploaded(k) {
      return;
    }
    var record := NodeRecord(userId, playlistId, p.projectTitle, NodeSummary(metadata.value), k, fx);
    next := Record(acc, userId, record);
  }

  /** The outer loop over `playlistIds`. */
  method RunRender(st: State, userId: string, ids: seq<string>, fx: Effects) returns (acc: Acc)
    requires userId in st.docs
    ensures acc == NodeAll(st.docs[userId], st, userId, ids, fx)
  {
    var snap := st.docs[userId];
    acc := Acc(st, []);
    var k := 0;
    while k < |ids|
      invariant 0 <= k <= |ids|
      invariant acc == NodeAll(snap, st, userId, ids[..k], fx)
    {
      NodeAllExtend(snap, st, userId, ids, k, fx);
      acc := RenderOne(snap, acc, userId, k, ids[k], fx);
      k := k + 1;
    }
    assert ids[..|ids|] == ids;
  }

  /** The handler: 400 without a user or ids, 404 without a document or
      `userMeta`, otherwise 200 with the records made. */
  method RenderPlaylist(st: State, userId: string, playlistIds: Option<seq<string>>, fx: Effects)
    returns (reply: Reply, rendered: seq<FileRecord>, st': State)
    ensures reply == Status(400) <==> userId == "" || playlistIds.None? || playlistIds.value == []
    ensures reply == Status(404) <==>
      !(userId == "" || playlistIds.None? || playlistIds.value == []) &&
      (userId !in st.docs || st.docs[userId].userMeta.None?)
    ensures !reply.success ==> rendered == [] && st' == st
    ensures reply.success ==>
      reply == Success(200) &&
      var acc := NodeAll(st.docs[userId], st, userId, playlistIds.value, fx);
      rendered == acc.rendered && st' == acc.st
  {
    if userId == "" || playlistIds.None? || playlistIds.value == [] {
      return Status(400), [], st;
    }
    if userId !in st.docs || st.docs[userId].userMeta.None? {
      return Status(404), [], st;
    }
    var acc := RunRender(st, userId, playlistIds.value, fx);
    return Success(200), acc.rendered, acc.st;
  }
}
