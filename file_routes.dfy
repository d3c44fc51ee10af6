/** The project and playlist routes of api/fileRoutes.js other than
    `/delete-play`, `/package-playlists` and `/render-playlist`:
    `/new-save-file-keys`, `/thee_extractor`, `/save-file-order`,
    `/add-farmer` and `/transfer-to-playlist`. */
module FileRoutes {
  import opened JsValues
  import opened Mongo
  import opened Store
  import Strings
  import Metadata
  import S3ProjectRoutes

  // ---------------------------------------------------- /new-save-file-keys

  /** An entry of the request's `files`. */
  datatype UploadEntry = UploadEntry(key: string, fileName: string, url: string, seqPos: JsVal, slotPosition: JsVal)

  /** The stored document for the i-th entry: only the listed fields, the
      positions defaulted with `|| null`, a fresh `fileId`. */
  function UploadRecord(e: UploadEntry, accessType: string, projectId: string, fileId: string, now: string)
    : (g: FileRecord)
    ensures g.key == e.key && g.fileId == fileId && g.projectId == projectId && g.accessType == accessType
    ensures g.seqPos == Or(e.seqPos, Null) && g.slotPosition == Or(e.slotPosition, Null)
    ensures g.notes == [] && g.duration == Undef && g.resolution == Undef && g.metadataError == Undef
  {
    FileRecord(key := e.key, fileName := e.fileName, url := e.url, accessType := accessType,
               projectId := projectId, projectTitle := "", programId := "", fileId := fileId, createdAt := now,
               slotPosition := Or(e.slotPosition, Null), seqPos := Or(e.seqPos, Null), duration := Undef,
               frameRate := Undef, resolution := Undef, metadataError := Undef, notes := [])
  }

  function UploadRecords(files: seq<UploadEntry>, accessType: string, projectId: string, uuid: nat -> string,
                         now: string): (gs: seq<FileRecord>)
    ensures |gs| == |files|
    ensures forall i :: 0 <= i < |files| ==> gs[i] == UploadRecord(files[i], accessType, projectId, uuid(i), now)
  {
    seq(|files|, i requires 0 <= i < |files| => UploadRecord(files[i], accessType, projectId, uuid(i), now))
  }

  /** The project the route creates: no `mainKey`, a generated title. */
  function CreatedProject(projectId: string, files: seq<FileRecord>): Project
  {
    Project(None, projectId, "Project-" + projectId, files, [], [])
  }

  datatype NewSaveOutcome = NewSaveMissing | NewSaveBroken | NewSaveSaved(files: seq<FileRecord>)

  /** `/new-save-file-keys`. A document without `userMeta` makes
      `findIndex` throw (500). */
  function NewSaveFileKeys(st: State, files: Option<seq<UploadEntry>>, accessType: string, userId: string,
                           projectId: string, uuid: nat -> string, now: string): (r: (NewSaveOutcome, State))
    ensures r.0 == NewSaveMissing <==>
      files.None? || files.value == [] || userId == "" || projectId == "" || accessType == ""
    ensures r.0 == NewSaveBroken <==>
      !r.0.NewSaveMissing? && userId in st.docs && st.docs[userId].userMeta.None?
    ensures !r.0.NewSaveSaved? ==> r.1 == st
    ensures r.0.NewSaveSaved? ==>
      files.Some? && r.0.files == UploadRecords(files.value, accessType, projectId, uuid, now) &&
      r.1.blobs == st.blobs && r.1.admin == st.admin && userId in r.1.docs &&
      r.1.docs == st.docs[userId := r.1.docs[userId]]
    ensures r.0.NewSaveSaved? && files.Some? ==>
      var recs := UploadRecords(files.value, accessType, projectId, uuid, now);
      if userId !in st.docs then r.1.docs[userId] == UserDoc(Some([CreatedProject(projectId, recs)]), [])
      else
        var d := st.docs[userId];
        match ProjectIndex(d, projectId)
        case Some(i) => r.1.docs[userId] == WithMeta(d, Meta(d)[i := Meta(d)[i].(files := Meta(d)[i].files + recs)])
        case None => r.1.docs[userId] == WithMeta(d, Meta(d) + [CreatedProject(projectId, recs)])
  {
    if files.None? || files.value == [] || userId == "" || projectId == "" || accessType == "" then (NewSaveMissing, st)
    else
      var recs := UploadRecords(files.value, accessType, projectId, uuid, now);
      if userId !in st.docs then
        (NewSaveSaved(recs), st.(docs := st.docs[userId := UserDoc(Some([CreatedProject(projectId, recs)]), [])]))
      else
        var d := st.docs[userId];
        if d.userMeta.None? then (NewSaveBroken, st)
        else match ProjectIndex(d, projectId)
          case Some(i) =>
            var p := Meta(d)[i];
            (NewSaveSaved(recs), st.(docs := st.docs[userId := WithMeta(d, Meta(d)[i := p.(files := p.files + recs)])]))
          case None =>
            (NewSaveSaved(recs), st.(docs := st.docs[userId := WithMeta(d, Meta(d) + [CreatedProject(projectId, recs)])]))
  }

  /** One record per entry, each with its own fresh id: distinct uuids give
      distinct `fileId`s. */
  lemma UploadRecordsFreshIds(files: seq<UploadEntry>, accessType: string, projectId: string, uuid: nat -> string,
                              now: string)
    requires forall i, j :: 0 <= i < j < |files| ==> uuid(i) != uuid(j)
    ensures var gs := UploadRecords(files, accessType, projectId, uuid, now);
      |gs| == |files| &&
      (forall i :: 0 <= i < |gs| ==> gs[i].key == files[i].key && gs[i].projectId == projectId) &&
      forall i, j :: 0 <= i < j < |gs| ==> gs[i].fileId != gs[j].fileId
  {
  }

  /** A project this route creates has no `mainKey`, so `/delete-project`,
      which looks projects up by `projectKey-{projectId}`, never finds it. */
  lemma CreatedProjectNotDeletable(projectId: string, recs: seq<FileRecord>, anyId: string)
    ensures !S3ProjectRoutes.WithMainKey(ProjectMainKey(anyId))(CreatedProject(projectId, recs))
    ensures FindFirst(Meta(UserDoc(Some([CreatedProject(projectId, recs)]), [])),
                      S3ProjectRoutes.WithMainKey(ProjectMainKey(anyId))).None?
  {
  }

  // -------------------------------------------------------- /thee_extractor

  datatype TheeOutcome = TheeMissing | TheeNotFound | TheeBadKey | TheeUnchanged | TheeDone(files: seq<FileRecord>)

  /** The project `/thee_extractor` works on exists. */
  predicate TheeFound(st: State, userId: string, projectId: string)
  {
    userId != "" && projectId != "" && userId in st.docs && st.docs[userId].userMeta.Some? &&
    ProjectIndex(st.docs[userId], projectId).Some?
  }

  /** The document after the metadata pass over that project's files. */
  function TheeExtracted(st: State, userId: string, projectId: string, probe: nat -> Metadata.FileProbe): UserDoc
    requires TheeFound(st, userId, projectId)
  {
    var d := st.docs[userId];
    var i := ProjectIndex(d, projectId).value;
    WithMeta(d, Meta(d)[i := Meta(d)[i].(files := Metadata.ExtractList(Meta(d)[i].files, probe, false))])
  }

  /** `/thee_extractor`: the metadata pass over the first project with
      `projectId`, with the key decoded outside the per-file `try` (a bad key
      is a 500 for the whole request) and the write's result checked. */
  method TheeExtractor(st: State, userId: string, projectId: string, decode: string -> Option<string>,
                       probe: nat -> Metadata.FileProbe) returns (outcome: TheeOutcome, st': State)
    ensures outcome == TheeMissing <==> userId == "" || projectId == ""
    ensures !outcome.TheeDone? ==> st' == st
    ensures outcome == TheeNotFound <==>
      userId != "" && projectId != "" &&
      (userId !in st.docs || st.docs[userId].userMeta.None? || ProjectIndex(st.docs[userId], projectId).None?)
    ensures outcome == TheeBadKey <==>
      TheeFound(st, userId, projectId) &&
      !Metadata.AllKeysDecode(Meta(st.docs[userId])[ProjectIndex(st.docs[userId], projectId).value].files, decode)
    ensures outcome == TheeUnchanged || outcome.TheeDone? ==>
      TheeFound(st, userId, projectId) &&
      Metadata.AllKeysDecode(Meta(st.docs[userId])[ProjectIndex(st.docs[userId], projectId).value].files, decode)
    ensures outcome == TheeUnchanged <==>
      TheeFound(st, userId, projectId) &&
      Metadata.AllKeysDecode(Meta(st.docs[userId])[ProjectIndex(st.docs[userId], projectId).value].files, decode) &&
      TheeExtracted(st, userId, projectId, probe) == st.docs[userId]
    ensures outcome.TheeDone? <==>
      TheeFound(st, userId, projectId) &&
      Metadata.AllKeysDecode(Meta(st.docs[userId])[ProjectIndex(st.docs[userId], projectId).value].files, decode) &&
      TheeExtracted(st, userId, projectId, probe) != st.docs[userId]
    ensures outcome.TheeDone? ==>
      var d := st.docs[userId];
      var i := ProjectIndex(d, projectId).value;
      var d' := WithMeta(d, Meta(d)[i := Meta(d)[i].(files := outcome.files)]);
      outcome.files == Metadata.ExtractList(Meta(d)[i].files, probe, false) &&
      d' != d && st' == st.(docs := st.docs[userId := d'])
  {
    if userId == "" || projectId == "" {
      return TheeMissing, st;
    }
    if userId !in st.docs || st.docs[userId].userMeta.None? {
      return TheeNotFound, st;
    }
    var d := st.docs[userId];
    var pi := ProjectIndex(d, projectId);
    if pi.None? {
      return TheeNotFound, st;
    }
    var project := Meta(d)[pi.value];
    var extracted := Metadata.ExtractChecked(project.files, decode, probe, false);
    if extracted.None? {
      return TheeBadKey, st;
    }
    var d' := WithMeta(d, Meta(d)[pi.value := project.(files := extracted.value)]);
    if d' == d {
      return TheeUnchanged, st;
    }
    return TheeDone(extracted.value), st.(docs := st.docs[userId := d']);
  }

  // ------------------------------------------------------- /save-file-order

  function FilesTo(files: seq<FileRecord>): Project -> Project
  {
    (p: Project) => p.(files := files)
  }

  datatype SaveOrderOutcome = SaveOrderMissing | SaveOrderNotFound | SaveOrderSaved

  /** `/save-file-order`: every project with `projectId` gets the submitted
      list as its `files`, verbatim (no renumbering); the whole `userMeta` is
      written back. An empty list is accepted. */
  function SaveFileOrder(st: State, userId: string, projectId: string, reorderedFiles: Option<seq<FileRecord>>)
    : (r: (SaveOrderOutcome, State))
    ensures r.0 == SaveOrderMissing <==> userId == "" || projectId == "" || reorderedFiles.None?
    ensures r.0 == SaveOrderNotFound <==>
      !r.0.SaveOrderMissing? &&
      (userId !in st.docs || st.docs[userId].userMeta.None? || ProjectIndex(st.docs[userId], projectId).None?)
    ensures r.0 != SaveOrderSaved ==> r.1 == st
    ensures r.0 == SaveOrderSaved ==>
      userId in st.docs && reorderedFiles.Some? && userId in r.1.docs &&
      var ps := Meta(st.docs[userId]);
      var ps' := Meta(r.1.docs[userId]);
      r.1 == st.(docs := st.docs[userId := WithMeta(st.docs[userId], ps')]) &&
      |ps'| == |ps| &&
      forall k :: 0 <= k < |ps| ==>
        ps'[k] == if ps[k].projectId == projectId then ps[k].(files := reorderedFiles.value) else ps[k]
  {
    if userId == "" || projectId == "" || reorderedFiles.None? then (SaveOrderMissing, st)
    else if userId !in st.docs || st.docs[userId].userMeta.None? || ProjectIndex(st.docs[userId], projectId).None? then
      (SaveOrderNotFound, st)
    else
      var d := st.docs[userId];
      var ps := UpdateWhere(Meta(d), WithProjectId(projectId), FilesTo(reorderedFiles.value));
      (SaveOrderSaved, st.(docs := st.docs[userId := WithMeta(d, ps)]))
  }

  // ----------------------------------------------------------- /add-farmer

  datatype FarmerOutcome = BotDetected | NameOrEmailMissing | MessageTooLong | AdminNotFound | FarmerAdded

  const MaxMessage: nat := 180

  function FarmerReply(o: FarmerOutcome): (r: Reply)
    ensures r.success <==> o == FarmerAdded
  {
    match o
    case BotDetected => Status(400)
    case NameOrEmailMissing => Status(400)
    case MessageTooLong => Status(400)
    case AdminNotFound => Status(404)
    case FarmerAdded => Success(200)
  }

  /** `/add-farmer`: the honeypot first, then name and email, then the
      message length in UTF-16 code units; the farmer is pushed onto the
      admin document. */
  function AddFarmer(st: State, name: string, email: string, message: string, honeypot: string)
    : (r: (FarmerOutcome, State))
    ensures r.0 == BotDetected <==> honeypot != ""
    ensures r.0 == NameOrEmailMissing <==> honeypot == "" && (name == "" || email == "")
    ensures r.0 == MessageTooLong <==> honeypot == "" && name != "" && email != "" && Strings.Utf16Length(message) > MaxMessage
    ensures r.0 == AdminNotFound <==>
      honeypot == "" && name != "" && email != "" && Strings.Utf16Length(message) <= MaxMessage && st.admin.None?
    ensures r.0 != FarmerAdded ==> r.1 == st
    ensures r.0 == FarmerAdded ==>
      st.admin.Some? && r.1 == st.(admin := Some(st.admin.value + [Farmer(name, email, message)]))
  {
    if honeypot != "" then (BotDetected, st)
    else if name == "" || email == "" then (NameOrEmailMissing, st)
    else if message != "" && Strings.Utf16Length(message) > MaxMessage then (MessageTooLong, st)
    else if st.admin.None? then (AdminNotFound, st)
    else (FarmerAdded, st.(admin := Some(st.admin.value + [Farmer(name, email, message)])))
  }

  // -------------------------------------------------- /transfer-to-playlist

  /** An entry of the request's `files` (FilesDisplay builds them). */
  datatype TransferItem = TransferItem(userId: string, projectId: string, sourceKey: string, destinationKey: string,
                                       fileName: string, slotPosition: JsVal, duration: JsVal, frameRate: JsVal,
                                       resolution: JsVal)

  predicate Complete(item: TransferItem)
  {
    item.sourceKey != "" && item.destinationKey != "" && item.projectId != "" && item.userId != ""
  }

  /** `Math.max(...playlistsFile.map(e => e.seqPos || 0))`, 0 for an empty
      playlist. */
  function MaxSeqPos(fs: seq<FileRecord>): int
  {
    if fs == [] then 0
    else if |fs| == 1 then NumOr0(fs[0].seqPos)
    else
      var m := MaxSeqPos(fs[1..]);
      if NumOr0(fs[0].seqPos) > m then NumOr0(fs[0].seqPos) else m
  }

  /** The maximum is an upper bound of the positions and one of them. */
  lemma {:induction false} MaxSeqPosIsMax(fs: seq<FileRecord>)
    requires fs != []
    ensures forall k :: 0 <= k < |fs| ==> NumOr0(fs[k].seqPos) <= MaxSeqPos(fs)
    ensures exists k :: 0 <= k < |fs| && NumOr0(fs[k].seqPos) == MaxSeqPos(fs)
  {
    if |fs| > 1 {
      MaxSeqPosIsMax(fs[1..]);
      var j :| 0 <= j < |fs[1..]| && NumOr0(fs[1..][j].seqPos) == MaxSeqPos(fs[1..]);
      assert fs[j + 1] == fs[1..][j];
      forall k | 1 <= k < |fs| ensures NumOr0(fs[k].seqPos) <= MaxSeqPos(fs) {
        assert fs[k] == fs[1..][k - 1];
      }
      if NumOr0(fs[0].seqPos) <= MaxSeqPos(fs[1..]) {
        assert NumOr0(fs[j + 1].seqPos) == MaxSeqPos(fs);
      } else {
        assert NumOr0(fs[0].seqPos) == MaxSeqPos(fs);
      }
    } else {
      assert NumOr0(fs[0].seqPos) == MaxSeqPos(fs);
    }
  }

  /** The record pushed for an item. */
  function TransferRecord(item: TransferItem, seqPos: int, fileId: string, now: string, bucket: string,
                          region: string): (g: FileRecord)
    ensures g.seqPos == Num(seqPos)
  {
    FileRecord(key := item.destinationKey, fileName := item.fileName,
               url := "https://" + bucket + ".s3." + region + ".amazonaws.com/" + item.destinationKey,
               accessType := "private", projectId := item.projectId, projectTitle := "", programId := "",
               fileId := fileId, createdAt := now, slotPosition := Or(item.slotPosition, Str("")),
               seqPos := Num(seqPos), duration := Or(item.duration, Null), frameRate := Or(item.frameRate, Null),
               resolution := Or(item.resolution, Null), metadataError := Undef, notes := [])
  }

  /** The push with `arrayFilters`: every project with that id gets the
      record appended to its playlist. */
  function PushAll(ps: seq<Project>, projectId: string, rec: FileRecord): seq<Project>
  {
    if ps == [] then []
    else
      [if ps[0].projectId == projectId then ps[0].(playlistsFile := ps[0].playlistsFile + [rec]) else ps[0]] +
      PushAll(ps[1..], projectId, rec)
  }

  /** The filter of the push matches: some project has that id. */
  predicate HasProject(ps: seq<Project>, projectId: string)
  {
    ps != [] && (ps[0].projectId == projectId || HasProject(ps[1..], projectId))
  }

  /** The push hits exactly the projects with the id, and each of them
      gains the record at the end of its playlist. */
  lemma {:induction false} PushAllPointwise(ps: seq<Project>, projectId: string, rec: FileRecord)
    ensures |PushAll(ps, projectId, rec)| == |ps|
    ensures forall k :: 0 <= k < |ps| ==>
      PushAll(ps, projectId, rec)[k] ==
        if ps[k].projectId == projectId then ps[k].(playlistsFile := ps[k].playlistsFile + [rec]) else ps[k]
    ensures HasProject(ps, projectId) <==> exists k :: 0 <= k < |ps| && ps[k].projectId == projectId
  {
    if ps != [] {
      PushAllPointwise(ps[1..], projectId, rec);
      if HasProject(ps[1..], projectId) {
        var k :| 0 <= k < |ps[1..]| && ps[1..][k].projectId == projectId;
        assert ps[k + 1].projectId == projectId;
      }
      forall k | 0 < k < |ps| && ps[k].projectId == projectId ensures HasProject(ps[1..], projectId) {
        assert ps[1..][k - 1] == ps[k];
      }
    }
  }

  /** The progress of the transfer: the state, the next position, whether
      some item has failed, and the pushed records in completion order. */
  datatype Transfer = Transfer(st: State, next: int, failed: bool, results: seq<FileRecord>)

  /** One item, when its turn in completion order comes: `copied(i)` says
      that reading the source and uploading the copy both succeeded. */
  function TransferStep(t: Transfer, items: seq<TransferItem>, i: nat, copied: nat -> bool, uuid: nat -> string,
                        now: string, bucket: string, region: string): (r: Transfer)
    requires i < |items|
    ensures r.next == t.next || r.next == t.next + 1
    ensures r.failed == (t.failed || r.next == t.next || |r.results| == |t.results|)
    ensures r.results == t.results || r.results == t.results + [TransferRecord(items[i], t.next, uuid(i), now, bucket, region)]
    ensures |r.results| == |t.results| + 1 ==> r.next == t.next + 1
  {
    var item := items[i];
    if !Complete(item) || !copied(i) then t.(failed := true)
    else
      var rec := TransferRecord(item, t.next, uuid(i), now, bucket, region);
      var st1 := t.st.(blobs := t.st.blobs + {item.destinationKey});
      if item.userId in st1.docs && HasProject(Meta(st1.docs[item.userId]), item.projectId) then
        var d := st1.docs[item.userId];
        Transfer(st1.(docs := st1.docs[item.userId := WithMeta(d, PushAll(Meta(d), item.projectId, rec))]),
                 t.next + 1, t.failed, t.results + [rec])
      else Transfer(st1, t.next + 1, true, t.results)
  }

  /** The items in the order given by `order` (the completion order). */
  function TransferAll(t: Transfer, items: seq<TransferItem>, order: seq<nat>, copied: nat -> bool,
                       uuid: nat -> string, now: string, bucket: string, region: string): (r: Transfer)
    requires forall c :: 0 <= c < |order| ==> order[c] < |items|
    decreases |order|
  {
    if order == [] then t
    else
      var c := |order| - 1;
      TransferStep(TransferAll(t, items, order[..c], copied, uuid, now, bucket, region), items, order[c],
                   copied, uuid, now, bucket, region)
  }

  /** One more completed item is one more step of the fold. */
  lemma TransferAllExtend(t: Transfer, items: seq<TransferItem>, order: seq<nat>, c: nat, copied: nat -> bool,
                          uuid: nat -> string, now: string, bucket: string, region: string)
    requires c < |order|
    requires forall k :: 0 <= k < |order| ==> order[k] < |items|
    ensures TransferAll(t, items, order[..c + 1], copied, uuid, now, bucket, region) ==
      TransferStep(TransferAll(t, items, order[..c], copied, uuid, now, bucket, region), items, order[c],
                   copied, uuid, now, bucket, region)
  {
    assert order[..c + 1][..c] == order[..c];
  }

  /** The positions pushed are consecutive from the starting one, in
      completion order, and the counter ends just after the last one given
      out (a completed copy whose push failed also uses one up). */
  lemma {:induction false} TransferConsecutive(t: Transfer, items: seq<TransferItem>, order: seq<nat>,
                                               copied: nat -> bool, uuid: nat -> string, now: string,
                                               bucket: string, region: string)
    requires forall c :: 0 <= c < |order| ==> order[c] < |items|
    requires t.results == []
    ensures var r := TransferAll(t, items, order, copied, uuid, now, bucket, region);
      t.next <= r.next <= t.next + |order| && |r.results| <= r.next - t.next &&
      (forall k :: 0 <= k < |r.results| ==> r.results[k].seqPos.Num? && t.next <= r.results[k].seqPos.n < r.next) &&
      forall k, l :: 0 <= k < l < |r.results| ==> r.results[k].seqPos.n < r.results[l].seqPos.n
    decreases |order|
  {
    if order != [] {
      var c := |order| - 1;
      TransferConsecutive(t, items, order[..c], copied, uuid, now, bucket, region);
      var prev := TransferAll(t, items, order[..c], copied, uuid, now, bucket, region);
      var r := TransferAll(t, items, order, copied, uuid, now, bucket, region);
      if |r.results| > |prev.results| {
        assert r.results[|prev.results|].seqPos == Num(prev.next);
      }
    }
  }

  /** Without failure every item was pushed once, numbered exactly
      next, next + 1, ... in completion order. */
  lemma {:induction false} TransferAllSucceeded(t: Transfer, items: seq<TransferItem>, order: seq<nat>,
                                                copied: nat -> bool, uuid: nat -> string, now: string,
                                                bucket: string, region: string)
    requires forall c :: 0 <= c < |order| ==> order[c] < |items|
    requires t.results == [] && !t.failed
    ensures var r := TransferAll(t, items, order, copied, uuid, now, bucket, region);
      !r.failed ==>
        |r.results| == |order| && r.next == t.next + |order| &&
        forall k :: 0 <= k < |order| ==>
          r.results[k] == TransferRecord(items[order[k]], t.next + k, uuid(order[k]), now, bucket, region)
    decreases |order|
  {
    if order != [] {
      var c := |order| - 1;
      TransferAllSucceeded(t, items, order[..c], copied, uuid, now, bucket, region);
      var prev := TransferAll(t, items, order[..c], copied, uuid, now, bucket, region);
      var r := TransferAll(t, items, order, copied, uuid, now, bucket, region);
      if !r.failed {
        assert !prev.failed;
        forall k | 0 <= k < c ensures order[..c][k] == order[k] {
        }
      }
    }
  }

  /** An incomplete item fails the request, whatever else went through. */
  lemma {:induction false} IncompleteItemFails(t: Transfer, items: seq<TransferItem>, order: seq<nat>,
                                               copied: nat -> bool, uuid: nat -> string, now: string,
                                               bucket: string, region: string, c: nat)
    requires forall c :: 0 <= c < |order| ==> order[c] < |items|
    requires c < |order| && !Complete(items[order[c]])
    ensures TransferAll(t, items, order, copied, uuid, now, bucket, region).failed
    decreases |order|
  {
    var last := |order| - 1;
    var prev := TransferAll(t, items, order[..last], copied, uuid, now, bucket, region);
    if c < last {
      assert order[..last][c] == order[c];
      IncompleteItemFails(t, items, order[..last], copied, uuid, now, bucket, region, c);
    }
    assert prev.failed || !Complete(items[order[last]]);
  }

  /** The completion handlers, run one after another in `order`. */
  method RunTransfer(t0: Transfer, items: seq<TransferItem>, order: seq<nat>, copied: nat -> bool,
                     uuid: nat -> string, now: string, bucket: string, region: string)
    returns (t: Transfer)
    requires forall k :: 0 <= k < |order| ==> order[k] < |items|
    ensures t == TransferAll(t0, items, order, copied, uuid, now, bucket, region)
  {
    t := t0;
    var c := 0;
    while c < |order|
      invariant 0 <= c <= |order|
      invariant t == TransferAll(t0, items, order[..c], copied, uuid, now, bucket, region)
    {
      TransferAllExtend(t0, items, order, c, copied, uuid, now, bucket, region);
      t := TransferStep(t, items, order[c], copied, uuid, now, bucket, region);
      c := c + 1;
    }
    assert order[..|order|] == order;
  }

  datatype TransferOutcome = TransferEmpty | TransferFailed | TransferDone(results: seq<FileRecord>)

  /** The `seqPos` the first transferred file gets: one past the maximum of the
      playlist of the first item's project, or `None` when the user has no
      project with that id (the thrown 'Project or userMeta not found.'). */
  function FirstSeqPos(st: State, first: TransferItem): (r: Option<int>)
    ensures r.None? <==> first.userId !in st.docs || ProjectIndex(st.docs[first.userId], first.projectId).None?
    ensures r.Some? ==>
      var fs := Playlist(st.docs[first.userId], first.projectId);
      (fs == [] ==> r.value == 1) &&
      (forall e :: e in fs ==> NumOr0(e.seqPos) < r.value) &&
      (fs != [] ==> exists e :: e in fs && NumOr0(e.seqPos) == r.value - 1)
  {
    if first.userId !in st.docs then None
    else
      var d := st.docs[first.userId];
      match ProjectIndex(d, first.projectId)
      case None => None
      case Some(i) =>
        var fs := Meta(d)[i].playlistsFile;
        if fs == [] then Some(0 + 1)
        else
          MaxSeqPosIsMax(fs);
          Some(MaxSeqPos(fs) + 1)
  }

  /** `await Promise.all(operations)` answers in request order: item `q`'s
      record is the one pushed at `q`'s place in the completion order. */
  function InRequestOrder(results: seq<FileRecord>, order: seq<nat>): (r: seq<FileRecord>)
    requires FinishOrder(order, |results|)
    ensures |r| == |results|
    ensures forall k :: 0 <= k < |order| ==> r[order[k]] == results[k]
  {
    assert forall k :: 0 <= k < |order| ==> FinishPosition(order, order[k]) == k;
    seq(|results|, q requires 0 <= q < |results| => results[FinishPosition(order, q)])
  }

  /** Putting back in request order undoes the completion order: a list
      whose k-th element is `want[order[k]]` comes back as `want`. */
  lemma InRequestOrderUndoes(rs: seq<FileRecord>, want: seq<FileRecord>, order: seq<nat>)
    requires FinishOrder(order, |rs|) && |want| == |rs|
    requires forall k :: 0 <= k < |order| ==> rs[k] == want[order[k]]
    ensures InRequestOrder(rs, order) == want
  {
    var r := InRequestOrder(rs, order);
    forall q | 0 <= q < |want| ensures r[q] == want[q] {
      var k := FinishPosition(order, q);
      assert r[order[k]] == rs[k];
    }
  }

  /** The 200 answer of a transfer in which nothing failed: item `q`'s own
      record, numbered by `q`'s place in the completion order. */
  function TransferAnswer(items: seq<TransferItem>, order: seq<nat>, next: int, uuid: nat -> string, now: string,
                          bucket: string, region: string): (r: seq<FileRecord>)
    requires FinishOrder(order, |items|)
    ensures |r| == |items|
    ensures forall q :: 0 <= q < |items| ==> r[q].seqPos == Num(next + FinishPosition(order, q))
  {
    seq(|items|, q requires 0 <= q < |items| =>
      TransferRecord(items[q], next + FinishPosition(order, q), uuid(q), now, bucket, region))
  }

  /** The records pushed in completion order come back as `TransferAnswer`. */
  lemma {:induction false} TransferAnswerInRequestOrder(rs: seq<FileRecord>, items: seq<TransferItem>, order: seq<nat>,
                                                        next: int, uuid: nat -> string, now: string, bucket: string,
                                                        region: string)
    requires FinishOrder(order, |items|) && |rs| == |order|
    requires forall k :: 0 <= k < |order| ==>
      rs[k] == TransferRecord(items[order[k]], next + k, uuid(order[k]), now, bucket, region)
    ensures InRequestOrder(rs, order) == TransferAnswer(items, order, next, uuid, now, bucket, region)
  {
    var want := TransferAnswer(items, order, next, uuid, now, bucket, region);
    forall k | 0 <= k < |order| ensures rs[k] == want[order[k]] {
      assert FinishPosition(order, order[k]) == k;
    }
    InRequestOrderUndoes(rs, want, order);
  }

  /** Two items whose copies finish in reverse order: the answer still
      lists the first item first, carrying the later position. */
  lemma ReverseFinishAnswer(items: seq<TransferItem>, next: int, uuid: nat -> string, now: string, bucket: string,
                            region: string)
    requires |items| == 2
    ensures var r := TransferAnswer(items, [1, 0], next, uuid, now, bucket, region);
      r[0].seqPos == Num(next + 1) && r[1].seqPos == Num(next) &&
      r[0].fileName == items[0].fileName && r[1].fileName == items[1].fileName
  {
    var order: seq<nat> := [1, 0];
    assert FinishPosition(order, 0) == 1 && FinishPosition(order, 1) == 0;
  }

  /** `/transfer-to-playlist`. `order` lists the items in the order in
      which their uploads complete and they reach the numbering step. The
      first item's project fixes the starting position; a failure anywhere
      is a 500, after the other items' copies and pushes have happened. */
  method TransferToPlaylist(st: State, files: Option<seq<TransferItem>>, order: seq<nat>, copied: nat -> bool,
                            uuid: nat -> string, now: string, bucket: string, region: string)
    returns (outcome: TransferOutcome, st': State)
    requires files.Some? ==> FinishOrder(order, |files.value|)
    ensures outcome == TransferEmpty <==> files.None? || files.value == []
    ensures outcome == TransferEmpty ==> st' == st
    ensures outcome != TransferEmpty && FirstSeqPos(st, files.value[0]).None? ==>
      outcome == TransferFailed && st' == st
    ensures outcome != TransferEmpty && FirstSeqPos(st, files.value[0]).Some? ==>
      var r := TransferAll(Transfer(st, FirstSeqPos(st, files.value[0]).value, false, []), files.value, order,
                           copied, uuid, now, bucket, region);
      st' == r.st && (outcome == TransferFailed <==> r.failed)
    ensures outcome.TransferDone? ==>
      outcome.results == TransferAnswer(files.value, order, FirstSeqPos(st, files.value[0]).value, uuid, now, bucket, region)
  {
    if files.None? || files.value == [] {
      return TransferEmpty, st;
    }
    var start := FirstSeqPos(st, files.value[0]);
    if start.None? {
      return TransferFailed, st;
    }
    var t0 := Transfer(st, start.value, false, []);
    var t := RunTransfer(t0, files.value, order, copied, uuid, now, bucket, region);
    st' := t.st;
    if t.failed {
      return TransferFailed, st';
    }
    TransferAllSucceeded(t0, files.value, order, copied, uuid, now, bucket, region);
    TransferAnswerInRequestOrder(t.results, files.value, order, start.value, uuid, now, bucket, region);
    outcome := TransferDone(InRequestOrder(t.results, order));
  }
}
