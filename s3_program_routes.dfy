/** The programming routes of api/s3routes.js: `/new-save-programming-file-keys`,
    `/program-extract`, `/proGram-slot-check`, `/update-slot-prog`,
    `/update-program-order` and `/delete-program-file`. A program keeps its
    files in `programFolder[].filesProgram`; the routes that add or probe
    files use folder 0. */
module S3ProgramRoutes {
  import opened JsValues
  import opened Mongo
  import opened Store
  import Metadata

  function WithProgramId(programId: string): Program -> bool
  {
    (p: Program) => p.programId == programId
  }

  function WithProgramTitle(title: string): Program -> bool
  {
    (p: Program) => p.programTitle == title
  }

  /** The first program with `programId` (`Programming.find`, and the `$`
      of the query `{'Programming.programId': programId}`). */
  function ProgramIndex(d: UserDoc, programId: string): (r: Option<nat>)
    ensures r.Some? ==> r.value < |d.programming| && d.programming[r.value].programId == programId
    ensures r.None? ==> forall j :: 0 <= j < |d.programming| ==> d.programming[j].programId != programId
  {
    FindFirst(d.programming, WithProgramId(programId))
  }

  /** The files of folder 0 of a program, `[]` when it has no folder. */
  function Folder0(p: Program): seq<FileRecord>
  {
    if p.programFolder == [] then [] else p.programFolder[0].filesProgram
  }

  /** Folder 0 of the program at index `i` replaced by `files`. */
  function SetFolder0(d: UserDoc, i: nat, files: seq<FileRecord>): UserDoc
    requires i < |d.programming| && d.programming[i].programFolder != []
  {
    var p := d.programming[i];
    d.(programming := d.programming[i := p.(programFolder := p.programFolder[0 := Folder(files)])])
  }

  // ------------------------------------------ /new-save-programming-file-keys

  /** `{...file, accessType, programId, fileId: file.fileId || uuidv4(), seqPos, createdAt}`. */
  function ProgramDocument(f: FileRecord, accessType: string, programId: string, seqPos: int,
                           uuid: string, now: string): (g: FileRecord)
    ensures g.seqPos == Num(seqPos) && g.programId == programId && g.accessType == accessType
    ensures g.fileId == (if f.fileId != "" then f.fileId else uuid)
    ensures g.key == f.key && g.fileName == f.fileName && g.slotPosition == f.slotPosition
  {
    f.(accessType := accessType, programId := programId, fileId := if f.fileId != "" then f.fileId else uuid,
       seqPos := Num(seqPos), createdAt := now)
  }

  /** The batch numbered from `base + 1` on. */
  function ProgramDocuments(files: seq<FileRecord>, accessType: string, programId: string, base: nat,
                            uuid: nat -> string, now: string): (gs: seq<FileRecord>)
    ensures |gs| == |files|
    ensures forall i :: 0 <= i < |files| ==>
      gs[i] == ProgramDocument(files[i], accessType, programId, base + i + 1, uuid(i), now)
  {
    seq(|files|, i requires 0 <= i < |files| => ProgramDocument(files[i], accessType, programId, base + i + 1, uuid(i), now))
  }

  datatype SaveProgramOutcome =
    | SaveProgramMissing      // 400
    | SaveProgramBroken       // 500: the existing program has no folder 0
    | SaveProgramNotModified  // 404: nothing modified (an empty batch, or a document created by the upsert)
    | SaveProgramAppended     // 200
    | SaveProgramCreated      // 200

  /** The handler. An existing program is found by title and its folder 0
      continues after its current length; otherwise a new program with the
      key `programKey-{uuid}` is pushed, creating the document if needed
      (the driver then reports no modified document, hence 404). */
  function NewSaveProgrammingFileKeys(st: State, files: Option<seq<FileRecord>>, accessType: string, userId: string,
                                      programId: string, programTitle: string, uuid: nat -> string,
                                      mainUuid: string, now: string): (r: (SaveProgramOutcome, State))
    ensures r.0 == SaveProgramMissing <==> files.None? || userId == "" || programId == "" || programTitle == ""
    ensures r.0 == SaveProgramBroken <==>
      !(files.None? || userId == "" || programId == "" || programTitle == "") && userId in st.docs &&
      FindFirst(st.docs[userId].programming, WithProgramTitle(programTitle)).Some? &&
      st.docs[userId].programming[FindFirst(st.docs[userId].programming, WithProgramTitle(programTitle)).value]
        .programFolder == []
    ensures r.0 == SaveProgramNotModified && r.1 == st <==>
      !(files.None? || userId == "" || programId == "" || programTitle == "") && userId in st.docs &&
      FindFirst(st.docs[userId].programming, WithProgramTitle(programTitle)).Some? &&
      st.docs[userId].programming[FindFirst(st.docs[userId].programming, WithProgramTitle(programTitle)).value]
        .programFolder != [] &&
      files.value == []
    ensures r.0 == SaveProgramAppended <==>
      !(files.None? || userId == "" || programId == "" || programTitle == "") && userId in st.docs &&
      FindFirst(st.docs[userId].programming, WithProgramTitle(programTitle)).Some? &&
      st.docs[userId].programming[FindFirst(st.docs[userId].programming, WithProgramTitle(programTitle)).value]
        .programFolder != [] &&
      files.value != []
    ensures r.0 == SaveProgramCreated <==>
      !(files.None? || userId == "" || programId == "" || programTitle == "") && userId in st.docs &&
      FindFirst(st.docs[userId].programming, WithProgramTitle(programTitle)).None?
    ensures r.0 == SaveProgramNotModified && r.1 != st <==>
      !(files.None? || userId == "" || programId == "" || programTitle == "") && userId !in st.docs
    ensures r.0 in {SaveProgramMissing, SaveProgramBroken} ==> r.1 == st
    ensures r.0 == SaveProgramAppended ==>
      files.Some? && userId in st.docs && FindFirst(st.docs[userId].programming, WithProgramTitle(programTitle)).Some?
    ensures r.0 == SaveProgramAppended && files.Some? && userId in st.docs &&
            FindFirst(st.docs[userId].programming, WithProgramTitle(programTitle)).Some? ==>
      var d := st.docs[userId];
      var i := FindFirst(d.programming, WithProgramTitle(programTitle)).value;
      var base := |Folder0(d.programming[i])|;
      d.programming[i].programFolder != [] && files.value != [] &&
      r.1 == st.(docs := st.docs[userId := SetFolder0(d, i,
                   Folder0(d.programming[i]) + ProgramDocuments(files.value, accessType, programId, base, uuid, now))])
    ensures r.0 == SaveProgramCreated || (r.0 == SaveProgramNotModified && r.1 != st) ==> files.Some?
    ensures files.Some? && (r.0 == SaveProgramCreated || (r.0 == SaveProgramNotModified && r.1 != st)) ==>
      var p := Program("programKey-" + mainUuid, programId, programTitle,
                       [Folder(ProgramDocuments(files.value, accessType, programId, 0, uuid, now))]);
      (userId !in st.docs || FindFirst(st.docs[userId].programming, WithProgramTitle(programTitle)).None?) &&
      (r.0 == SaveProgramCreated <==> userId in st.docs) &&
      r.1 == st.(docs := st.docs[userId := if userId in st.docs
                                          then st.docs[userId].(programming := st.docs[userId].programming + [p])
                                          else UserDoc(None, [p])])
  {
    if files.None? || userId == "" || programId == "" || programTitle == "" then (SaveProgramMissing, st)
    else
      var d := if userId in st.docs then st.docs[userId] else UserDoc(None, []);
      match FindFirst(d.programming, WithProgramTitle(programTitle))
      case Some(i) =>
        if d.programming[i].programFolder == [] then (SaveProgramBroken, st)
        else if files.value == [] then (SaveProgramNotModified, st)
        else
          var base := |Folder0(d.programming[i])|;
          var newFiles := ProgramDocuments(files.value, accessType, programId, base, uuid, now);
          (SaveProgramAppended, st.(docs := st.docs[userId := SetFolder0(d, i, Folder0(d.programming[i]) + newFiles)]))
      case None =>
        var p := Program("programKey-" + mainUuid, programId, programTitle,
                         [Folder(ProgramDocuments(files.value, accessType, programId, 0, uuid, now))]);
        if userId in st.docs then
          (SaveProgramCreated, st.(docs := st.docs[userId := d.(programming := d.programming + [p])]))
        else
          (SaveProgramNotModified, st.(docs := st.docs[userId := UserDoc(None, [p])]))
  }

  /** Numbered 1..n: every `seqPos` is its 1-based position. */
  predicate Numbered(fs: seq<FileRecord>)
  {
    forall k :: 0 <= k < |fs| ==> fs[k].seqPos == Num(k + 1)
  }

  /** Appending to a program whose folder 0 is numbered 1..n keeps it
      numbered: the batch continues at n + 1. */
  lemma ProgramAppendContinues(existing: seq<FileRecord>, files: seq<FileRecord>, accessType: string,
                               programId: string, uuid: nat -> string, now: string)
    requires Numbered(existing)
    ensures Numbered(existing + ProgramDocuments(files, accessType, programId, |existing|, uuid, now))
  {
  }

  // ------------------------------------------------------- /program-extract

  datatype ProgramExtractOutcome = ProgramExtractMissing | ProgramExtractNotFound | ProgramExtractBadKey
                                 | ProgramExtractUnchanged | ProgramExtractDone(files: seq<FileRecord>)

  /** The program `/program-extract` works on exists and has a folder 0. */
  predicate ProgramFound(st: State, userId: string, programId: string)
  {
    userId != "" && programId != "" && userId in st.docs &&
    ProgramIndex(st.docs[userId], programId).Some? &&
    st.docs[userId].programming[ProgramIndex(st.docs[userId], programId).value].programFolder != []
  }

  /** The document after the metadata pass over folder 0 of that program. */
  function ProgramExtracted(st: State, userId: string, programId: string, probe: nat -> Metadata.FileProbe): UserDoc
    requires ProgramFound(st, userId, programId)
  {
    var d := st.docs[userId];
    var i := ProgramIndex(d, programId).value;
    SetFolder0(d, i, Metadata.ExtractList(Folder0(d.programming[i]), probe, true))
  }

  /** `/program-extract`: the metadata pass over folder 0 of the first
      program with `programId`, with `slotPosition || null`; a write that
      changes nothing is answered 404. */
  method ProgramExtract(st: State, userId: string, programId: string,
                        decode: string -> Option<string>, probe: nat -> Metadata.FileProbe)
    returns (outcome: ProgramExtractOutcome, st': State)
    ensures outcome == ProgramExtractMissing <==> userId == "" || programId == ""
    ensures !outcome.ProgramExtractDone? ==> st' == st
    ensures outcome == ProgramExtractNotFound <==>
      userId != "" && programId != "" &&
      (userId !in st.docs || ProgramIndex(st.docs[userId], programId).None? ||
       st.docs[userId].programming[ProgramIndex(st.docs[userId], programId).value].programFolder == [])
    ensures outcome == ProgramExtractBadKey <==>
      ProgramFound(st, userId, programId) &&
      !Metadata.AllKeysDecode(Folder0(st.docs[userId].programming[ProgramIndex(st.docs[userId], programId).value]), decode)
    ensures outcome == ProgramExtractUnchanged || outcome.ProgramExtractDone? ==>
      ProgramFound(st, userId, programId) &&
      Metadata.AllKeysDecode(Folder0(st.docs[userId].programming[ProgramIndex(st.docs[userId], programId).value]), decode)
    ensures outcome == ProgramExtractUnchanged <==>
      ProgramFound(st, userId, programId) &&
      Metadata.AllKeysDecode(Folder0(st.docs[userId].programming[ProgramIndex(st.docs[userId], programId).value]), decode) &&
      ProgramExtracted(st, userId, programId, probe) == st.docs[userId]
    ensures outcome.ProgramExtractDone? <==>
      ProgramFound(st, userId, programId) &&
      Metadata.AllKeysDecode(Folder0(st.docs[userId].programming[ProgramIndex(st.docs[userId], programId).value]), decode) &&
      ProgramExtracted(st, userId, programId, probe) != st.docs[userId]
    ensures outcome.ProgramExtractDone? ==>
      var d := st.docs[userId];
      var i := ProgramIndex(d, programId).value;
      d.programming[i].programFolder != [] &&
      outcome.files == Metadata.ExtractList(Folder0(d.programming[i]), probe, true) &&
      SetFolder0(d, i, outcome.files) != d &&
      st' == st.(docs := st.docs[userId := SetFolder0(d, i, outcome.files)])
  {
    if userId == "" || programId == "" {
      return ProgramExtractMissing, st;
    }
    if userId !in st.docs {
      return ProgramExtractNotFound, st;
    }
    var d := st.docs[userId];
    var pi := ProgramIndex(d, programId);
    if pi.None? || d.programming[pi.value].programFolder == [] {
      return ProgramExtractNotFound, st;
    }
    var files := Folder0(d.programming[pi.value]);
    var extracted := Metadata.ExtractChecked(files, decode, probe, true);
    if extracted.None? {
      return ProgramExtractBadKey, st;
    }
    var d' := SetFolder0(d, pi.value, extracted.value);
    if d' == d {
      return ProgramExtractUnchanged, st;
    }
    return ProgramExtractDone(extracted.value), st.(docs := st.docs[userId := d']);
  }

  // ---------------------------------------------------- /proGram-slot-check

  /** Some folder of some program with `programId` holds a file whose slot
      is strictly equal to `slot` and whose id differs from `fileId`. */
  predicate ProgramSlotTaken(d: UserDoc, programId: string, fileId: string, slot: JsVal)
  {
    exists i, j, k :: 0 <= i < |d.programming| && d.programming[i].programId == programId &&
                      0 <= j < |d.programming[i].programFolder| &&
                      0 <= k < |d.programming[i].programFolder[j].filesProgram| &&
                      StrictEq(d.programming[i].programFolder[j].filesProgram[k].slotPosition, slot) &&
                      d.programming[i].programFolder[j].filesProgram[k].fileId != fileId
  }

  /** `/proGram-slot-check`: 400 for an invalid slot or a duplicate; a user
      without a program with that id always passes. */
  function ProgramSlotCheck(st: State, userId: string, programId: string, fileId: string, slot: JsVal): (r: Reply)
    ensures r.success <==>
      SlotValid(slot) &&
      (userId !in st.docs || ProgramIndex(st.docs[userId], programId).None? ||
       !ProgramSlotTaken(st.docs[userId], programId, fileId, slot))
    ensures r.status == (if r.success then 200 else 400)
  {
    if !SlotValid(slot) then Status(400)
    else if userId !in st.docs || ProgramIndex(st.docs[userId], programId).None? then Success(200)
    else if ProgramSlotTaken(st.docs[userId], programId, fileId, slot) then Status(400)
    else Success(200)
  }

  /** The empty slot is not exempt: two files of a program that both have
      `''` make the check fail for either of them. */
  lemma EmptySlotNotExempt(st: State, userId: string, programId: string, fileId: string, i: nat, j: nat, k: nat)
    requires userId in st.docs
    requires var d := st.docs[userId];
      i < |d.programming| && d.programming[i].programId == programId &&
      j < |d.programming[i].programFolder| && k < |d.programming[i].programFolder[j].filesProgram| &&
      d.programming[i].programFolder[j].filesProgram[k].slotPosition == Str("") &&
      d.programming[i].programFolder[j].filesProgram[k].fileId != fileId
    ensures !ProgramSlotCheck(st, userId, programId, fileId, Str("")).success
  {
  }

  // ------------------------------------------------------ /update-slot-prog

  /** The match of `{userId, 'Programming.programId': p, 'Programming.programFolder.filesProgram.fileId': f}`:
      the two conditions may be met by different programs. */
  predicate HasProgramAndFile(d: UserDoc, programId: string, fileId: string)
  {
    (exists i :: 0 <= i < |d.programming| && d.programming[i].programId == programId) &&
    (exists i, j, k :: 0 <= i < |d.programming| && 0 <= j < |d.programming[i].programFolder| &&
                       0 <= k < |d.programming[i].programFolder[j].filesProgram| &&
                       d.programming[i].programFolder[j].filesProgram[k].fileId == fileId)
  }

  /** A folder with a file of that id (`'folder.filesProgram.fileId': fileId`). */
  function FolderHasFile(fileId: string): Folder -> bool
  {
    (f: Folder) => exists k :: 0 <= k < |f.filesProgram| && f.filesProgram[k].fileId == fileId
  }

  function SlotTo(v: JsVal): FileRecord -> FileRecord
  {
    (f: FileRecord) => f.(slotPosition := v)
  }

  function FolderSlot(fileId: string, v: JsVal): Folder -> Folder
  {
    (f: Folder) => Folder(UpdateWhere(f.filesProgram, WithFileId(fileId), SlotTo(v)))
  }

  function ProgramSlot(fileId: string, v: JsVal): Program -> Program
  {
    (p: Program) => p.(programFolder := UpdateWhere(p.programFolder, FolderHasFile(fileId), FolderSlot(fileId, v)))
  }

  /** The three `arrayFilters` of the write. */
  function SetProgramSlot(d: UserDoc, programId: string, fileId: string, v: JsVal): UserDoc
  {
    d.(programming := UpdateWhere(d.programming, WithProgramId(programId), ProgramSlot(fileId, v)))
  }

  /** The stored form of the request value: BSON has no `undefined`, the
      driver writes it as `null`. */
  function Stored(v: JsVal): (r: JsVal)
    ensures r != Undef && (v != Undef ==> r == v)
  {
    if v == Undef then Null else v
  }

  datatype UpdateSlotProgOutcome = ProgSlotInvalid | ProgSlotFileNotFound | ProgSlotNotUpdated | ProgSlotUpdated

  /** `/update-slot-prog`: no duplicate check here (the client asks
      `/proGram-slot-check` first) and no `|| ''` default. */
  function UpdateSlotProg(st: State, userId: string, programId: string, fileId: string, slot: JsVal)
    : (r: (UpdateSlotProgOutcome, State))
    ensures r.0 == ProgSlotInvalid <==> !SlotValid(slot)
    ensures r.0 == ProgSlotFileNotFound <==>
      SlotValid(slot) && (userId !in st.docs || !HasProgramAndFile(st.docs[userId], programId, fileId))
    ensures r.0 == ProgSlotNotUpdated <==>
      SlotValid(slot) && userId in st.docs && HasProgramAndFile(st.docs[userId], programId, fileId) &&
      SetProgramSlot(st.docs[userId], programId, fileId, Stored(slot)) == st.docs[userId]
    ensures r.0 != ProgSlotUpdated ==> r.1 == st
    ensures r.0 == ProgSlotUpdated ==>
      var d' := SetProgramSlot(st.docs[userId], programId, fileId, Stored(slot));
      d' != st.docs[userId] && r.1 == st.(docs := st.docs[userId := d'])
  {
    if !SlotValid(slot) then (ProgSlotInvalid, st)
    else if userId !in st.docs || !HasProgramAndFile(st.docs[userId], programId, fileId) then (ProgSlotFileNotFound, st)
    else
      var d' := SetProgramSlot(st.docs[userId], programId, fileId, Stored(slot));
      if d' == st.docs[userId] then (ProgSlotNotUpdated, st)
      else (ProgSlotUpdated, st.(docs := st.docs[userId := d']))
  }

  /** The write gives the slot to exactly the files with `fileId` in the
      programs with `programId`; every other file keeps its slot. */
  lemma SetProgramSlotEffect(d: UserDoc, programId: string, fileId: string, v: JsVal, i: nat, j: nat, k: nat)
    requires i < |d.programming| && j < |d.programming[i].programFolder| &&
             k < |d.programming[i].programFolder[j].filesProgram|
    ensures var d' := SetProgramSlot(d, programId, fileId, v);
      var f := d.programming[i].programFolder[j].filesProgram[k];
      |d'.programming| == |d.programming| && |d'.programming[i].programFolder| == |d.programming[i].programFolder| &&
      |d'.programming[i].programFolder[j].filesProgram| == |d.programming[i].programFolder[j].filesProgram| &&
      d'.programming[i].programFolder[j].filesProgram[k] ==
        (if d.programming[i].programId == programId && f.fileId == fileId then f.(slotPosition := v) else f)
  {
    var p := d.programming[i];
    if p.programId == programId && p.programFolder[j].filesProgram[k].fileId == fileId {
      assert FolderHasFile(fileId)(p.programFolder[j]);
    }
  }

  // -------------------------------------------------- /update-program-order

  datatype OrderOutcome = OrderUserNotFound | OrderMissing | OrderSaved
                        | OrderSavedWithNull(stored: seq<Option<Program>>)

  /** `Programming.find(p => p.programId === id)`: the first program with
      that id, or `None` (`undefined`) when there is none. */
  function ProgramById(programs: seq<Program>, id: string): (r: Option<Program>)
    ensures r.Some? <==> HasProgramId(programs, id)
    ensures r.Some? ==> r.value.programId == id && r.value in programs
    ensures r.Some? ==> forall i :: 0 <= i < |programs| && programs[i] != r.value ==>
      programs[i].programId != id || exists j :: 0 <= j < i && programs[j] == r.value
  {
    match FindFirst(programs, WithProgramId(id))
    case None => None
    case Some(i) => Some(programs[i])
  }

  /** `programOrder.map(id => Programming.find(p => p.programId === id))`:
      one entry per id, `None` where no program has the id (the driver
      stores it as `null`). */
  function Reordered(programs: seq<Program>, order: seq<string>): (r: seq<Option<Program>>)
    ensures |r| == |order|
    ensures forall k :: 0 <= k < |order| ==> r[k] == ProgramById(programs, order[k])
  {
    seq(|order|, k requires 0 <= k < |order| => ProgramById(programs, order[k]))
  }

  /** Some program has the id. */
  predicate HasProgramId(programs: seq<Program>, id: string)
  {
    exists i :: 0 <= i < |programs| && programs[i].programId == id
  }

  /** Every id of the order names some program. */
  predicate AllIdsFound(programs: seq<Program>, order: seq<string>)
  {
    forall k :: 0 <= k < |order| ==> HasProgramId(programs, order[k])
  }

  /** The programs of a list without holes. */
  function Unwrapped(r: seq<Option<Program>>): (ps: seq<Program>)
    requires forall k :: 0 <= k < |r| ==> r[k].Some?
    ensures |ps| == |r| && forall k :: 0 <= k < |r| ==> r[k] == Some(ps[k])
  {
    seq(|r|, k requires 0 <= k < |r| => r[k].value)
  }

  /** `/update-program-order`: the write's result is not checked. A missing
      `programOrder` throws (500). An id that finds no program leaves a
      `null` in the stored array; the document here cannot hold one, so
      that write is reported in the outcome. */
  function UpdateProgramOrder(st: State, userId: string, programOrder: Option<seq<string>>): (r: (OrderOutcome, State))
    ensures r.0 == OrderUserNotFound <==> userId !in st.docs
    ensures r.0 == OrderMissing <==> userId in st.docs && programOrder.None?
    ensures r.0 == OrderSaved <==>
      userId in st.docs && programOrder.Some? && AllIdsFound(st.docs[userId].programming, programOrder.value)
    ensures r.0 != OrderSaved ==> r.1 == st
    ensures r.0 == OrderSaved ==>
      userId in st.docs && userId in r.1.docs && programOrder.Some? &&
      var ps := st.docs[userId].programming;
      var ps' := r.1.docs[userId].programming;
      |ps'| == |programOrder.value| &&
      (forall k :: 0 <= k < |ps'| ==>
         ps'[k].programId == programOrder.value[k] && ps'[k] in ps &&
         ProgramById(ps, programOrder.value[k]) == Some(ps'[k])) &&
      r.1 == st.(docs := st.docs[userId := st.docs[userId].(programming := ps')])
    ensures r.0.OrderSavedWithNull? ==>
      userId in st.docs && programOrder.Some? &&
      r.0.stored == Reordered(st.docs[userId].programming, programOrder.value) &&
      exists k :: 0 <= k < |r.0.stored| && r.0.stored[k].None?
  {
    if userId !in st.docs then (OrderUserNotFound, st)
    else if programOrder.None? then (OrderMissing, st)
    else
      var d := st.docs[userId];
      var stored := Reordered(d.programming, programOrder.value);
      if AllIdsFound(d.programming, programOrder.value) then
        assert forall k :: 0 <= k < |stored| ==> stored[k] == ProgramById(d.programming, programOrder.value[k]);
        (OrderSaved, st.(docs := st.docs[userId := d.(programming := Unwrapped(stored))]))
      else
        var k :| 0 <= k < |programOrder.value| && !HasProgramId(d.programming, programOrder.value[k]);
        assert stored[k].None?;
        (OrderSavedWithNull(stored), st)
  }

  /** The ids of the programs, in order. */
  function ProgramIds(programs: seq<Program>): (ids: seq<string>)
    ensures |ids| == |programs| && forall k :: 0 <= k < |programs| ==> ids[k] == programs[k].programId
  {
    seq(|programs|, k requires 0 <= k < |programs| => programs[k].programId)
  }

  /** Sending back the current order (what drag-end sends when nothing
      moved) leaves the programs as they are, provided their ids differ. */
  lemma ReorderedByOwnIds(programs: seq<Program>)
    requires forall a, b :: 0 <= a < b < |programs| ==> programs[a].programId != programs[b].programId
    ensures AllIdsFound(programs, ProgramIds(programs))
    ensures var r := Reordered(programs, ProgramIds(programs));
      (forall k :: 0 <= k < |r| ==> r[k].Some?) && Unwrapped(r) == programs
  {
    var ids := ProgramIds(programs);
    var r := Reordered(programs, ids);
    forall k | 0 <= k < |ids| ensures r[k] == Some(programs[k]) {
      DistinctIdFound(programs, k);
    }
    forall k | 0 <= k < |ids| ensures HasProgramId(programs, ids[k]) {
      assert programs[k].programId == ids[k];
    }
    assert Unwrapped(r) == programs;
  }

  /** With distinct ids, looking up the id of program `k` finds `k`. */
  lemma DistinctIdFound(programs: seq<Program>, k: nat)
    requires forall a, b :: 0 <= a < b < |programs| ==> programs[a].programId != programs[b].programId
    requires k < |programs|
    ensures FindFirst(programs, WithProgramId(programs[k].programId)) == Some(k)
  {
    var p := WithProgramId(programs[k].programId);
    assert p(programs[k]);
    var f := FindFirst(programs, p);
    assert f.Some?;
    assert p(programs[f.value]);
  }

  // --------------------------------------------------- /delete-program-file

  /** The first file with `fileId` among the given folders. */
  function FolderFind(folders: seq<Folder>, fileId: string): (r: Option<FileRecord>)
  {
    if folders == [] then None
    else match FindFirst(folders[0].filesProgram, WithFileId(fileId))
      case Some(k) => Some(folders[0].filesProgram[k])
      case None => FolderFind(folders[1..], fileId)
  }

  /** The first file with `fileId` in the programs with `programId`, in
      program, folder and file order: what the handler's nested loop finds. */
  function ProgramFind(programs: seq<Program>, programId: string, fileId: string): (r: Option<FileRecord>)
  {
    if programs == [] then None
    else if programs[0].programId == programId && FolderFind(programs[0].programFolder, fileId).Some? then
      FolderFind(programs[0].programFolder, fileId)
    else ProgramFind(programs[1..], programId, fileId)
  }

  /** The inner search loop of the handler, over the folders of one program. */
  method FindInFolders(folders: seq<Folder>, fileId: string) returns (found: Option<FileRecord>)
    ensures found == FolderFind(folders, fileId)
  {
    var j := 0;
    while j < |folders|
      invariant 0 <= j <= |folders|
      invariant FolderFind(folders, fileId) == FolderFind(folders[j..], fileId)
    {
      var k := FindFirst(folders[j].filesProgram, WithFileId(fileId));
      if k.Some? {
        return Some(folders[j].filesProgram[k.value]);
      }
      assert folders[j..][1..] == folders[j + 1..];
      j := j + 1;
    }
    return None;
  }

  /** The search loop of the handler. */
  method FindFileToDelete(programs: seq<Program>, programId: string, fileId: string) returns (found: Option<FileRecord>)
    ensures found == ProgramFind(programs, programId, fileId)
  {
    var i := 0;
    while i < |programs|
      invariant 0 <= i <= |programs|
      invariant ProgramFind(programs, programId, fileId) == ProgramFind(programs[i..], programId, fileId)
    {
      if programs[i].programId == programId {
        found := FindInFolders(programs[i].programFolder, fileId);
        if found.Some? {
          return;
        }
      }
      assert programs[i..][1..] == programs[i + 1..];
      i := i + 1;
    }
    return None;
  }

  function PullFromFolder(fileId: string): Folder -> Folder
  {
    (f: Folder) => Folder(Pull(f.filesProgram, WithFileId(fileId)))
  }

  function PullFromProgram(fileId: string): Program -> Program
  {
    (p: Program) => p.(programFolder := UpdateWhere(p.programFolder, (f: Folder) => true, PullFromFolder(fileId)))
  }

  /** `$pull: {'Programming.$[].programFolder.$[].filesProgram': {fileId}}`:
      every folder of every program of the document, whatever its id. */
  function PullEverywhere(d: UserDoc, fileId: string): UserDoc
  {
    d.(programming := UpdateWhere(d.programming, (p: Program) => true, PullFromProgram(fileId)))
  }

  datatype DeleteProgramFileOutcome =
    | DeleteProgramFileMissing      // 400
    | DeleteProgramFileNotFound     // 404
    | DeleteProgramFileBlobFailed   // 500: the record is gone, the object stays
    | DeleteProgramFileDone         // 200

  /** `/delete-program-file`: metadata first, then the object; a failed
      object delete is reported but not compensated. */
  method DeleteProgramFile(st: State, userId: string, programId: string, fileId: string, blobDeleted: bool)
    returns (outcome: DeleteProgramFileOutcome, st': State)
    ensures outcome == DeleteProgramFileMissing <==> userId == "" || programId == "" || fileId == ""
    ensures outcome in {DeleteProgramFileMissing, DeleteProgramFileNotFound} ==> st' == st
    ensures outcome in {DeleteProgramFileBlobFailed, DeleteProgramFileDone} ==> userId in st.docs
    ensures outcome in {DeleteProgramFileBlobFailed, DeleteProgramFileDone} && userId in st.docs ==>
      var d := st.docs[userId];
      var file := ProgramFind(d.programming, programId, fileId);
      file.Some? && PullEverywhere(d, fileId) != d &&
      st'.docs == st.docs[userId := PullEverywhere(d, fileId)] &&
      (outcome == DeleteProgramFileDone <==> blobDeleted) &&
      st'.blobs == (if blobDeleted then st.blobs - {file.value.key} else st.blobs)
    ensures outcome == DeleteProgramFileNotFound ==>
      userId !in st.docs || ProgramFind(st.docs[userId].programming, programId, fileId).None? ||
      PullEverywhere(st.docs[userId], fileId) == st.docs[userId]
  {
    if userId == "" || programId == "" || fileId == "" {
      return DeleteProgramFileMissing, st;
    }
    if userId !in st.docs {
      return DeleteProgramFileNotFound, st;
    }
    var d := st.docs[userId];
    var fileToDelete := FindFileToDelete(d.programming, programId, fileId);
    if fileToDelete.None? {
      return DeleteProgramFileNotFound, st;
    }
    var s3Key := fileToDelete.value.key;
    var d' := PullEverywhere(d, fileId);
    if d' == d {
      return DeleteProgramFileNotFound, st;
    }
    if !blobDeleted {
      return DeleteProgramFileBlobFailed, State(st.docs[userId := d'], st.admin, st.blobs);
    }
    return DeleteProgramFileDone, State(st.docs[userId := d'], st.admin, st.blobs - {s3Key});
  }

  /** What `FolderFind` returns has the id and sits in one of the folders. */
  lemma {:induction false} FolderFindFound(folders: seq<Folder>, fileId: string)
    requires FolderFind(folders, fileId).Some?
    ensures exists j, k :: 0 <= j < |folders| && 0 <= k < |folders[j].filesProgram| &&
                           folders[j].filesProgram[k] == FolderFind(folders, fileId).value &&
                           folders[j].filesProgram[k].fileId == fileId
  {
    match FindFirst(folders[0].filesProgram, WithFileId(fileId))
    case Some(k) =>
      assert folders[0].filesProgram[k].fileId == fileId;
    case None =>
      FolderFindFound(folders[1..], fileId);
      var j, k :| 0 <= j < |folders[1..]| && 0 <= k < |folders[1..][j].filesProgram| &&
                  folders[1..][j].filesProgram[k] == FolderFind(folders[1..], fileId).value &&
                  folders[1..][j].filesProgram[k].fileId == fileId;
      assert folders[j + 1] == folders[1..][j];
  }

  /** What `ProgramFind` returns has the id and sits in some folder of some
      program with `programId`. */
  lemma {:induction false} ProgramFindFound(programs: seq<Program>, programId: string, fileId: string)
    requires ProgramFind(programs, programId, fileId).Some?
    ensures exists i, j, k :: 0 <= i < |programs| && programs[i].programId == programId &&
                              0 <= j < |programs[i].programFolder| &&
                              0 <= k < |programs[i].programFolder[j].filesProgram| &&
                              programs[i].programFolder[j].filesProgram[k].fileId == fileId
  {
    if programs[0].programId == programId && FolderFind(programs[0].programFolder, fileId).Some? {
      FolderFindFound(programs[0].programFolder, fileId);
      var j, k :| 0 <= j < |programs[0].programFolder| && 0 <= k < |programs[0].programFolder[j].filesProgram| &&
                  programs[0].programFolder[j].filesProgram[k].fileId == fileId;
      assert programs[0].programFolder[j].filesProgram[k].fileId == fileId;
    } else {
      ProgramFindFound(programs[1..], programId, fileId);
      var i, j, k :| 0 <= i < |programs[1..]| && programs[1..][i].programId == programId &&
                     0 <= j < |programs[1..][i].programFolder| &&
                     0 <= k < |programs[1..][i].programFolder[j].filesProgram| &&
                     programs[1..][i].programFolder[j].filesProgram[k].fileId == fileId;
      assert programs[i + 1] == programs[1..][i];
    }
  }

  /** After the pull no folder of any program holds the id, in the programs
      with `programId` or in any other. */
  lemma PullEverywhereRemoves(d: UserDoc, fileId: string, i: nat, j: nat, k: nat)
    requires var d' := PullEverywhere(d, fileId);
      i < |d'.programming| && j < |d'.programming[i].programFolder| && k < |d'.programming[i].programFolder[j].filesProgram|
    ensures PullEverywhere(d, fileId).programming[i].programFolder[j].filesProgram[k].fileId != fileId
  {
    var p := d.programming[i];
    assert PullEverywhere(d, fileId).programming[i] == PullFromProgram(fileId)(p);
    PullRemovesAll(p.programFolder[j].filesProgram, WithFileId(fileId));
  }

  /** A file found by the search is removed by the pull, so the write always
      changes the document and the 404 after it is never taken. */
  lemma FoundFileIsPulled(d: UserDoc, programId: string, fileId: string)
    requires ProgramFind(d.programming, programId, fileId).Some?
    ensures PullEverywhere(d, fileId) != d
  {
    ProgramFindFound(d.programming, programId, fileId);
    var i, j, k :| 0 <= i < |d.programming| && d.programming[i].programId == programId &&
                   0 <= j < |d.programming[i].programFolder| &&
                   0 <= k < |d.programming[i].programFolder[j].filesProgram| &&
                   d.programming[i].programFolder[j].filesProgram[k].fileId == fileId;
    var fs := d.programming[i].programFolder[j].filesProgram;
    var d' := PullEverywhere(d, fileId);
    assert d'.programming[i] == PullFromProgram(fileId)(d.programming[i]);
    assert d'.programming[i].programFolder[j] == PullFromFolder(fileId)(d.programming[i].programFolder[j]);
    PullPartition(fs, WithFileId(fileId));
    KeepKeeps(fs, WithFileId(fileId), fs[k]);
    assert |d'.programming[i].programFolder[j].filesProgram| < |fs|;
  }
}
