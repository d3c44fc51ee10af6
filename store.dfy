/** The two stores a request changes: the `files` collection, one document per
    user, and the blob bucket, a set of object keys. */
module Store {
  import opened JsValues
  import Mongo

  /** A note attached to a playlist file (client/src/components/BigFile.js). */
  datatype Note = Note(note: string, uniqueId: string, createdAt: string)

  /** A file record as stored in `files`, `playlistsFile`, `renderFile` and
      `filesProgram`. The stored documents are schemaless; the fields whose
      JavaScript value matters (`undefined`, `null`, `''`, a number) are `JsVal`,
      the others are strings with `""` for a missing value. `createdAt` is an
      opaque timestamp. */
  datatype FileRecord = FileRecord(
    key: string,
    fileName: string,
    url: string,
    accessType: string,
    projectId: string,
    projectTitle: string,
    programId: string,
    fileId: string,
    createdAt: string,
    slotPosition: JsVal,
    seqPos: JsVal,
    duration: JsVal,
    frameRate: JsVal,
    resolution: JsVal,
    metadataError: JsVal,
    notes: seq<Note>)

  /** An entry of `userMeta`. A project created by `/new-save-file-keys` has
      no `mainKey`. */
  datatype Project = Project(
    mainKey: Option<string>,
    projectId: string,
    projectTitle: string,
    files: seq<FileRecord>,
    playlistsFile: seq<FileRecord>,
    renderFile: seq<FileRecord>)

  datatype Folder = Folder(filesProgram: seq<FileRecord>)

  /** An entry of `Programming`. */
  datatype Program = Program(
    mainKey: string,
    programId: string,
    programTitle: string,
    programFolder: seq<Folder>)

  /** A user's document. `userMeta` may be absent (a document created by a
      program upsert has none); an absent `Programming` behaves like an empty
      one in every route. */
  datatype UserDoc = UserDoc(userMeta: Option<seq<Project>>, programming: seq<Program>)

  /** The farmer list of the admin document used by `/add-farmer`. */
  datatype Farmer = Farmer(name: string, email: string, message: string)

  /** The whole backing state: the user documents by `userId`, the admin
      document (absent or present), and the set of object keys in the bucket. */
  datatype State = State(docs: map<string, UserDoc>, admin: Option<seq<Farmer>>, blobs: set<string>)

  /** The projects of a document, `[]` when `userMeta` is absent. */
  function Meta(d: UserDoc): seq<Project>
  {
    if d.userMeta.Some? then d.userMeta.value else []
  }

  /** The same document with its projects replaced. */
  function WithMeta(d: UserDoc, ps: seq<Project>): UserDoc
  {
    d.(userMeta := Some(ps))
  }

  /** The order in which `n` handlers started together (by `map` under
      `Promise.all`) finished: each of the positions `0 .. n - 1` once. */
  predicate FinishOrder(order: seq<nat>, n: nat)
  {
    |order| == n && (forall c :: 0 <= c < |order| ==> order[c] < n) &&
    (forall a, b :: 0 <= a < b < |order| ==> order[a] != order[b]) &&
    forall q :: 0 <= q < n ==> q in order
  }

  /** Where handler `q` is in the finishing order: the first place it occurs. */
  function FinishPosition(order: seq<nat>, q: nat): (k: nat)
    requires q in order
    ensures k < |order| && order[k] == q
    ensures forall j :: 0 <= j < k ==> order[j] != q
  {
    if order[0] == q then 0 else 1 + FinishPosition(order[1..], q)
  }

  /** `mainKey` of the projects created by `/save-file-keys`. */
  function ProjectMainKey(projectId: string): string
  {
    "projectKey-" + projectId
  }

  /** The query condition `{projectId}` on projects. */
  function WithProjectId(projectId: string): Project -> bool
  {
    (p: Project) => p.projectId == projectId
  }

  /** The query condition `{fileId}` on file records. */
  function WithFileId(fileId: string): FileRecord -> bool
  {
    (f: FileRecord) => f.fileId == fileId
  }

  /** `userMeta.find(meta => meta.projectId === projectId)` and the position
      the operator `$` picks for the query `{'userMeta.projectId': projectId}`:
      the first project with that id. */
  function ProjectIndex(d: UserDoc, projectId: string): (r: Option<nat>)
    ensures r.Some? ==> r.value < |Meta(d)| && Meta(d)[r.value].projectId == projectId
    ensures r.None? ==> forall j :: 0 <= j < |Meta(d)| ==> Meta(d)[j].projectId != projectId
  {
    Mongo.FindFirst(Meta(d), WithProjectId(projectId))
  }

  /** The playlist of the first project with `projectId` (`[]` without one). */
  function Playlist(d: UserDoc, projectId: string): seq<FileRecord>
  {
    match ProjectIndex(d, projectId)
    case None => []
    case Some(i) => Meta(d)[i].playlistsFile
  }

  /** `updateOne({userId, 'userMeta.projectId': projectId}, {... 'userMeta.$.x' ...})`:
      applies `f` to the first project with that id; no match, no change. */
  function UpdateProject(d: UserDoc, projectId: string, f: Project -> Project): UserDoc
  {
    match ProjectIndex(d, projectId)
    case None => d
    case Some(i) => WithMeta(d, Meta(d)[i := f(Meta(d)[i])])
  }

  /** The first record with the given `fileId`. */
  function FileIndex(fs: seq<FileRecord>, fileId: string): (r: Option<nat>)
    ensures r.Some? ==> r.value < |fs| && fs[r.value].fileId == fileId
    ensures r.None? ==> forall j :: 0 <= j < |fs| ==> fs[j].fileId != fileId
  {
    Mongo.FindFirst(fs, WithFileId(fileId))
  }

  /** `files.map((file, index) => ({...file, seqPos: index + 1}))`: the
      renumbering of `/save-reordered-play` and of the client's `onSave`. */
  function Renumbered(files: seq<FileRecord>): (r: seq<FileRecord>)
    ensures |r| == |files|
    ensures forall i :: 0 <= i < |files| ==> r[i].seqPos == Num(i + 1)
    ensures forall i :: 0 <= i < |files| ==> r[i].(seqPos := files[i].seqPos) == files[i]
  {
    seq(|files|, i requires 0 <= i < |files| => files[i].(seqPos := Num(i + 1)))
  }

  /** Renumbering an already renumbered list changes nothing. */
  lemma RenumberedIdempotent(files: seq<FileRecord>)
    ensures Renumbered(Renumbered(files)) == Renumbered(files)
  {
    var once := Renumbered(files);
    assert forall i :: 0 <= i < |files| ==> Renumbered(once)[i] == once[i];
  }

  /** `/^[a-z]$/.test(v)`: exactly one lower-case ASCII letter. Any value
      that is not a string converts to a text that fails the test. */
  predicate IsSlotLetter(v: JsVal)
  {
    v.Str? && |v.s| == 1 && 'a' <= v.s[0] <= 'z'
  }

  /** The slot validation of the routes: `!(slotPosition && !/^[a-z]$/.test(slotPosition))`. */
  predicate SlotValid(v: JsVal)
  {
    !Truthy(v) || IsSlotLetter(v)
  }

  /** The response of a route: the HTTP status and the `success` flag of the
      JSON body, where the route sends one (false otherwise). */
  datatype Reply = Reply(status: int, success: bool)

  function Status(code: int): Reply
  {
    Reply(code, false)
  }

  function Success(code: int): Reply
  {
    Reply(code, true)
  }
}
