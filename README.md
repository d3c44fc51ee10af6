# Farmhand media projects, modelled in Dafny

Farmhand lets a user upload media files into projects. The user then arranges
them into playlists with ordered positions (`seqPos`) and one-letter slots
(`slotPosition`), and collects programs of slotted files. A program can be
applied to playlists, and a playlist can be packaged into a zip or rendered
into a single video. Two stores must stay in step:

- the per-user metadata document. `userMeta` holds projects with `files`,
  `playlistsFile` and `renderFile`; `Programming` holds programs with
  `programFolder[].filesProgram`;
- the object bucket.

The model keeps these stores as a `State`: a map from user id to `UserDoc`,
the admin document, and the set of object keys (`Store`).

Every external effect is an input:
- how each bucket call ended;
- the ffprobe/ffmpeg results;
- `decodeURIComponent` and `encodeURI`;
- fresh UUIDs and timestamps;
- the server's reply as seen by a client.

The MongoDB update operators are small functions on sequences (`Mongo`):
- `$push` appends;
- `$pull` removes every match (`Pull`);
- the positional `$` rewrites the first match (`UpdateFirst`, `ProjectIndex`);
- `$[]` and `arrayFilters` rewrite every match (`UpdateWhere`).

The model code is organised in the system's own layers:

- **Route handlers** of the Express server (`api/s3routes.js`,
  `api/fileRoutes.js`) and the Flask render route (`api/app.py`).
  - A handler without a loop is a function returning an outcome and the new
    state; the outcome is which branch answered, and so the status.
  - A handler with a loop is a method whose loop is proved against a fold
    function. The properties are lemmas about that function.
  - Strict `===`, `||` defaulting and truthiness of `undefined`, `null`, `''`
    and `0` are kept through `JsValues.JsVal`.
- **React components** of the client.
  - Each component is a class whose fields are its state hooks.
  - Each handler is a method that states the component's whole new state, the
    request it sends (if any) and the alert it shows.
  - The server's answer and every thrown exception are parameters. The
    decisions a handler makes are value functions with their own contracts,
    so that the method only ties the new state to them.
- **Shared helpers.** The string operations the code uses (`trim`,
  `replace(/\s+/g, '_')`, the sanitisers, `toLowerCase`, `path.basename`,
  `padStart`), list moves and selection toggles are functions with lemmas.
  Whitespace is the character set of JavaScript's `\s` and `trim`
  (`Strings.Spaces`), and a `.length` checked against 180 counts UTF-16
  code units (`Strings.Utf16Length`).

Delete policies differ from route to route, and the model states each one as
the code has it:

| route | policy |
|---|---|
| `/delete-play` | pulls the record, then deletes the object; if the delete throws, it pushes the record back at the end of the playlist |
| `/delete-file` | ignores a failed object delete, so the object may outlive its record |
| `/delete-program-file` | answers 500 after a failed object delete, without putting the record back |
| `/delete-project` | deletes the objects one by one, carries on past failures, then removes every project with the `mainKey` |

Where a branch of the code cannot be reached by sequential requests, the
branch is kept and a lemma proves it unreachable. This holds for several
`modifiedCount === 0` tests after a successful find.

Other places where the model follows the code:

- The first registration of a route is the live one. The second
  `/delete-program-file` (api/s3routes.js:1454) and the second
  `/delete-play` (api/fileRoutes.js:659) are never reached, and are not
  modelled.
- `/transfer-to-playlist` fails as a whole when any item fails, even though
  earlier items may already be copied and pushed. It numbers items in the
  order their uploads complete, not in request order.
- In `ProgrammingPlay` a successful upload resets the slots to `[]` and the
  media type to none. `addSlot` then refuses ("You must add a file…") and no
  slot is left to drop into. The form stays stuck until it is mounted again.
  `ProgrammingPlay.ProgrammingPlay.HandleFileUpload` and
  `ProgrammingPlay.ProgrammingPlay.AddSlot` state both halves.
- `AddFileToPlaylist` clears its slot list only once the upload's `try` is
  entered. The pre-checks return before it and keep the slots.

## Model

| member | source | states |
|---|---|---|
| `JsValues.Or` | api/s3routes.js:489 | `a \|\| b` is `a` exactly when `a` is truthy, otherwise `b`; so `0`, `''`, `null` and `undefined` are all replaced, and the result is truthy exactly when one operand is |
| `Strings.TrimIsCore` | client/src/components/Dropzone.js:81 | `trim()` returns a slice of the input that neither starts nor ends with whitespace, and it cut only whitespace on each side |
| `Strings.TrimNoSpace` | client/src/components/Dropzone.js:81 | trimming a string without whitespace changes nothing |
| `Strings.CollapseSpaces` | client/src/components/Dropzone.js:82 | `replace(/\s+/g, '_')` never lengthens a string |
| `Strings.CollapseSpacesNoSpace` | client/src/components/Dropzone.js:82 | no whitespace is left after the replacement |
| `Strings.CollapseNoSpace` | client/src/components/Dropzone.js:82 | a string without whitespace is left as it is, so the replacement is idempotent |
| `Strings.CollapseRun` | client/src/components/Dropzone.js:82 | a whitespace run between two parts that do not touch it becomes exactly one `_`, and each part is rewritten on its own |
| `Strings.CollapseLeadingSpaces` | client/src/components/AddFileToProject.js:44 | a leading whitespace run becomes one `_`; without a trim the sanitised name starts with `_` |
| `Strings.KeepSafe` | client/src/components/Dropzone.js:83 | `replace(/[^\w.-]/g, '')` keeps only `[A-Za-z0-9_.-]` and never lengthens its input |
| `Strings.KeepSafeIdentity` | client/src/components/Dropzone.js:83 | a string made only of safe characters is left unchanged |
| `Strings.KeepSafeAppend` | client/src/components/AddFileToProject.js:45 | stripping works piece by piece over a concatenation |
| `Strings.SafeHasNoSpace` | client/src/components/Dropzone.js:83 | a safe string holds no whitespace |
| `Strings.ToLower` | client/src/components/ProgrammingPlay.js:141 | `toLowerCase()` keeps the length and maps each character on its own: `A`–`Z` become `a`–`z`, the Kelvin sign U+212A becomes `k`, and every other character is kept |
| `Strings.Utf16Length` | api/fileRoutes.js:1046 | `s.length` counts UTF-16 code units: between the number of characters and twice that; exactly the number of characters when none lies outside the Basic Multilingual Plane, and twice it when all do (91 emoji count 182) |
| `Strings.ReplaceFirstAfter` | client/src/components/FilesDisplay.js:80 | `s.replace(pat, rep)` with a string pattern rewrites only the first occurrence |
| `Strings.Basename` | api/s3routes.js:1602-1603 | `path.basename` returns a segment without `/` |
| `Strings.BasenameOfJoin` | api/s3routes.js:1602-1603 | the basename of `dir/name` is `name` for a name without separators |
| `Strings.NatToString` | api/fileRoutes.js:869 | `String(n)` is a non-empty string of digits |
| `Strings.NatToStringRoundTrip` | api/fileRoutes.js:869 | reading back the digits of `String(n)` gives `n` |
| `Strings.PadStart2` | api/fileRoutes.js:869 | `padStart(2, '0')` pads to length 2 and ends with the original text |
| `Mongo.FindFirst` | api/fileRoutes.js:297 | `find` returns the first index whose element matches |
| `Mongo.Keep` | api/s3routes.js:164-178 | `filter` keeps, in order, only elements that pass |
| `Mongo.KeepMembers` | api/s3routes.js:164-178 | an element is kept exactly when it occurs in the input and passes the filter |
| `Mongo.KeepAll` | api/s3routes.js:178 | filtering is idempotent |
| `Mongo.PullPartition` | api/fileRoutes.js:318 | what `$pull` removes and what it keeps together make up the old array (as a multiset) |
| `Mongo.PullRemovesAll` | api/fileRoutes.js:318 | after `$pull` no element matching the condition is left |
| `Mongo.PullKeeps` | api/fileRoutes.js:318 | an element that does not match the condition survives `$pull` |
| `Mongo.UpdateFirst` | api/fileRoutes.js:351 | the positional `$` rewrites the first matching element and keeps everything else, including the length |
| `Mongo.UpdateWhere` | api/s3routes.js:894 | `arrayFilters` rewrite every matching element and keep the others |
| `Mongo.DistinctCard` | client/src/components/ProgrammingPlay.js:224 | a list has no repeats exactly when its set of values is as large as the list |
| `Mongo.KeepDistinct` | client/src/components/ProgrammingPlay.js:223 | filtering a list without repeats gives a list without repeats |
| `Store.ProjectIndex` | api/fileRoutes.js:297 | `userMeta.find(meta => meta.projectId === id)` is the first project with that id, or none when no project has it |
| `Store.FileIndex` | api/fileRoutes.js:303 | the first file record with the `fileId`, or none when no record has it |
| `Store.Renumbered` | api/s3routes.js:743-746 | entry i of the result is entry i of the input with `seqPos` i+1; every other field and the length are unchanged |
| `Store.RenumberedIdempotent` | api/s3routes.js:743-746 | renumbering twice is renumbering once |
| `S3Keys.Acl` | api/s3routes.js:536 | only `'public-read'` maps to public-read; every other value is private |
| `S3Keys.UploadKey` | api/s3routes.js:106-138 | `/s3-signed-url` gives no key (400) when a field is missing; otherwise the key is `users/{u}/projects/{p}/files/{uuid}-{name}` |
| `S3Keys.PlaylistKey` | api/s3routes.js:515-550 | `/s3-s3-s3` gives no key when a field is missing; otherwise the key lies in the project's `playlists/` folder |
| `S3Keys.ProgrammingKey` | api/s3routes.js:1090-1122 | `/s3-programming` gives no key when a field is missing; otherwise the key is `users/{u}/programming/{programId}/{unique name}` |
| `S3Keys.PlaylistKeyShape` | api/s3routes.js:525-527 | the name part of the key has no whitespace, and the key is the folder followed by that name |
| `S3Keys.UploadKeysDistinct` | api/s3routes.js:117 | two uploads whose keys differ only in a fresh uuid of the same length never share a key |
| `S3Keys.FilesToPlaylistsKey` | client/src/components/FilesDisplay.js:80 | replacing the first `files/` of an upload key moves it into the same project's `playlists/` folder |
| `Probe.NodeSummary` | api/fileRoutes.js:98-131 | `extractMetadata` takes duration from the format and width, height and `r_frame_rate` from the first stream whose `codec_type` is `video`, and every field of the result is truthy: a value that is missing or falsy becomes `'Unknown'` and any other value is kept |
| `Probe.PythonSummary` | api/app.py:78-113 | `extract_metadata` returns None exactly when ffprobe fails or its output does not parse; otherwise width, height and frame rate come from the first stream with both dimensions (None for each without one) |
| `Probe.PySummary` | api/app.py:93-110 | the loop over the streams computes exactly `PythonSummary` |
| `Metadata.EnrichOrTag` | api/s3routes.js:245-312 | each entry is either enriched (`duration`, `frameRate`, a non-null `resolution`, error untouched) or tagged with `metadataError` (old metadata kept), and never describes another file |
| `Metadata.ResolutionOfSizedStream` | api/s3routes.js:293-295 | a first stream with both dimensions gives the resolution `WxH` |
| `Metadata.ExtractedIdempotent` | api/s3routes.js:245-312 | processing an entry again with the same probe result changes nothing |
| `Metadata.ExtractAll` | api/s3routes.js:245-312 | the loop pushes one entry per file, in order: exactly `ExtractList` |
| `Metadata.ExtractListKeepsFiles` | api/s3routes.js:245-312 | the list written back has the same length as the project's files, and entry i describes file i |
| `Metadata.ExtractListIdempotent` | api/s3routes.js:245-312 | a second pass with the same probe results writes the same list |
| `Metadata.ExtractChecked` | api/s3routes.js:580-583 | decoding sits outside the per-file `try`: the pass fails exactly when some key does not decode, and otherwise gives `ExtractList` |
| `S3ProjectRoutes.MappedEntries` | api/s3routes.js:164-177 | one mapped document per request entry, entry i stamped with the request's project, title and access type and its own id |
| `S3ProjectRoutes.KeyDocumentsValid` | api/s3routes.js:164-178 | the documents kept all have a key and a file name and carry the request's project, title and access type |
| `S3ProjectRoutes.KeyDocumentsEmpty` | api/s3routes.js:178-182 | the 400 "no valid file keys" answer comes exactly when no entry has both a key and a file name |
| `S3ProjectRoutes.SaveFileKeys` | api/s3routes.js:143-224 | `/save-file-keys`: 400 exactly for a missing field or no valid entry. On 201 the valid documents are appended to the project with `mainKey` `projectKey-{projectId}`, or a new project `{mainKey, projectId, projectTitle, files}` is pushed; nothing else changes |
| `S3ProjectRoutes.Extractor` | api/s3routes.js:227-322 | `/extractor`: a missing field, or no document, `userMeta` or project, leaves the state alone. Otherwise the first such project's `files` are replaced by `ExtractList` of them |
| `S3ProjectRoutes.DeleteFile` | api/s3routes.js:326-385 | `/delete-file`: only the first record with the `fileId` is cut from the project's `files`; the object goes only when its delete succeeded, and the answer is success regardless |
| `S3ProjectRoutes.DeleteFileSwallowsBlobFailure` | api/s3routes.js:367-380 | after a failed object delete the route still reports success, and the object is left in the bucket |
| `S3ProjectRoutes.DeleteFileAlwaysModifies` | api/s3routes.js:356-365 | a file that was found is always removed, so the "failed to update" answer is never given |
| `S3ProjectRoutes.DeleteFileRemovesFirstOnly` | api/s3routes.js:346-361 | a later record with the same `fileId` survives |
| `S3ProjectRoutes.ProjectBlobKeys` | api/s3routes.js:797-800 | the keys visited are those of `files` followed by those of `playlistsFile` |
| `S3ProjectRoutes.DeleteEach` | api/s3routes.js:802-825 | the loop removes exactly the keys whose delete succeeded and carries on past failures |
| `S3ProjectRoutes.DeleteProject` | api/s3routes.js:768-844 | `/delete-project`: finds the project by `mainKey`, deletes the objects of its `files` and `playlistsFile` whose delete succeeds, then pulls every project with that `mainKey`. The answer is 500 exactly when the pull leaves the document as it was, and 200 exactly when it changes it |
| `S3ProjectRoutes.DeleteProjectSparesOtherBlobs` | api/s3routes.js:797-825 | a `renderFile` object, or any object not listed in `files` or `playlistsFile`, survives the cascade |
| `S3ProjectRoutes.DeleteProjectKeepsOthers` | api/s3routes.js:827-837 | the pull removes every project with that `mainKey` and keeps the others in order; the found project goes, so the write always changes the document |
| `FileRoutes.UploadRecord` | api/fileRoutes.js:385-395 | the stored record has the entry's key, a fresh `fileId`, the request's project and access type, `seqPos \|\| null` and `slotPosition \|\| null`, and no metadata or notes |
| `FileRoutes.UploadRecords` | api/fileRoutes.js:385-395 | exactly one record per input file, in order |
| `FileRoutes.NewSaveFileKeys` | api/fileRoutes.js:375-444 | `/new-save-file-keys`: a missing field is 400 and a document without `userMeta` is 500, both leaving the state alone. Otherwise the records are appended to the first project with the id, or a project `Project-{projectId}` without `mainKey` is created |
| `FileRoutes.UploadRecordsFreshIds` | api/fileRoutes.js:385-395 | distinct uuids give every record its own `fileId` |
| `FileRoutes.CreatedProjectNotDeletable` | api/s3routes.js:789-794 | a project this route creates has no `mainKey`, so `/delete-project` never finds it |
| `FileRoutes.TheeExtractor` | api/fileRoutes.js:478-612 | `/thee_extractor`: a bad key fails the whole request, with the state unchanged, exactly when the project is found and some key of its `files` does not decode. Otherwise the answer is 404 exactly when the pass gives back the same list, and a success exactly when the first project's `files` change to `ExtractList` of them |
| `FileRoutes.SaveFileOrder` | api/fileRoutes.js:614-654 | `/save-file-order`: every project with the id receives the submitted list verbatim, without renumbering, and the new state is the old one with only that user's projects changed; an empty list is accepted; a rejection changes nothing |
| `FileRoutes.FarmerReply` | api/fileRoutes.js:1038-1077 | only an added farmer is a success |
| `FileRoutes.AddFarmer` | api/fileRoutes.js:1035-1077 | `/add-farmer` rejects, in order: a filled honeypot, then a missing name or email, then a message longer than 180 UTF-16 code units, then a missing admin document. Each rejection comes exactly when the earlier checks passed and its own failed, and changes nothing; only the last case appends the farmer |
| `FileRoutes.MaxSeqPosIsMax` | api/fileRoutes.js:1112-1114 | `Math.max(...seqPos \|\| 0)` bounds every position (missing counted as 0) and is one of them |
| `FileRoutes.TransferRecord` | api/fileRoutes.js:1143-1156 | the pushed record carries the position it was given |
| `FileRoutes.PushAllPointwise` | api/fileRoutes.js:1159-1170 | the push reaches exactly the projects with the id; each gains the record at the end of its playlist |
| `FileRoutes.TransferStep` | api/fileRoutes.js:1121-1178 | one completed item either pushes one record at the current position and moves the counter on, or fails the request |
| `FileRoutes.TransferAllExtend` | api/fileRoutes.js:1121-1178 | one more completed item is one more step of the fold |
| `FileRoutes.TransferConsecutive` | api/fileRoutes.js:1112-1151 | the pushed positions are consecutive from max+1 in completion order, and the counter ends just after the last position handed out |
| `FileRoutes.TransferAllSucceeded` | api/fileRoutes.js:1112-1151 | without failure every item is pushed once and numbered max+1, max+2, … in completion order |
| `FileRoutes.IncompleteItemFails` | api/fileRoutes.js:1121-1190 | an incomplete item fails the whole request, whatever else was pushed |
| `FileRoutes.RunTransfer` | api/fileRoutes.js:1121-1180 | the completion handlers run one after another compute exactly `TransferAll` |
| `FileRoutes.FirstSeqPos` | api/fileRoutes.js:1097-1120 | the first transferred file's `seqPos`: `None` exactly when the user has no project with the first item's id (the thrown error); otherwise 1 for an empty playlist, else one past a position that occurs in the playlist and above every position in it |
| `FileRoutes.TransferToPlaylist` | api/fileRoutes.js:1087-1191 | `/transfer-to-playlist`: an empty request changes nothing. Otherwise, with the items' uploads finishing in a given order that takes each item once, a missing project is a 500 with nothing changed; otherwise the new state is that of `TransferAll` starting at `FirstSeqPos`, any failure is a 500, and the 200 answer is `TransferAnswer`: in request order, each item's own record numbered by its place in the completion order |
| `FileRoutes.InRequestOrder` | api/fileRoutes.js:1180 | `Promise.all` gives back the records in request order: the record finished k-th is the one of the k-th finishing item |
| `FileRoutes.InRequestOrderUndoes` | api/fileRoutes.js:1180 | listing by completion and then putting back in request order gives back the per-item list |
| `FileRoutes.TransferAnswer` | api/fileRoutes.js:1142-1185 | the 200 answer has one record per item, and item q's record carries position `start` + q's place in the completion order |
| `FileRoutes.TransferAnswerInRequestOrder` | api/fileRoutes.js:1142-1185 | the records pushed in completion order, put back in request order, are exactly `TransferAnswer` |
| `FileRoutes.ReverseFinishAnswer` | api/fileRoutes.js:1142-1185 | two items finishing in reverse order: the answer lists the first item first, carrying the later position |
| `Store.FinishPosition` | api/fileRoutes.js:1180 | where a handler is in the finishing order: it is there, and not earlier |
| `DeletePlay.Handle` | api/fileRoutes.js:277-368 | `/delete-play`: each answer is given exactly when its condition holds. Missing fields, or no document, project or file, leave the state alone. A key that does not decode is a 500 without a write. A pull that modifies nothing is a 500 before the object is touched. A thrown delete restores the metadata, with the record pushed onto the end, and answers 500. A 200 means the record was pulled and the delete returned |
| `DeletePlay.PullDocShape` | api/fileRoutes.js:316-319 | the pull rewrites only the first project with the id, which stays first |
| `DeletePlay.PullDocEffect` | api/fileRoutes.js:316-319 | after the pull no record with the `fileId` is left, and the removed and remaining records together are the old playlist |
| `DeletePlay.FoundImpliesModified` | api/fileRoutes.js:320-324 | after a successful find, the pull always changes the document, so the "failed to update" branch cannot be taken by sequential requests |
| `DeletePlay.RollbackPlaylist` | api/fileRoutes.js:348-353 | the compensating push appends the record after the pulled playlist |
| `DeletePlay.RollbackRestoresUnique` | api/fileRoutes.js:329-363 | with a unique `fileId`, the rollback restores the playlist's records as a multiset, with the restored record moved to the end |
| `DeletePlay.PullPushUnique` | api/fileRoutes.js:329-363 | pulling the only match and appending it again gives the same elements |
| `DeletePlay.RollbackLosesDuplicates` | api/fileRoutes.js:329-363 | with several records sharing the `fileId`, the pull removes them all and the rollback puts back only the first: records are lost |
| `S3PlaylistRoutes.PlaylistDocument` | api/s3routes.js:481-491 | the stored record has the trimmed key, a whitespace-free name, the given or a fresh `fileId`, the slot as given (a missing one stored as `null`), and `seqPos \|\| i+1`, which is always truthy |
| `S3PlaylistRoutes.PlaylistDocuments` | api/s3routes.js:481-491 | one record per entry, in order |
| `S3PlaylistRoutes.PlaylistDocumentsNumbered` | api/s3routes.js:489 | a batch without `seqPos` values is numbered 1, 2, … in request order |
| `S3PlaylistRoutes.NewSavePlaylistFileKeys` | api/s3routes.js:470-509 | `/new-save-playlist-file-keys`: 400 for a missing field, 404 when no project matches, both without a write; otherwise the batch is appended to the first matching project's playlist |
| `S3PlaylistRoutes.SaveReorderedPlay` | api/s3routes.js:731-763 | `/save-reordered-play`: an empty or missing list is a 400. Otherwise the first matching project's `playlistsFile` becomes the renumbered list (`seqPos` i+1, other fields as submitted). The answer is 404 exactly when there is no document, no such project, or the renumbered list equals the stored one |
| `S3PlaylistRoutes.SaveReorderedTwice` | api/s3routes.js:731-763 | sending the same order twice: the second request changes nothing and is answered 404 |
| `S3PlaylistRoutes.ExtractFileMetadata` | api/s3routes.js:552-657 | `/extract-file-metadata`: a key that does not decode fails the whole request; a pass that changes nothing is a 404; otherwise the playlist becomes `ExtractList` of it |
| `S3PlaylistRoutes.ExtractFileMetadataAgain` | api/s3routes.js:552-657 | running the pass again with the same probe results rewrites an identical playlist, so the second request is answered 404 |
| `S3PlaylistRoutes.UpdateSlotPosition` | api/s3routes.js:851-907 | `/update-slot-position` writes nothing on either rejection: a non-empty slot that is not `^[a-z]$` is a 400, and so is a slot held by another `fileId` in the project. Otherwise `slotPosition \|\| ''` is stored on every matching file, and the 500 "update failed" comes exactly when that write changes nothing |
| `S3PlaylistRoutes.UpdateSlotKeepsUnique` | api/s3routes.js:873-895 | a successful update keeps the non-empty slots of each matching playlist unique among different files |
| `S3PlaylistRoutes.SetSlotAt` | api/s3routes.js:891-895 | the write touches only projects with the id, and within them only files with the `fileId` |
| `S3PlaylistRoutes.SetSlotIdempotent` | api/s3routes.js:891-895 | setting the same slot twice is setting it once |
| `S3PlaylistRoutes.SetSlotStillMatches` | api/s3routes.js:862-867 | after the write the document still matches the file query |
| `S3PlaylistRoutes.SetSlotNoOtherHolder` | api/s3routes.js:874-895 | the write gives the slot to no file with another id |
| `S3PlaylistRoutes.SameSlotAgainFails` | api/s3routes.js:891-899 | writing the slot a file already holds changes nothing, so the route answers 500 "update failed" instead of success |
| `S3PlaylistRoutes.CheckSlot` | api/s3routes.js:982-1007 | `/checkSlot`: 400 exactly for a missing field; otherwise 200, with `success` exactly when no project with the id has a playlist file in that slot |
| `S3PlaylistRoutes.CheckSlotFreeMeansNoDuplicate` | api/s3routes.js:982-1007 | a slot reported free passes the duplicate test of `/update-slot-position`, whichever file then takes it |
| `S3PlaylistRoutes.CheckSlotCountsOwnFile` | api/s3routes.js:993-999 | the check does not exclude the asking file: a file is told that its own slot is taken |
| `S3PlaylistRoutes.AddNote` | api/s3routes.js:1683-1721 | `/add-note`: an invalid request or note is a 400 and no match is a 404, neither writing. Otherwise the note is pushed onto every matching file |
| `S3PlaylistRoutes.DeleteNote` | api/s3routes.js:1723-1761 | `/delete-note`: a missing field is a 400. Otherwise every note with the `uniqueId` is pulled from the matching files, and the 404 comes exactly when there is no document or the pull changes nothing |
| `S3PlaylistRoutes.AddNoteAppends` | api/s3routes.js:1695-1710 | each matching file's notes become its old notes followed by the new one; other files keep theirs |
| `S3PlaylistRoutes.DeleteNoteRemoves` | api/s3routes.js:1735-1750 | no matching file keeps a note with the `uniqueId`, and the other notes stay in order |
| `S3ProgramRoutes.ProgramIndex` | api/s3routes.js:1140 | the first program with the id, or none when no program has it |
| `S3ProgramRoutes.ProgramDocument` | api/s3routes.js:1033-1040 | the stored record keeps key, name and slot, takes the request's access type and program id, has the position given, and gets `fileId \|\| uuid` |
| `S3ProgramRoutes.ProgramDocuments` | api/s3routes.js:1033-1040 | the batch is numbered from the given base + 1, in order |
| `S3ProgramRoutes.NewSaveProgrammingFileKeys` | api/s3routes.js:1016-1088 | `/new-save-programming-file-keys`, each case exactly when its condition holds. An existing program (found by title) gets the batch appended to folder 0, numbered after its current length; a program without folders is a 500, and an empty batch for it is a 404 that writes nothing. Otherwise a new program with the batch numbered from 1 is pushed; for a user without a document the upsert creates one, and the answer is 404 because nothing existing was modified |
| `S3ProgramRoutes.ProgramAppendContinues` | api/s3routes.js:1038 | a folder numbered 1..n stays numbered 1..n+m after an append: the batch continues at n+1 |
| `S3ProgramRoutes.ProgramExtract` | api/s3routes.js:1124-1239 | `/program-extract`: the metadata pass over folder 0 adds `slotPosition \|\| null`. A bad key fails the whole request exactly when the program is found and some key of folder 0 does not decode. Otherwise the answer is 404 exactly when the pass rewrites an identical folder, and a success exactly when it changes it, the folder then being `ExtractList` of the old one |
| `S3ProgramRoutes.ProgramSlotCheck` | api/s3routes.js:1353-1394 | `/proGram-slot-check` succeeds exactly when the slot is valid and no file with another id in a program with the id has a strictly equal slot; a user without that program always passes |
| `S3ProgramRoutes.EmptySlotNotExempt` | api/s3routes.js:1370-1387 | the empty slot is not exempt: two files holding `''` make the check fail for either |
| `S3ProgramRoutes.Stored` | api/s3routes.js:1426 | an `undefined` slot is stored as `null`; any other value is stored as given |
| `S3ProgramRoutes.UpdateSlotProg` | api/s3routes.js:1399-1448 | `/update-slot-prog`: an invalid slot is a 400, and no match is a 404, neither writing. Otherwise the value is stored on every file with the id in every program with the id, with no duplicate check and no `\|\| ''` default; the "not updated" answer comes exactly when that write changes nothing |
| `S3ProgramRoutes.SetProgramSlotEffect` | api/s3routes.js:1422-1436 | the write reaches exactly the files with the `fileId` in the programs with the id; every other file keeps its slot |
| `S3ProgramRoutes.ProgramById` | api/s3routes.js:1511 | `Programming.find` by id returns a program exactly when some program has the id; it carries the id, and no earlier program has it |
| `S3ProgramRoutes.Reordered` | api/s3routes.js:1510-1512 | `programOrder.map(find)` gives one entry per id of the order: the first program with that id, or a hole (`null`) when none has it |
| `S3ProgramRoutes.UpdateProgramOrder` | api/s3routes.js:1497-1525 | `/update-program-order`: no document is a 404 and no order a 500, both without a write. When every id is found, `Programming` becomes the programs looked up id by id: one per id, each the first program in the old list carrying that id. Otherwise the stored array is `Reordered`, with a hole for an id that is not found. The write's result is not checked |
| `S3ProgramRoutes.ProgramIds` | client/src/components/ProgrammingDisplay.js:172-176 | the ids of the programs, in list order |
| `S3ProgramRoutes.ReorderedByOwnIds` | api/s3routes.js:1510-1513 | sending back the current order of programs with distinct ids finds every id and leaves the programs as they are |
| `S3ProgramRoutes.DistinctIdFound` | api/s3routes.js:1510-1513 | with distinct ids, looking up program k's id finds program k |
| `S3ProgramRoutes.FindInFolders` | api/s3routes.js:930-933 | the inner search loop returns the first file with the id among the program's folders |
| `S3ProgramRoutes.FindFileToDelete` | api/s3routes.js:927-936 | the nested search loop returns the first file with the id in the programs with the id |
| `S3ProgramRoutes.DeleteProgramFile` | api/s3routes.js:913-975 | `/delete-program-file`: the file id is pulled from every folder of every program, and then the object is deleted. A failed delete is reported as a 500, without restoring the records |
| `S3ProgramRoutes.FolderFindFound` | api/s3routes.js:930-933 | what the inner search finds has the id and sits in one of the folders |
| `S3ProgramRoutes.ProgramFindFound` | api/s3routes.js:927-936 | what the search finds sits in a program with the requested id |
| `S3ProgramRoutes.PullEverywhereRemoves` | api/s3routes.js:946-949 | after `Programming.$[].programFolder.$[]` no folder of any program, with that id or another, holds the file id |
| `S3ProgramRoutes.FoundFileIsPulled` | api/s3routes.js:945-953 | a file the search found is always pulled, so the 404 after the write is never given |
| `ApplyProgram.MatchOf` | api/s3routes.js:1579-1581 | the matching program file is the first whose slot is strictly equal to the playlist file's; there is none exactly when no slot is equal |
| `ApplyProgram.ReplacedIdentity` | api/s3routes.js:1600-1629 | a replaced record keeps the playlist's own slot, position, notes and project, and takes the program file's id, name, access type and metadata. Its key is in the playlist's `playlists/` folder under the program object's name |
| `ApplyProgram.DestKeyName` | api/s3routes.js:1601-1604 | the copy lands under the program object's own name |
| `ApplyProgram.MapIndexed` | api/s3routes.js:1577-1638 | the callbacks give one result per playlist file, in order |
| `ApplyProgram.MapIndexedPointwise` | api/s3routes.js:1577-1638 | result j is callback j applied to file j |
| `ApplyProgram.FirstSomeNone` | api/s3routes.js:1577-1638 | `Promise.all` rejects exactly when some callback rejects |
| `ApplyProgram.FoldsExtend` | api/s3routes.js:1577-1638 | one more callback is one more step of each fold |
| `ApplyProgram.ApplyFiles` | api/s3routes.js:1577-1638 | the callbacks over a playlist's files compute its new list, its first failure and the bucket after the commands |
| `ApplyProgram.NewRecordsPointwise` | api/s3routes.js:1577-1638 | file by file the new list holds the callback's result, unmatched files unchanged, so length and order are kept |
| `ApplyProgram.FirstFailureNone` | api/s3routes.js:1577-1638 | the pass fails exactly when some matched file had a failed delete or copy |
| `ApplyProgram.StepFilesNoMatch` | api/s3routes.js:1577-1638 | a playlist with no slot in common with the program comes back unchanged and the bucket is untouched |
| `ApplyProgram.AllBlobsNoMatch` | api/s3routes.js:1577-1638 | without a matched slot no command reaches the bucket |
| `ApplyProgram.SetPlaylistsEffect` | api/s3routes.js:1640-1649 | the write rewrites exactly the projects with the id, and changes nothing exactly when they already hold the list |
| `ApplyProgram.StepPlaylist` | api/s3routes.js:1564-1652 | one playlist adds at most one error, and an error means the document is unchanged. A playlist missing from the snapshot is an error; the admin document and the other users are untouched |
| `ApplyProgram.AllFoundEach` | api/s3routes.js:1562-1655 | the found check over the ids holds exactly when every id is found |
| `ApplyProgram.ApplyPlaylists` | api/s3routes.js:1562-1655 | at most one error per playlist, and a pass without errors found every playlist |
| `ApplyProgram.NoMatchIsReported` | api/s3routes.js:1636-1649 | a playlist sharing no slot with the program is reported as not updated: nothing is copied and the write changes nothing |
| `ApplyProgram.ApplyPlaylist` | api/s3routes.js:1564-1652 | one playlist's copies and write compute `StepPlaylist` |
| `ApplyProgram.RunPlaylists` | api/s3routes.js:1562-1655 | the playlists one after another compute `ApplyPlaylists` |
| `ApplyProgram.ApplyReply` | api/s3routes.js:1657-1670 | only the pass without errors is a success |
| `ApplyProgram.Arranged` | api/s3routes.js:1562-1655 | the playlist ids in the order their handlers finish: one id per finishing position |
| `ApplyProgram.ArrangedCoversIds` | api/s3routes.js:1562-1655 | when the finish order takes every playlist once, every requested id is handled |
| `ApplyProgram.ApplyProgramRoute` | api/s3routes.js:1534-1675 | `/apply-program`: an invalid request, a missing program or a program without files leaves the state alone. Otherwise the state is that of `ApplyPlaylists` over the playlists in the order their handlers finish, which takes each playlist once; the answer is partial with its errors, or full |
| `SeqPosOrder.SortedPairs` | api/fileRoutes.js:1232 | ascending neighbour by neighbour is ascending for every pair |
| `SeqPosOrder.Insert` | api/fileRoutes.js:850 | inserting into a sorted list keeps it sorted and adds exactly the element |
| `SeqPosOrder.SortBySeqPos` | api/fileRoutes.js:1232 | the result is sorted by `seqPos`, is a permutation of the input, and keeps records with equal `seqPos` in their input order, as the stable `Array.prototype.sort` does |
| `SeqPosOrder.InsertStable` | api/fileRoutes.js:1232 | inserting a record into a sorted list puts it ahead of the records with the same `seqPos` and keeps their order; since each record is inserted ahead of the ones after it in the input, sorting is stable |
| `SeqPosOrder.SortSorted` | api/fileRoutes.js:850 | an already ordered list comes back as it was, so sorting is idempotent |
| `Package.PlaylistPairs` | api/fileRoutes.js:852-890 | the `a`-th archive entry and the `a`-th manifest line of a playlist both describe the file whose fetch finished `a`-th: the line names the entry's path, and both carry that file's key and id |
| `Package.PlaylistFilesAscending` | api/fileRoutes.js:849-890 | when the fetches of a sorted playlist finish in file order, its manifest lines ascend by `seqPos` |
| `Package.ReverseCompletionUnsorted` | api/fileRoutes.js:852-892 | fetches that finish in reverse order put position 2 before position 1 in the manifest, so its lines need not ascend |
| `Package.PackPlaylist` | api/fileRoutes.js:842-894 | one playlist's callbacks over its sorted files, in the order the fetches finish, produce exactly its entries and its manifest |
| `Package.PackFiles` | api/fileRoutes.js:852-892 | the callbacks of one playlist append an entry and a manifest line for each fetched file, in the order the fetches finish; a file whose URL or fetch failed adds nothing |
| `Package.PackAll` | api/fileRoutes.js:841-894 | the loop over the selected playlists appends each playlist's entries and pushes one manifest per playlist, in selection order |
| `Package.AllManifests` | api/fileRoutes.js:841-894 | one manifest per selected playlist, in selection order, with its title and id and one line per fetched file, also when none of its files was fetched |
| `Package.AllPaired` | api/fileRoutes.js:841-907 | the archive holds exactly one file entry per manifest line |
| `Package.ManifestsAscending` | api/fileRoutes.js:841-894 | when every playlist's fetches finish in file order, each playlist's manifest lines ascend by `seqPos` |
| `Package.PackageReply` | api/fileRoutes.js:788-931 | only a packaged archive is a success |
| `Package.PackagePlaylists` | api/fileRoutes.js:788-931 | `/package-playlists`: invalid input, no document and no selected playlist are rejected, each exactly when the earlier checks passed and its own failed, and the "empty" answer is never given. A package holds the playlists' entries, each playlist's in the order its fetches finished, followed by `metadata.json` (and the script when it exists) |
| `Render.RenderDocOnly` | api/fileRoutes.js:1275-1278 | the `$push` onto `renderFile` appends to the first project with the id and changes nothing else in the document |
| `Render.RenderOnlyTrans` | api/fileRoutes.js:1220-1284 | a run of renders only grows `renderFile` arrays |
| `Render.RenderOnlyIndex` | api/fileRoutes.js:1222 | renders never change which project an id selects |
| `Render.InRenderFileKept` | api/fileRoutes.js:1220-1284 | a record once placed stays placed |
| `Render.RenderedFromTrans` | api/fileRoutes.js:1220-1284 | the render relation between states is transitive |
| `Render.Record` | api/fileRoutes.js:1256-1278 | recording a render uploads its object, appends to the response list, places the record in its playlist's `renderFile`, and touches nothing else |
| `Render.RecordGood` | api/fileRoutes.js:1220-1284 | recording a render for an existing playlist keeps the invariant: every listed record is uploaded and placed |
| `NodeRender.NodeResult` | api/fileRoutes.js:1221-1278 | a playlist yields a record exactly when it exists, some of its files (sorted by `seqPos`) downloaded, the merge and probe succeeded and the upload succeeded. The record is built from the downloaded files |
| `NodeRender.NodeAll` | api/fileRoutes.js:1220-1284 | the loop over the ids yields at most one record per id |
| `NodeRender.NodeAllExtend` | api/fileRoutes.js:1220-1284 | one more id is one more step of the fold |
| `NodeRender.NodeAllGood` | api/fileRoutes.js:1220-1284 | rendering only appends to `renderFile` and adds objects; every returned record is uploaded, placed in the playlist it renders, and that playlist was requested |
| `NodeRender.Download` | api/fileRoutes.js:1231-1241 | the download loop keeps exactly the files that downloaded, skips failures, and keeps their order |
| `NodeRender.RenderOne` | api/fileRoutes.js:1221-1283 | one iteration computes `NodeResult`: a failure of any step skips the id |
| `NodeRender.RunRender` | api/fileRoutes.js:1220-1284 | the loop over the ids computes exactly the fold `NodeAll` |
| `NodeRender.RenderPlaylist` | api/fileRoutes.js:1197-1291 | `/render-playlist`: 400 without a user or ids, 404 without a document or `userMeta`, neither writing; otherwise always 200 with the records of `NodeAll` |
| `PyRender.PyStr` | api/app.py:200 | `str(None)` is `"None"`, and a string prints as itself |
| `PyRender.PyResult` | api/app.py:139-208 | an unknown id, an ffmpeg failure or missing metadata skips the id. A playlist Python cannot sort, a failed download or a failed upload raises. A record is made exactly when everything succeeded, keyed under the user's `rendered_videos/` |
| `PyRender.PyAll` | api/app.py:138-209 | the fold over the ids stays inside the user's document |
| `PyRender.RaisedStays` | api/app.py:213-216 | after an exception the remaining ids are not looked at |
| `PyRender.PyAllGood` | api/app.py:138-209 | the render invariant holds also when the request ends in 500: earlier renders stay uploaded and placed |
| `PyRender.DownloadAll` | api/app.py:151-154 | the download loop succeeds exactly when every object downloaded |
| `PyRender.PyRenderOne` | api/app.py:139-208 | one iteration of the loop does what `PyResult` says |
| `PyRender.PyRenderPlaylist` | api/app.py:115-216 | a payload missing `userId` or `playlistIds` is a 400 and no document is a 404, neither writing. An exception is a 500 that keeps the earlier renders; otherwise 200 with the records made |
| `Client.MessageOr` | client/src/components/AddFileToPlaylist.js:119 | `response.message \|\| fallback` is the server's message when that is a non-empty string, and the fallback when the message is falsy |
| `Media.KindOf` | client/src/components/ProgrammingPlay.js:114-115 | a file is a video exactly when its MIME type starts with `video`, and audio exactly when it starts with `audio`; the kind found is always the one whose name prefixes the type |
| `ListMoves.MovePermutes` | client/src/components/PlaylistDisplay.js:29-31 | splicing an item out and back in at another index keeps the length and the multiset of items |
| `ListMoves.MoveLands` | client/src/components/PlaylistDisplay.js:29-31 | the dragged item ends up at the drop index |
| `ListMoves.MoveKeepsOthers` | client/src/components/PlaylistDisplay.js:29-31 | apart from the moved item, every other item keeps its relative order |
| `ListMoves.InsertRemoved` | client/src/components/ProgrammingDisplay.js:160-162 | putting a removed item back at the index it came from restores the list |
| `ListMoves.MoveBack` | client/src/components/PlaylistDisplay.js:29-31 | a move is undone by the move back, and a drop on the drag index changes nothing |
| `Selection.ToggleMembership` | client/src/components/PlaySelectParent.js:35-39 | toggling puts the id in the selection exactly when it was absent, and leaves every other id as it was |
| `Selection.ToggleTwice` | client/src/components/PlaySelectParent.js:35-39 | selecting an id and then deselecting it restores the selection |
| `Selection.ToggleDistinct` | client/src/components/ProgPlayBin.js:42-47 | toggling never puts an id into the selection twice |
| `SlotOrder.StrLeTotal` | client/src/components/ProgrammingDisplay.js:278 | the comparison on slot positions is total |
| `SlotOrder.StrLeTrans` | client/src/components/ProgrammingDisplay.js:278 | the comparison on slot positions is transitive |
| `SlotOrder.SortedBySlotPairs` | client/src/components/ProgrammingDisplay.js:278 | in a sorted list every earlier file has a slot key no greater than every later one |
| `SlotOrder.InsertBySlot` | client/src/components/ProgrammingDisplay.js:278 | inserting one file into a sorted list keeps it sorted and adds exactly that file |
| `SlotOrder.SortBySlot` | client/src/components/ProgrammingDisplay.js:276-278 | sorting by `slotPosition \|\| ''` gives a sorted permutation of the files |
| `PlaylistDisplay.PlaylistDisplay.Sync` | client/src/components/PlaylistDisplay.js:13-15 | a new `playlistFiles` prop replaces the local list |
| `PlaylistDisplay.TextIndex` | client/src/components/PlaylistDisplay.js:26-30 | the number `splice` reads from the dropped text: a digit string is its value, empty text is 0 |
| `PlaylistDisplay.DropAsWritten` | client/src/components/PlaylistDisplay.js:25-33 | the drop as written, for any text: when the text's start is inside the list, the list becomes the move of that file to the drop index, a permutation; at the end of the list nothing is cut and `undefined` is put in at the drop index |
| `PlaylistDisplay.ForeignDropMovesFirst` | client/src/components/PlaylistDisplay.js:25-33 | a drop with empty text (a file from the desktop) moves the first file to the drop row |
| `PlaylistDisplay.DraggedRow` | client/src/components/PlaylistDisplay.js:21-23 | recognises the text a row's drag start stored: a row of the list, whose `String` is the text and which `splice` reads back |
| `PlaylistDisplay.DraggedRowOfStart` | client/src/components/PlaylistDisplay.js:21-23 | every row's own drag start is recognised as that row |
| `PlaylistDisplay.PlaylistDisplay.HandleDrop` | client/src/components/PlaylistDisplay.js:25-33 | a drop from a row moves that file to the drop index: a permutation with that file at the drop index, unchanged when it is its own row, and the same list the source produces (`DropAsWritten`); a drop that carries no row index leaves the list as it was (see Findings) |
| `UserFilesDisplay.AddToExisting` | client/src/components/UserFilesDisplay.js:20-21 | adding a file to the group of its project keeps the grouping well formed |
| `UserFilesDisplay.AddAsNew` | client/src/components/UserFilesDisplay.js:11-17 | a file of a project without a group opens a new group titled after it, with key `projectKey-<projectId>` |
| `UserFilesDisplay.AddKeepsGrouped` | client/src/components/UserFilesDisplay.js:7-24 | one step of the `reduce` keeps the grouping well formed |
| `UserFilesDisplay.GroupedIsWellGrouped` | client/src/components/UserFilesDisplay.js:7-24 | the grouping has one group per project, each holding exactly that project's files in their original order, titled after its first file, and every file lands in a group |
| `UserFilesDisplay.AddKeepsOrder` | client/src/components/UserFilesDisplay.js:8-18 | one step of the `reduce` keeps the groups in the order their projects first appear |
| `UserFilesDisplay.GroupedInFirstSeenOrder` | client/src/components/UserFilesDisplay.js:8-18 | for any two groups, the earlier group's project occurs in the list before any file of the later group's project |
| `UserFilesDisplay.GroupedSizes` | client/src/components/UserFilesDisplay.js:21 | the group sizes add up to the number of files |
| `UserFilesDisplay.GroupByProject` | client/src/components/UserFilesDisplay.js:7-24 | the `reduce` loop computes the grouping: well formed, in first-seen order, and holding every file once |
| `RenderFiles.Unscore` | client/src/components/RenderFiles.js:95 | `replace(/_/g, ' ')` turns every underscore into a space and keeps every other character and the length |
| `RenderFiles.StampFrom` | client/src/components/RenderFiles.js:95 | the search finds the first position holding a `YYYY-MM-DD HH:MM:SS` timestamp, or reports that there is none |
| `RenderFiles.RemoveFirstStamp` | client/src/components/RenderFiles.js:95 | a non-global replace cuts out exactly the 19 characters of the first timestamp and leaves a name without one unchanged |
| `RenderFiles.HeaderNoUnderscore` | client/src/components/RenderFiles.js:95 | the header shown for a rendered file never contains an underscore |
| `RenderFiles.OnlyFirstStampRemoved` | client/src/components/RenderFiles.js:95 | a later timestamp survives the replacement, shifted left by 19 |
| `RenderFiles.NoStampHeader` | client/src/components/RenderFiles.js:95 | without a timestamp the header is just the trimmed name with spaces for underscores |
| `RenderFiles.ToggleFile` | client/src/components/RenderFiles.js:58-63 | clicking a file flips its open flag, an unseen file opens, and every other file keeps its flag |
| `RenderFiles.ToggleFileTwice` | client/src/components/RenderFiles.js:58-63 | two clicks restore the flags of a file that had one |
| `FileNames.SanitizeFileName` | client/src/components/Dropzone.js:79-84 | the trimmed, underscored and stripped name holds only `[A-Za-z0-9_.-]` and is no longer than the original |
| `FileNames.SanitizeUntrimmed` | client/src/components/AddFileToProject.js:43-45 | the same holds without the trim |
| `FileNames.SafeNameFixed` | client/src/components/Dropzone.js:79-84 | a name already made of safe characters is left unchanged by both sanitisers |
| `FileNames.SanitizeIdempotent` | client/src/components/Dropzone.js:79-84 | sanitising twice gives the same name as sanitising once |
| `FileNames.InnerRunUnderscore` | client/src/components/Dropzone.js:79-84 | a run of whitespace inside a name becomes exactly one `_` |
| `FileNames.NoBreakSpaceInName` | client/src/components/Dropzone.js:79-84 | a no-break space between two safe names becomes `_`, like any other whitespace |
| `FileNames.LeadingSpaces` | client/src/components/AddFileToProject.js:43-45 | leading whitespace vanishes with the trim but becomes a leading `_` without it |
| `Dropzone.UploadToS3` | client/src/components/Dropzone.js:73-121 | a file yields a key exactly when the presigned request answered with a URL and a non-empty key and the PUT succeeded. The key is the one the server gave, and the name is sanitised |
| `Dropzone.Fulfilled` | client/src/components/Dropzone.js:150-152 | `filter(Boolean)` keeps exactly the uploads that produced a key |
| `Dropzone.SavedAreUploaded` | client/src/components/Dropzone.js:150-156 | a key is sent to `save-file-keys` exactly when some dropped file uploaded and produced it |
| `Dropzone.Dropzone.OnDrop` | client/src/components/Dropzone.js:46-53 | dropped files are appended to the files already chosen, and nothing else changes |
| `Dropzone.Dropzone.HandleSubmit` | client/src/components/Dropzone.js:123-183 | an empty trimmed title sets the title error and sends nothing; otherwise the files are uploaded and only the successful ones are saved; uploading is cleared at the end |
| `AddFileToProject.AddFileToProject.OnDrop` | client/src/components/AddFileToProject.js:19-23 | a drop replaces the chosen files |
| `AddFileToProject.AddFileToProject.HandleFileUpload` | client/src/components/AddFileToProject.js:31-118 | nothing happens without files. A save is sent exactly when the user is signed in and every file uploaded; file `i` gets `seqPos` i+1, a null slot and the sanitised name. The parent is notified exactly when the save answered with a message and extraction did not throw |
| `AddFileToPlaylist.AddSequenceSlot` | client/src/components/AddFileToPlaylist.js:63-68 | adding a slot appends an empty slot whose `seqPos` is the new length and keeps the others |
| `AddFileToPlaylist.RemoveSequenceSlot` | client/src/components/AddFileToPlaylist.js:70-72 | removing a slot keeps exactly the slots with another id, and does not renumber them |
| `AddFileToPlaylist.SeqPosRepeats` | client/src/components/AddFileToPlaylist.js:63-72 | because removal does not renumber, removing the first of two slots and adding one gives two slots with `seqPos` 2 |
| `AddFileToPlaylist.UserIdValue` | client/src/components/AddFileToPlaylist.js:113 | the request carries `authUser?._id`, undefined exactly when no user is signed in |
| `AddFileToPlaylist.PositionMessage` | client/src/components/AddFileToPlaylist.js:103-132 | an empty value clears the error; a value that is not one letter gets the letter error without a request. For a letter, the server's verdict decides, its message or a default when it is taken, and a thrown request gets the check error |
| `AddFileToPlaylist.UploadAlert` | client/src/components/AddFileToPlaylist.js:139-166 | the upload is refused when any slot error is set, when there are no slots, when the first slot has no audio or video file, or when a filled slot's type does not match the first slot's kind; otherwise it goes ahead |
| `AddFileToPlaylist.PlaylistFiles` | client/src/components/AddFileToPlaylist.js:175-216 | each uploaded file keeps its slot's name, `seqPos` and slot position, takes the signed key and URL, and carries the access type and the media kind |
| `AddFileToPlaylist.HasFileKept` | client/src/components/AddFileToPlaylist.js:175-176 | the slots that are uploaded all hold a file |
| `AddFileToPlaylist.PlaylistUpload` | client/src/components/AddFileToPlaylist.js:168-257 | a playlist is saved exactly when the user is signed in, some slot holds a file and every such file uploaded. The parent is notified exactly when the save answered, and extraction runs exactly when that answer is truthy |
| `AddFileToPlaylist.AddFileToPlaylist.AddSlot` | client/src/components/AddFileToPlaylist.js:63-68 | the slot list grows by one empty slot, and nothing else changes |
| `AddFileToPlaylist.AddFileToPlaylist.RemoveSlot` | client/src/components/AddFileToPlaylist.js:70-72 | the slot with that id is dropped, and nothing else changes |
| `AddFileToPlaylist.AddFileToPlaylist.HandleDrop` | client/src/components/AddFileToPlaylist.js:74-101 | a drop of a file that is neither audio nor video, or of the other kind than the first drop, is refused with an alert and no slot changes. Otherwise the file goes into its slot only, and the kind is fixed |
| `AddFileToPlaylist.AddFileToPlaylist.HandleSlotPositionChange` | client/src/components/AddFileToPlaylist.js:103-132 | the slot takes the typed value, the check is sent only for a single letter, and the slot's error becomes `PositionMessage` |
| `AddFileToPlaylist.AddFileToPlaylist.HandleFileUpload` | client/src/components/AddFileToPlaylist.js:138-257 | a refused upload changes nothing; otherwise the upload does what `PlaylistUpload` says and the slots are cleared |
| `AddFileToPlaylist.SentMatchKind` | client/src/components/AddFileToPlaylist.js:150-166 | when the upload goes ahead, every uploaded file has the first slot's media kind |
| `AddFileToPlaylist.EmptyFirstSlotBlocks` | client/src/components/AddFileToPlaylist.js:150-156 | an empty first slot blocks the upload, even when later slots hold files |
| `BigFile.WithoutNote` | client/src/components/BigFile.js:189 | deleting a note keeps exactly the notes with another id |
| `BigFile.AddThenDelete` | client/src/components/BigFile.js:150-189 | deleting a just-added note with a fresh id restores the notes |
| `BigFile.DeleteIdempotent` | client/src/components/BigFile.js:189 | deleting a note twice is the same as deleting it once |
| `BigFile.BigFile.constructor` | client/src/components/BigFile.js:17-20 | the slot starts from `file?.slotPosition \|\| ''`, with an empty note and no error |
| `BigFile.BigFile.TypeNote` | client/src/components/BigFile.js:286-288 | typing replaces the note exactly when the new text has at most 180 UTF-16 code units, otherwise the note stays; so the note never exceeds that |
| `BigFile.BigFile.TypeSlot` | client/src/components/BigFile.js:322 | typing sets the slot position |
| `BigFile.BigFile.HandleSave` | client/src/components/BigFile.js:30-55 | missing ids set an error and send nothing; otherwise the slot update is sent, a reply clears the slot field and shows the server's error when it failed, and a throw shows the generic error |
| `BigFile.BigFile.HandleAddNote` | client/src/components/BigFile.js:120-168 | missing ids or an empty trimmed note set their errors and send nothing; otherwise the trimmed note is sent, and only a successful reply appends it and clears the field |
| `BigFile.BigFile.HandleDeleteNote` | client/src/components/BigFile.js:171-204 | missing ids set an error; otherwise the delete is sent, and only a successful reply removes the note with that id |
| `FilesDisplay.CountAfter` | client/src/components/FilesDisplay.js:14-33 | a click below the threshold counts up, the third click asks and resets that file's count, and other files' counts are untouched |
| `FilesDisplay.ThirdClickAsks` | client/src/components/FilesDisplay.js:14-33 | starting from no clicks, only the third click asks to delete, and that click brings the counts back to where they started |
| `FilesDisplay.Flip` | client/src/components/FilesDisplay.js:35-43 | every click flips the file's membership in the selection and leaves the others |
| `FilesDisplay.TransferItemOf` | client/src/components/FilesDisplay.js:75-90 | each transferred item carries the file's key and name and an empty slot position |
| `FilesDisplay.FilesDisplay.HandleMultiFileSelect` | client/src/components/FilesDisplay.js:14-44 | a click updates the counts and flips the selection; a file is removed exactly on the asking click when the user confirms |
| `FilesDisplay.FilesDisplay.HandleClickOutside` | client/src/components/FilesDisplay.js:48-52 | a click outside clears the counts and the selection |
| `FilesDisplay.FilesDisplay.HandleAddToPlaylist` | client/src/components/FilesDisplay.js:63-117 | an empty selection sends nothing; otherwise one item per selected file, in file order, is sent, and the selection is cleared exactly when the transfer succeeded |
| `FilesDisplay.TransferIsSelection` | client/src/components/FilesDisplay.js:75 | a file is transferred exactly when it is one of the files and is selected |
| `FilesDisplay.TransferDestination` | client/src/components/FilesDisplay.js:80 | the destination key is the source key with its `files/` folder replaced by `playlists/` |
| `InterestForm.EmailLikeOf` | client/src/components/InterestForm.js:27 | `a@b.c`, with non-empty parts without whitespace, passes the email test |
| `InterestForm.EmailLikeShape` | client/src/components/InterestForm.js:27 | an address that passes has an `@` after its first character and a `.` after that, before its last character |
| `InterestForm.NoAtNoEmail` | client/src/components/InterestForm.js:27 | an address without `@` fails the email test |
| `InterestForm.Validate` | client/src/components/InterestForm.js:23-39 | the checks run in order (both fields present, email shape, message within 180 UTF-16 code units, empty honeypot), and each error is reported exactly when the earlier checks passed and its own check failed |
| `InterestForm.InterestForm.HandleSubmit` | client/src/components/InterestForm.js:17-58 | an invalid form shows its error and sends nothing; otherwise the farmer is sent, success clears the fields, and a failure or a throw keeps them and shows its message |
| `PlaySelectParent.ProcessLabel` | client/src/components/PlaySelectParent.js:178-180 | the button label is never empty |
| `PlaySelectParent.ProcessLabelPlural` | client/src/components/PlaySelectParent.js:178-180 | the label reads `Process <n> Playlist`, with a final `s` exactly when n is not 1 |
| `PlaySelectParent.PlaySelectParent.FetchUserPlaylists` | client/src/components/PlaySelectParent.js:15-33 | a signed-in user's playlists replace the list when the server returns them; otherwise the load error is set |
| `PlaySelectParent.PlaySelectParent.HandleToggleSelection` | client/src/components/PlaySelectParent.js:35-39 | a click toggles the playlist in the selection and leaves the other playlists |
| `PlaySelectParent.PlaySelectParent.HandleConfirm` | client/src/components/PlaySelectParent.js:136-142 | an empty selection alerts; otherwise the confirmation opens |
| `PlaySelectParent.PlaySelectParent.HandleCancelConfirmation` | client/src/components/PlaySelectParent.js:144-148 | only a click on the overlay closes the confirmation |
| `PlaySelectParent.PlaySelectParent.HandleProcessAndDownload` | client/src/components/PlaySelectParent.js:41-75 | the package request is sent for a signed-in user. A download starts, the selection clears and the success message counts the playlists exactly when the answer succeeded with a URL and a name; otherwise an alert is shown |
| `PlaySelectParent.PlaySelectParent.HandleCreateFile` | client/src/components/PlaySelectParent.js:78-134 | no user or no selection alerts without a request; otherwise the render request is sent, its output is shown when there is one, and each failure has its alert |
| `ProgPlayBin.ValidPlaylists` | client/src/components/ProgPlayBin.js:22-24 | only playlists with a non-empty `playlistsFile` are listed |
| `ProgPlayBin.ValidPlaylistsFixed` | client/src/components/ProgPlayBin.js:22-24 | a list whose playlists all hold files is kept whole |
| `ProgPlayBin.ProgPlayBin.FetchUserPlaylists` | client/src/components/ProgPlayBin.js:14-39 | a successful answer lists the valid playlists; a failed answer or a throw keeps the list and sets its error |
| `ProgPlayBin.ProgPlayBin.TogglePlaylistSelection` | client/src/components/ProgPlayBin.js:42-47 | a click toggles the playlist in the selection and leaves the others |
| `ProgPlayBin.ProgPlayBin.HandleApplyProgram` | client/src/components/ProgPlayBin.js:52-79 | the apply request is sent exactly when the button is enabled (a program and at least one playlist, line 99) and a user is signed in. The program is applied exactly when the server reports success, and each failure sets its error |
| `ProgrammingDisplay.Ids` | client/src/components/ProgrammingDisplay.js:172 | the order sent to the server lists each program's id in list order |
| `ProgrammingDisplay.IdsMove` | client/src/components/ProgrammingDisplay.js:156-176 | moving programs moves their ids the same way, so the order sent is a permutation of the old one |
| `ProgrammingDisplay.SetSlotOnly` | client/src/components/ProgrammingDisplay.js:74-84 | updating a slot position changes only that file in the selected program |
| `ProgrammingDisplay.DropFileOnly` | client/src/components/ProgrammingDisplay.js:121-135 | deleting a file removes it from every folder of the selected program only, and leaves the other programs unchanged |
| `ProgrammingDisplay.DetailsList` | client/src/components/ProgrammingDisplay.js:274-278 | a program with a folder lists its first folder's files as a permutation sorted by slot position; a program without folders has no list |
| `ProgrammingDisplay.ProgrammingDisplay.FetchPrograms` | client/src/components/ProgrammingDisplay.js:21-48 | a returned list replaces the programs and hides every program's details; a throw sets the load error |
| `ProgrammingDisplay.ProgrammingDisplay.HandleDragStart` | client/src/components/ProgrammingDisplay.js:152-154 | the dragged index is recorded |
| `ProgrammingDisplay.DragOverAsWritten` | client/src/components/ProgrammingDisplay.js:156-166 | the drag-over as written: with a dragged row, the move of that program to the hovered row; with none, the first program is cut and a hole put in at the hovered row, same length |
| `ProgrammingDisplay.ExternalDragOverLosesFirst` | client/src/components/ProgrammingDisplay.js:156-166 | an outside drag over a row leaves a hole and loses the first program when it is not repeated |
| `ProgrammingDisplay.ProgrammingDisplay.HandleDragOver` | client/src/components/ProgrammingDisplay.js:156-166 | a drag from a row moves that program to the hovered index, which becomes the dragged index: a permutation with that program at the index and the list the source produces (`DragOverAsWritten`); a drag that did not start in the list changes nothing (see Findings) |
| `ProgrammingDisplay.ProgrammingDisplay.HandleDragEnd` | client/src/components/ProgrammingDisplay.js:168-181 | the drag ends and the current order of ids is sent; a throw sets the order error |
| `ProgrammingDisplay.ProgrammingDisplay.ToggleDetails` | client/src/components/ProgrammingDisplay.js:192-197 | the program's details flag flips, an unseen program's flag turns on, and the other flags are untouched |
| `ProgrammingDisplay.ProgrammingDisplay.HandleSelectProgram` | client/src/components/ProgrammingDisplay.js:183-190 | the program is selected and its details flag flips |
| `ProgrammingDisplay.ProgrammingDisplay.HandleSlotPositionLabelClick` | client/src/components/ProgrammingDisplay.js:199-202 | editing starts on the file, with its current slot position or empty |
| `ProgrammingDisplay.ProgrammingDisplay.HandleSlotPositionChange` | client/src/components/ProgrammingDisplay.js:56-58 | typing sets the new slot position |
| `ProgrammingDisplay.ProgrammingDisplay.HandleSlotPositionUpdate` | client/src/components/ProgrammingDisplay.js:60-110 | an entry that is neither empty nor one letter, or no selected program, sets an error without a request. Otherwise the check is sent, the update is saved only when the check succeeds, and the file's slot changes in the selected program only |
| `ProgrammingDisplay.ProgrammingDisplay.HandleDeleteFile` | client/src/components/ProgrammingDisplay.js:112-150 | without a selected program nothing is sent. Otherwise the delete is sent with the user, program, file id and key, and only a successful answer drops the file from that program and hides its details |
| `ProgrammingPlay.NextStatus` | client/src/components/ProgrammingPlay.js:187-199 | a click moves a slot's status from none to green to red and back to none |
| `ProgrammingPlay.StatusCycle` | client/src/components/ProgrammingPlay.js:187-199 | three clicks bring a slot back to its status |
| `ProgrammingPlay.SetPosition` | client/src/components/ProgrammingPlay.js:175-179 | only the slot with that id takes the new position |
| `ProgrammingPlay.CheckReply` | client/src/components/ProgrammingPlay.js:160-183 | the slot check clears the error exactly when a signed-in user's check succeeded; a failure shows the server's error or the duplicate message, and a throw or no user shows the check error |
| `ProgrammingPlay.LoweredEntryPasses` | client/src/components/ProgrammingPlay.js:141-143 | the entry is lower-cased before the check, so a capital or the Kelvin sign passes as the lower-case letter |
| `ProgrammingPlay.ProgramIdFor` | client/src/components/ProgrammingPlay.js:219-220 | an existing title reuses the id of the first program with that title, and a new title gets the fresh id |
| `ProgrammingPlay.Positions` | client/src/components/ProgrammingPlay.js:223 | the positions checked for duplicates are never empty |
| `ProgrammingPlay.PositionsMembers` | client/src/components/ProgrammingPlay.js:223 | a position is checked exactly when it is the non-empty trimmed position of some slot |
| `ProgrammingPlay.PositionsDistinct` | client/src/components/ProgrammingPlay.js:223-229 | the positions are distinct exactly when no two slots share a non-empty position |
| `ProgrammingPlay.DuplicateTest` | client/src/components/ProgrammingPlay.js:224-229 | comparing the size of the set with the length of the list detects exactly the shared positions |
| `ProgrammingPlay.UploadedFiles` | client/src/components/ProgrammingPlay.js:232-268 | each saved file keeps its slot's position and `seqPos`, has the trimmed, underscored name, and takes the signed key and the encoded URL |
| `ProgrammingPlay.FilledHaveFiles` | client/src/components/ProgrammingPlay.js:232-233 | the slots that are uploaded all hold a file |
| `ProgrammingPlay.UploadAttempt` | client/src/components/ProgrammingPlay.js:214-289 | a program is saved exactly when the user is signed in, no position is shared and every filled slot uploaded. The form resets exactly when the save and the extraction did not throw; otherwise the duplicate or the upload error is shown |
| `ProgrammingPlay.FilledAreAllFiles` | client/src/components/ProgrammingPlay.js:232-234 | when every dropped file has the chosen kind, every slot with a file is uploaded |
| `ProgrammingPlay.ProgrammingPlay.constructor` | client/src/components/ProgrammingPlay.js:56-69 | the page starts with one empty slot at `seqPos` 1, no title, no kind and private access |
| `ProgrammingPlay.ProgrammingPlay.FetchProgramTitles` | client/src/components/ProgrammingPlay.js:70-84 | a signed-in user's answer replaces the titles, an empty answer gives none, and a throw keeps them |
| `ProgrammingPlay.ProgrammingPlay.SetTitle` | client/src/components/ProgrammingPlay.js:301 | typing sets the program title |
| `ProgrammingPlay.ProgrammingPlay.AddSlot` | client/src/components/ProgrammingPlay.js:86-110 | with an error showing nothing changes; without a file kind yet the need-file error is set; otherwise an empty slot numbered after the last is appended |
| `ProgrammingPlay.ProgrammingPlay.HandleDrop` | client/src/components/ProgrammingPlay.js:112-137 | a file that is neither audio nor video, or of the other kind, sets its error and changes no slot. Otherwise the file goes into its slot only, the slot turns green, and the kind is fixed |
| `ProgrammingPlay.ProgrammingPlay.HandleSlotPositionChange` | client/src/components/ProgrammingPlay.js:140-184 | a value that is not empty or one letter after lowering and trimming sets the position error. Otherwise the check is sent for a signed-in user, and the slot takes the value only when the check clears the error |
| `ProgrammingPlay.ProgrammingPlay.HandleClickSlot` | client/src/components/ProgrammingPlay.js:187-199 | only the clicked slot's status advances |
| `ProgrammingPlay.ProgrammingPlay.HandleFileUpload` | client/src/components/ProgrammingPlay.js:202-290 | an empty trimmed title or no dropped file sets its error without a save; otherwise the upload does what `UploadAttempt` says, and the form resets or shows its message |
| `ProjectFiles.RenumberedSorted` | client/src/components/ProjectFiles.js:84-91 | renumbering gives a list already sorted by `seqPos`, so sorting it again changes nothing |
| `ProjectFiles.TitleOf` | client/src/components/ProjectFiles.js:33-39 | the title is the first file's project title, or `Untitled Project` when there are no files |
| `ProjectFiles.Failure` | client/src/components/ProjectFiles.js:41-43 | the error shown is the thrown message, or the fallback when it is empty |
| `ProjectFiles.ProjectFiles.FetchProjectFiles` | client/src/components/ProjectFiles.js:24-46 | a signed-in user's answer replaces the files and the title; a failure or no user sets the error; loading ends either way |
| `ProjectFiles.ProjectFiles.FetchPlaylistFiles` | client/src/components/ProjectFiles.js:49-71 | a signed-in user's answer replaces the playlist, an answer without one empties it, and a failure sets the error |
| `ProjectFiles.ProjectFiles.OnSave` | client/src/components/ProjectFiles.js:81-112 | a signed-in user's reordered files are saved renumbered from 1, and the playlist is replaced by them exactly when the save succeeded |
| `ProjectFiles.RemoveFile` | client/src/components/ProjectFiles.js:114-125 | the delete is sent exactly when a user is signed in, and the list is refreshed exactly when it answered |

## Left out

- The S3 client, presigned URLs, `fetch` and `node-fetch`, the MongoDB driver, `archiver`, temporary files and the ffmpeg/ffprobe processes are not modelled. How each call ended (a flag, a probe record, a downloaded or appended flag) is a parameter.
- `Promise.all` fan-out is modelled as the handlers running one after another, in an order given as a parameter; the handlers' steps are not interleaved. `/transfer-to-playlist` (api/fileRoutes.js:1121-1180) and `/apply-program` (api/s3routes.js:1563-1655) take the order in which their handlers finish, which takes each item or playlist exactly once (`Store.FinishOrder`). `/package-playlists` (api/fileRoutes.js:852-892) takes, for each playlist, the order in which its successful fetches reach `archive.append` (`Package.CompletionOrder`). The client upload batches only collect results, in request order, as `Promise.all` does. The 60 s and 3600 s URL expiries are not modelled.
- ApplyProgram.ApplyFiles: when several files of one playlist fail, `Promise.all` rejects with the failure that happens first in time, and the playlist's error names that file's key. The model reports the first failure in file order, and applies the files' bucket commands in file order. Whether the playlist fails, and its new list, do not depend on that order.
- Strings.ToLower: only `A`–`Z` and the Kelvin sign U+212A are lowered; every other character is kept. JavaScript also lowers other non-ASCII letters (and maps U+0130 to two characters). Only the ASCII result matters to the one caller (client/src/components/ProgrammingPlay.js:141), which then requires a single letter `a`–`z`, and no other character lowers to one.
- PackagePlaylists: a project that has no `playlistsFile` field (every project /save-file-keys creates, api/s3routes.js:200-206) makes `.sort` throw (api/fileRoutes.js:850) and the route answer 500 (927-929). The document here cannot tell a missing array from an empty one, so the model packages such a playlist as empty.
- PyRenderPlaylist: a project without `playlistsFile` raises `KeyError` (api/app.py:151) and the route answers 500 (213-216); the model reads the missing field as an empty playlist.
- S3ProgramRoutes.UpdateProgramOrder: a document that has no `Programming` field yet makes `.find` throw for a non-empty order (api/s3routes.js:1510-1512), a 500. The model reads the missing field as an empty list and answers `OrderSavedWithNull`.
- S3ProgramRoutes.UpdateProgramOrder: when some id of the order finds no program, the server stores an array with a `null` in its place. The document here cannot hold a hole, so the state is left as it was and the array that would be stored is returned in the outcome (`OrderSavedWithNull`).
- `encodeURIComponent`, `decodeURIComponent` and `encodeURI` are uninterpreted parameters; only their success or failure matters to the routes.
- `uuidv4`, `Date.now`, ISO timestamps and date formatting (client/src/components/RenderFiles.js:66-78) are opaque inputs.
- SlotOrder.SortBySlot: `localeCompare` is modelled as code-point order. The two agree on the values the validators admit (`''` and one letter `a`–`z`), but not on arbitrary stored strings.
- Probe durations and frame rates are carried as opaque strings; no floating-point arithmetic is modelled.
- MongoDB's `modifiedCount` is modelled as whether the update changed the document. Its internals are not modelled: an identical `$set`, or an upsert that inserts, both count 0 (api/s3routes.js:754, 1078).
- The `accessType` enum of api/models/File.js is not modelled as a type. The routes write through the raw collection, so any string is stored as given. The Mongoose schema is not part of this model.
- Express and Flask setup (api/app.js), SMTP (api/src/emailService.js) and the HTTP wrappers (client/src/utils/apiHelper.js, client/src/utils/pythonApiHelper.js) are not part of this model. A client handler sees each request only through a parameter, usually a `Call<T>` that either threw or returned a body.
- Presentation is not modelled: routing and navigation (client/src/components/PlaylistDisplay.js:17-19), CSS, previews (`URL.createObjectURL`), console logging, the BigFile timers (client/src/components/BigFile.js:205-212), and the DOM link behind a download. Alerts and confirm dialogs appear as returned messages and boolean parameters.
- These component files are presentation or wiring, and are not part of this model: PodServ.js, Home.js, Header.js, Nav.js, Footer.js, themes/AccentColor.js, Settings.js, ProjectTitleInput.js, ErrorsDisplay.js, AccessTypeSelection.js, and client/src/App.js.
- BigFile's `handleDownload` and `handleDelete` (client/src/components/BigFile.js:57-118) only call a route and navigate, so they are not modelled; the routes they call are.
- Further handlers that only fetch, refresh or relay are not modelled: RenderFiles' `fetchRenderFiles` and `handleDownload` (client/src/components/RenderFiles.js:15-56), Dropzone's `getUserFiles` and `removeProject` (client/src/components/Dropzone.js:29-71), and ProgrammingDisplay's `onApplyProgram` (client/src/components/ProgrammingDisplay.js:204-240), which forwards to `/apply-program`.
- PlaylistDisplay.TextIndex: text with a decimal point, an exponent, a `0x`/`0o`/`0b` prefix or `Infinity` is read as NaN (0); JavaScript reads those as numbers. Only drops of such text from outside the list are affected.
- ProgrammingDisplay.ProgrammingDisplay.HandleDragOver: the dragged index is taken to be a row of the current list (it is set from a row by `handleDragStart`); a list that shrinks during a drag is not modelled.
- React's asynchronous state updates are not modelled. Each handler runs to completion on the state it started from, and events arriving while a request is awaited are not interleaved.

## Findings

| source | as written | input that shows it | evidently intended | confidence | as-written member | corrected member |
|---|---|---|---|---|---|---|
| client/src/components/PlaylistDisplay.js:25-33 | the dragged index is read back from `text/plain` and handed to `splice` unchecked | a file dragged from the desktop, or plain text, dropped on row 1 of a playlist whose first two files differ: `getData` gives `""`, `splice` reads 0, and the first file moves to row 1 | a drop that carries no row index is ignored | medium, not executed | `PlaylistDisplay.DropAsWritten`, `PlaylistDisplay.ForeignDropMovesFirst` | `PlaylistDisplay.PlaylistDisplay.HandleDrop` |
| client/src/components/ProgrammingDisplay.js:156-166 | `handleDragOver` runs with `draggedProgramIndex === null` | a file dragged from the desktop over row 1 of the program list: `splice(null, 1)` cuts program 0 and `undefined` goes in at row 1, which the next render dereferences | a drag over a row is ignored unless it started in the list | medium, not executed | `ProgrammingDisplay.DragOverAsWritten`, `ProgrammingDisplay.ExternalDragOverLosesFirst` | `ProgrammingDisplay.ProgrammingDisplay.HandleDragOver` |
