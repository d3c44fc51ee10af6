/** The new-project form of client/src/components/Dropzone.js: files are
    dropped, each is uploaded through a signed URL, the keys of the uploads
    that succeeded are saved under a sanitised project title, metadata
    extraction is started, and the form is reset for the next project. */
module Dropzone {
  import opened JsValues
  import opened Strings
  import opened Client
  import opened FileNames

  /** What `uploadToS3` resolves to: the object key and the sanitised name. */
  datatype FileKey = FileKey(key: string, fileName: string)

  /** The body of `/save-file-keys`. */
  datatype SaveFileKeys = SaveFileKeys(fileKeys: seq<FileKey>, accessType: string, userId: string,
                                       projectId: string, projectTitle: string)

  /** `uploadToS3`: `null` when signing threw or gave no URL or key, or the
      PUT was not ok; otherwise the key and the sanitised file name. */
  function UploadToS3(file: LocalFile, signed: Call<Signed>, putOk: bool): (r: Option<FileKey>)
    ensures r.Some? <==>
      signed.Returned? && signed.body.url != "" && signed.body.key.Str? && signed.body.key.s != "" && putOk
    ensures r.Some? ==> r.value.key == signed.body.key.s && AllSafe(r.value.fileName)
  {
    if signed.Threw? || !Truthy(Str(signed.body.url)) || !Truthy(signed.body.key) || !signed.body.key.Str? then None
    else if !putOk then None
    else Some(FileKey(signed.body.key.s, SanitizeFileName(file.name)))
  }

  /** `files.map(file => uploadToS3(file, accessType))`, awaited. */
  function Uploads(files: seq<LocalFile>, signed: seq<Call<Signed>>, putOk: seq<bool>): (r: seq<Option<FileKey>>)
    requires |signed| == |files| && |putOk| == |files|
  {
    seq(|files|, i requires 0 <= i < |files| => UploadToS3(files[i], signed[i], putOk[i]))
  }

  /** `.filter(Boolean)`: the uploads that did not resolve to `null`, in order. */
  function Fulfilled(rs: seq<Option<FileKey>>): (r: seq<FileKey>)
    ensures |r| <= |rs|
    ensures forall k :: k in r <==> Some(k) in rs
  {
    if rs == [] then []
    else
      assert forall x :: x in rs <==> x == rs[0] || x in rs[1..];
      if rs[0].Some? then [rs[0].value] + Fulfilled(rs[1..]) else Fulfilled(rs[1..])
  }

  class Dropzone {
    var files: seq<LocalFile>
    var uploading: bool
    var accessType: string
    var projectTitle: string
    var titleError: string
    var projectId: string

    /** A fresh form gets a fresh `uuidv4()` as its project id. */
    constructor (freshId: string)
      ensures files == [] && !uploading && accessType == "private"
      ensures projectTitle == "" && titleError == "" && projectId == freshId
    {
      files := [];
      uploading := false;
      accessType := "private";
      projectTitle := "";
      titleError := "";
      projectId := freshId;
    }

    /** `onDrop`: accepted files are appended to those already picked. */
    method OnDrop(accepted: seq<LocalFile>)
      modifies this
      ensures files == old(files) + accepted
      ensures uploading == old(uploading) && accessType == old(accessType) && projectTitle == old(projectTitle)
      ensures titleError == old(titleError) && projectId == old(projectId)
    {
      files := files + accepted;
    }

    /** `handleSubmit`. A blank title is refused with an error; with no file
        or no user nothing is sent. Otherwise the valid uploads are saved
        under the title with whitespace runs replaced by `_`, and once both
        the save and the extraction request went through, the form is
        emptied and given a new project id. Uploading always ends false. */
    method HandleSubmit(userId: string, signed: seq<Call<Signed>>, putOk: seq<bool>,
                        saveThrew: bool, extractThrew: bool, freshId: string)
      returns (save: Option<SaveFileKeys>)
      requires |signed| == |files| && |putOk| == |files|
      modifies this
      ensures !uploading && accessType == old(accessType)
      ensures titleError == if Trim(old(projectTitle)) == [] then "Project title is required" else ""
      ensures save.Some? <==>
        Trim(old(projectTitle)) != [] && old(files) != [] && SignedIn(userId) &&
        Fulfilled(Uploads(old(files), signed, putOk)) != []
      ensures save.Some? ==>
        save.value == SaveFileKeys(Fulfilled(Uploads(old(files), signed, putOk)), old(accessType), userId,
                                   old(projectId), CollapseSpaces(Trim(old(projectTitle)))) &&
        NoSpace(save.value.projectTitle)
      ensures save.Some? && !saveThrew && !extractThrew ==>
        files == [] && projectTitle == "" && projectId == freshId
      ensures !(save.Some? && !saveThrew && !extractThrew) ==>
        files == old(files) && projectTitle == old(projectTitle) && projectId == old(projectId)
    {
      save := None;
      uploading := true;
      if Trim(projectTitle) == [] {
        titleError := "Project title is required";
        uploading := false;
        return;
      }
      titleError := "";
      var sanitizedProjectTitle := CollapseSpaces(Trim(projectTitle));
      CollapseSpacesNoSpace(Trim(projectTitle));
      if files == [] {
        uploading := false;
        return;
      }
      if !SignedIn(userId) {
        uploading := false;
        return;
      }
      var validFileData := Fulfilled(Uploads(files, signed, putOk));
      if validFileData == [] {
        uploading := false;
        return;
      }
      save := Some(SaveFileKeys(validFileData, accessType, userId, projectId, sanitizedProjectTitle));
      if saveThrew || extractThrew {
        uploading := false;
        return;
      }
      files := [];
      projectTitle := "";
      projectId := freshId;
      uploading := false;
    }
  }

  /** Only uploads that succeeded are saved, and every one of them is. */
  lemma SavedAreUploaded(files: seq<LocalFile>, signed: seq<Call<Signed>>, putOk: seq<bool>, k: FileKey)
    requires |signed| == |files| && |putOk| == |files|
    ensures k in Fulfilled(Uploads(files, signed, putOk)) <==>
      exists i :: 0 <= i < |files| && UploadToS3(files[i], signed[i], putOk[i]) == Some(k)
  {
    var us := Uploads(files, signed, putOk);
    if Some(k) in us {
      var i :| 0 <= i < |us| && us[i] == Some(k);
      assert UploadToS3(files[i], signed[i], putOk[i]) == Some(k);
    } else {
      forall i | 0 <= i < |files| ensures UploadToS3(files[i], signed[i], putOk[i]) != Some(k) {
        assert us[i] == UploadToS3(files[i], signed[i], putOk[i]);
      }
    }
  }
}
