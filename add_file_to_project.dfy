/** The add-files form of a project page, client/src/components/AddFileToProject.js:
    every picked file is uploaded through `/new-s3-url`; only when all of
    them went up are their records saved with `/new-save-file-keys`,
    numbered 1, 2, … in pick order. The form is emptied afterwards in
    every case. */
module AddFileToProject {
  import opened JsValues
  import opened Client
  import opened FileNames

  /** One element of `files` in the `/new-save-file-keys` body. */
  datatype NewFile = NewFile(key: JsVal, fileName: string, url: string, seqPos: nat, slotPosition: JsVal,
                             accessType: string)

  datatype NewSaveFileKeys = NewSaveFileKeys(files: seq<NewFile>, accessType: string, userId: string,
                                             projectId: string)

  /** Every upload succeeded: signing returned and the PUT was ok. */
  predicate AllUploaded(signed: seq<Call<Signed>>, putOk: seq<bool>)
    requires |putOk| == |signed|
  {
    forall i :: 0 <= i < |signed| ==> signed[i].Returned? && putOk[i]
  }

  class AddFileToProject {
    const projectId: string
    var files: seq<LocalFile>
    var uploading: bool
    var accessType: string

    constructor (projectId: string)
      ensures this.projectId == projectId && files == [] && !uploading && accessType == "private"
    {
      this.projectId := projectId;
      files := [];
      uploading := false;
      accessType := "private";
    }

    /** `onDrop`: a new pick replaces the previous one. */
    method OnDrop(accepted: seq<LocalFile>)
      modifies this
      ensures files == accepted && uploading == old(uploading) && accessType == old(accessType)
    {
      files := accepted;
    }

    /** `handleFileUpload`. Nothing happens without files. Otherwise, with
        a user and every upload successful, the records are saved: the
        `i`-th file gets `seqPos` `i + 1`, no slot, and its name without
        whitespace and unsafe characters. `onFileUploadSuccess` runs when
        the save answered with a message and the extraction request went
        through, whatever the extraction reported. */
    method HandleFileUpload(userId: string, signed: seq<Call<Signed>>, putOk: seq<bool>,
                            saveMessage: Call<bool>, extractThrew: bool)
      returns (save: Option<NewSaveFileKeys>, notified: bool)
      requires |signed| == |files| && |putOk| == |files|
      modifies this
      ensures old(files) == [] ==> save.None? && !notified && files == [] && uploading == old(uploading)
      ensures old(files) != [] ==> files == [] && !uploading
      ensures accessType == old(accessType)
      ensures save.Some? <==> old(files) != [] && SignedIn(userId) && AllUploaded(signed, putOk)
      ensures save.Some? ==>
        var s := save.value;
        s.accessType == accessType && s.userId == userId && s.projectId == projectId &&
        |s.files| == |old(files)| &&
        forall i :: 0 <= i < |s.files| ==>
          s.files[i] == NewFile(signed[i].body.key, SanitizeUntrimmed(old(files)[i].name), signed[i].body.url,
                                i + 1, Null, accessType)
      ensures notified <==> save.Some? && saveMessage == Returned(true) && !extractThrew
    {
      save, notified := None, false;
      if files == [] {
        return;
      }
      uploading := true;
      if !SignedIn(userId) || !AllUploaded(signed, putOk) {
        uploading := false;
        files := [];
        return;
      }
      var picked, access := files, accessType;
      var uploaded := seq(|picked|, i requires 0 <= i < |picked| =>
        NewFile(signed[i].body.key, SanitizeUntrimmed(picked[i].name), signed[i].body.url, i + 1, Null, access));
      save := Some(NewSaveFileKeys(uploaded, accessType, userId, projectId));
      notified := saveMessage == Returned(true) && !extractThrew;
      uploading := false;
      files := [];
    }
  }
}
