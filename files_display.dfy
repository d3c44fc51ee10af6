/** The file list of a project, client/src/components/FilesDisplay.js.
    Clicking a file flips its selection and counts the click; the third
    click in a row asks whether to delete it. The selected files are sent
    to `/transfer-to-playlist`. */
module FilesDisplay {
  import opened JsValues
  import opened Strings
  import opened Mongo
  import opened Store
  import opened Client
  import FileRoutes

  /** `newCounts.get(fileId) || 0`. */
  function Count(counts: map<string, nat>, id: string): nat
  {
    if id in counts then counts[id] else 0
  }

  /** This click is the one that asks for confirmation. */
  predicate Asks(counts: map<string, nat>, id: string)
  {
    Count(counts, id) >= 2
  }

  /** The click counts after a click on `id`: the entry is removed after
      the asking click, bumped otherwise; other entries are untouched. */
  function CountAfter(counts: map<string, nat>, id: string): (r: map<string, nat>)
    ensures Asks(counts, id) ==> id !in r
    ensures !Asks(counts, id) ==> Count(r, id) == Count(counts, id) + 1
    ensures forall x :: x != id ==> (x in r <==> x in counts) && (x in r ==> r[x] == counts[x])
  {
    if Asks(counts, id) then counts - {id} else counts[id := Count(counts, id) + 1]
  }

  /** Two clicks on a file never ask; the third asks and forgets the count,
      so a fourth click starts over. */
  lemma ThirdClickAsks(counts: map<string, nat>, id: string)
    requires id !in counts
    ensures var c1 := CountAfter(counts, id);
            var c2 := CountAfter(c1, id);
      !Asks(counts, id) && !Asks(c1, id) && Asks(c2, id) && CountAfter(c2, id) == counts
  {
    var c1 := CountAfter(counts, id);
    var c2 := CountAfter(c1, id);
    assert Count(c2, id) == 2;
    assert CountAfter(c2, id) == counts;
  }

  /** `selectedFiles` after a click on `id`. */
  function Flip(sel: set<string>, id: string): (r: set<string>)
    ensures id in r <==> id !in sel
    ensures forall x :: x != id ==> (x in r <==> x in sel)
  {
    if id in sel then sel - {id} else sel + {id}
  }

  function InSelection(sel: set<string>): FileRecord -> bool
  {
    (f: FileRecord) => f.fileId in sel
  }

  /** The transfer entry of the `index`-th selected file. The positions and
      `createdAt` that are sent besides are ignored by the route. */
  function TransferItemOf(f: FileRecord, userId: string, projectId: string): (t: FileRoutes.TransferItem)
    ensures t.sourceKey == f.key && t.fileName == f.fileName && t.slotPosition == Str("")
  {
    FileRoutes.TransferItem(userId, projectId, f.key, ReplaceFirst(f.key, "files/", "playlists/"), f.fileName,
                            Str(""), f.duration, f.frameRate, f.resolution)
  }

  class FilesDisplay {
    const projectId: string
    const theId: string
    var uploading: bool
    var selected: set<string>
    var clickCounts: map<string, nat>

    constructor (projectId: string, theId: string)
      ensures this.projectId == projectId && this.theId == theId
      ensures !uploading && selected == {} && clickCounts == map[]
    {
      this.projectId := projectId;
      this.theId := theId;
      uploading := false;
      selected := {};
      clickCounts := map[];
    }

    /** `handleMultiFileSelect`: `removed` says whether `onRemove(fileId)`
        was called, which happens on the asking click when the user
        confirms. The selection flips on every click. */
    method HandleMultiFileSelect(fileId: string, confirmed: bool) returns (removed: bool)
      modifies this
      ensures clickCounts == CountAfter(old(clickCounts), fileId)
      ensures removed <==> Asks(old(clickCounts), fileId) && confirmed
      ensures selected == Flip(old(selected), fileId)
      ensures uploading == old(uploading)
    {
      var count := if fileId in clickCounts then clickCounts[fileId] else 0;
      removed := false;
      if count >= 2 {
        if confirmed {
          removed := true;
        } else {
          clickCounts := clickCounts[fileId := 1];
        }
        clickCounts := clickCounts - {fileId};
      } else {
        clickCounts := clickCounts[fileId := count + 1];
      }
      if fileId in selected {
        selected := selected - {fileId};
      } else {
        selected := selected + {fileId};
      }
    }

    /** A click outside every file forgets counts and selection. */
    method HandleClickOutside()
      modifies this
      ensures clickCounts == map[] && selected == {} && uploading == old(uploading)
    {
      clickCounts := map[];
      selected := {};
    }

    /** `handleAddToPlaylist`: with nothing selected no request is made.
        Otherwise the selected files, in list order, go to
        `/transfer-to-playlist`; once the route reports success the
        playlist is refreshed and the selection cleared. */
    method HandleAddToPlaylist(files: seq<FileRecord>, success: Call<bool>)
      returns (request: Option<seq<FileRoutes.TransferItem>>, refreshed: bool)
      modifies this
      ensures old(selected) == {} ==> request.None? && !refreshed && selected == {} && uploading == old(uploading)
      ensures old(selected) != {} ==>
        request.Some? && !uploading &&
        var chosen := Keep(files, InSelection(old(selected)));
        |request.value| == |chosen| &&
        (forall i :: 0 <= i < |chosen| ==> request.value[i] == TransferItemOf(chosen[i], theId, projectId))
      ensures refreshed <==> old(selected) != {} && success == Returned(true)
      ensures selected == if refreshed then {} else old(selected)
      ensures clickCounts == old(clickCounts)
    {
      request, refreshed := None, false;
      if selected == {} {
        return;
      }
      uploading := true;
      var filesToTransfer := Keep(files, InSelection(selected));
      var userId, pid := theId, projectId;
      var payload := seq(|filesToTransfer|, i requires 0 <= i < |filesToTransfer| =>
        TransferItemOf(filesToTransfer[i], userId, pid));
      request := Some(payload);
      if success == Returned(true) {
        refreshed := true;
        selected := {};
      }
      uploading := false;
    }
  }

  /** Every transferred file was selected and comes from the list, and every
      selected file of the list is transferred. */
  lemma TransferIsSelection(files: seq<FileRecord>, sel: set<string>, f: FileRecord)
    ensures f in Keep(files, InSelection(sel)) <==> f in files && f.fileId in sel
  {
    KeepMembers(files, InSelection(sel));
  }

  /** The copy of an upload key `users/{u}/projects/{p}/files/{name}` is
      `users/{u}/projects/{p}/playlists/{name}`, when neither id contains
      `files/`. */
  lemma TransferDestination(f: FileRecord, userId: string, projectId: string, owner: string, rest: string)
    requires f.key == "users/" + owner + "/projects/" + projectId + "/files/" + rest
    requires forall k :: 0 <= k < |"users/" + owner + "/projects/" + projectId + "/"| ==>
      !OccursAt("users/" + owner + "/projects/" + projectId + "/" + "files/", "files/", k)
    ensures TransferItemOf(f, userId, projectId).destinationKey ==
      "users/" + owner + "/projects/" + projectId + "/playlists/" + rest
  {
    var folder := "users/" + owner + "/projects/" + projectId + "/";
    assert "/files/" == "/" + "files/" && "/playlists/" == "/" + "playlists/";
    assert f.key == folder + "files/" + rest;
    ReplaceFirstAfter(folder, "files/", "playlists/", rest);
    assert folder + "playlists/" + rest == "users/" + owner + "/projects/" + projectId + "/playlists/" + rest;
  }
}
