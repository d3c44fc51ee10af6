/** The project page, client/src/components/ProjectFiles.js: it loads the
    project's files and its playlist, and saves a reordered playlist with
    every entry renumbered by its new position. */
module ProjectFiles {
  import opened JsValues
  import opened Store
  import opened Client
  import opened SeqPosOrder

  /** The numbers `onSave` gives (Store.Renumbered) are 1, 2, … in list
      order, so the routes' sort by `seqPos` keeps the order the user saved. */
  lemma {:induction false} RenumberedSorted(files: seq<FileRecord>)
    ensures Sorted(Renumbered(files))
    ensures SortBySeqPos(Renumbered(files)) == Renumbered(files)
  {
    KeysSorted(Renumbered(files), 1);
    SortSorted(Renumbered(files));
  }

  lemma {:induction false} KeysSorted(s: seq<FileRecord>, start: int)
    requires forall i :: 0 <= i < |s| ==> s[i].seqPos == Num(start + i)
    ensures Sorted(s)
    decreases |s|
  {
    if |s| > 1 {
      KeysSorted(s[1..], start + 1);
    }
  }

  /** What the page shows as the project's title: the first file's, or a
      default when there are none. */
  function TitleOf(files: seq<FileRecord>): (t: string)
    ensures files != [] ==> t == files[0].projectTitle
    ensures files == [] ==> t == "Untitled Project"
  {
    if files != [] then files[0].projectTitle else "Untitled Project"
  }

  /** The body of `/save-reordered-play`. */
  datatype SaveReordered = SaveReordered(projectId: string, files: seq<FileRecord>, userId: string)

  /** A failure's message or the fallback (`error.message || fallback`). */
  function Failure(thrown: string, fallback: string): (m: string)
    ensures thrown != "" ==> m == thrown
    ensures thrown == "" ==> m == fallback
  {
    if thrown != "" then thrown else fallback
  }

  class ProjectFiles {
    const projectId: string
    var projectFiles: seq<FileRecord>
    var playList: seq<FileRecord>
    var projectTitle: string
    var loading: bool
    var error: Option<string>

    constructor (projectId: string)
      ensures this.projectId == projectId && projectFiles == [] && playList == [] && projectTitle == ""
      ensures loading && error.None?
    {
      this.projectId := projectId;
      projectFiles := [];
      playList := [];
      projectTitle := "";
      loading := true;
      error := None;
    }

    /** `fetchProjectFiles`. `response` is the answer's `files`, `None` when
        the request or the read of `files` threw with the message `thrown`. */
    method FetchProjectFiles(userId: string, response: Option<seq<FileRecord>>, thrown: string)
      modifies this
      ensures !loading
      ensures SignedIn(userId) && response.Some? ==>
        projectFiles == response.value && projectTitle == TitleOf(response.value) && error == old(error)
      ensures SignedIn(userId) && response.None? ==>
        projectFiles == old(projectFiles) && projectTitle == old(projectTitle) &&
        error == Some(Failure(thrown, "Failed to load project files"))
      ensures !SignedIn(userId) ==>
        projectFiles == old(projectFiles) && projectTitle == old(projectTitle) && error == Some("User not authenticated")
      ensures playList == old(playList)
    {
      if !SignedIn(userId) {
        error := Some("User not authenticated");
      } else if response.None? {
        error := Some(Failure(thrown, "Failed to load project files"));
      } else if |response.value| > 0 {
        projectFiles := response.value;
        projectTitle := response.value[0].projectTitle;
      } else {
        projectFiles := [];
        projectTitle := "Untitled Project";
      }
      loading := false;
    }

    /** `fetchPlaylistFiles`. `response` is the answer's `playlistFiles`:
        `Some(None)` when it is missing, `None` when the request threw with
        the message `thrown`. */
    method FetchPlaylistFiles(userId: string, response: Option<Option<seq<FileRecord>>>, thrown: string)
      modifies this
      ensures !loading
      ensures SignedIn(userId) && response.Some? ==>
        playList == (if response.value.Some? then response.value.value else []) && error == old(error)
      ensures SignedIn(userId) && response.None? ==>
        playList == old(playList) && error == Some(Failure(thrown, "Failed to load playlist files"))
      ensures !SignedIn(userId) ==> playList == old(playList) && error == Some("User not authenticated")
      ensures projectFiles == old(projectFiles) && projectTitle == old(projectTitle)
    {
      loading := true;
      if !SignedIn(userId) {
        error := Some("User not authenticated");
      } else if response.None? {
        error := Some(Failure(thrown, "Failed to load playlist files"));
      } else {
        playList := if response.value.Some? then response.value.value else [];
      }
      loading := false;
    }

    /** `onSave`: the reordered list is renumbered and sent; only an answer
        with `success` replaces the local playlist, and then the playlist is
        fetched again. */
    method OnSave(userId: string, reordered: seq<FileRecord>, reply: Call<bool>)
      returns (request: Option<SaveReordered>, refetch: bool)
      modifies this
      ensures !SignedIn(userId) ==> request.None? && !refetch
      ensures SignedIn(userId) ==> request == Some(SaveReordered(projectId, Renumbered(reordered), userId))
      ensures refetch <==> SignedIn(userId) && reply == Returned(true)
      ensures playList == if refetch then Renumbered(reordered) else old(playList)
      ensures projectFiles == old(projectFiles) && projectTitle == old(projectTitle) && error == old(error)
      ensures loading == old(loading)
    {
      if !SignedIn(userId) {
        return None, false;
      }
      var updatedFiles := Renumbered(reordered);
      request := Some(SaveReordered(projectId, updatedFiles, userId));
      refetch := reply == Returned(true);
      if refetch {
        playList := updatedFiles;
      }
    }
  }

  /** `removeFile`: with a user the delete is sent, and once it answered the
      files are fetched again. Returns the request's `fileId` and whether the
      files are fetched again. */
  function RemoveFile(userId: string, fileId: string, reply: Call<bool>): (r: (Option<string>, bool))
    ensures r.0.Some? <==> SignedIn(userId)
    ensures r.0.Some? ==> r.0.value == fileId
    ensures r.1 <==> SignedIn(userId) && reply.Returned?
  {
    if !SignedIn(userId) then (None, false) else (Some(fileId), reply.Returned?)
  }
}
