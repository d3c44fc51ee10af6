/** The playlist bin of the programming page,
    client/src/components/ProgPlayBin.js: the user's playlists that hold
    files are listed, toggled into a selection, and the selected program is
    applied to the selection. */
module ProgPlayBin {
  import opened JsValues
  import opened Store
  import opened Mongo
  import opened Client
  import opened Selection
  import Metadata

  /** An entry of `/get-user-playlists`; `playlistsFile` may be missing. */
  datatype Entry = Entry(projectId: string, projectTitle: string, playlistsFile: Option<seq<FileRecord>>)

  datatype ListAnswer = ListAnswer(success: bool, data: Option<seq<Entry>>, message: JsVal)

  /** `playlist.playlistsFile?.length > 0`. */
  function HoldsFiles(): Entry -> bool
  {
    (e: Entry) => e.playlistsFile.Some? && |e.playlistsFile.value| > 0
  }

  /** The playlists shown: exactly those holding files, in the order given. */
  function ValidPlaylists(data: seq<Entry>): (r: seq<Entry>)
    ensures forall e :: e in r <==> e in data && e.playlistsFile.Some? && e.playlistsFile.value != []
    ensures |r| <= |data|
  {
    KeepMembers(data, HoldsFiles());
    Keep(data, HoldsFiles())
  }

  /** A list that holds only playlists with files is shown unchanged. */
  lemma ValidPlaylistsFixed(data: seq<Entry>)
    requires forall e :: e in data ==> e.playlistsFile.Some? && e.playlistsFile.value != []
    ensures ValidPlaylists(data) == data
  {
    KeepAll(data, HoldsFiles());
  }

  /** The `/apply-program` body. */
  datatype ApplyRequest = ApplyRequest(userId: string, programId: string, playlistIds: seq<string>)

  const NoProgram := "No program selected. Please select a program first."
  const NoPlaylists := "No playlists selected. Please select at least one playlist."
  const ApplyThrew := "An error occurred while applying the program."

  class ProgPlayBin {
    /** The `programId` of the `selectedProgram` prop, if any. */
    const selectedProgram: Option<string>
    var userPlaylists: seq<Entry>
    var selected: seq<string>
    var error: Option<string>

    constructor (selectedProgram: Option<string>)
      ensures this.selectedProgram == selectedProgram && userPlaylists == [] && selected == [] && error.None?
    {
      this.selectedProgram := selectedProgram;
      userPlaylists := [];
      selected := [];
      error := None;
    }

    /** The Apply button's `disabled`. */
    predicate ApplyDisabled()
      reads this
    {
      selectedProgram.None? || selected == []
    }

    /** `fetchUserPlaylists`, run when there is a user. */
    method FetchUserPlaylists(userId: string, response: Call<ListAnswer>)
      modifies this
      ensures !SignedIn(userId) ==> userPlaylists == old(userPlaylists) && error == old(error)
      ensures SignedIn(userId) && response.Returned? && response.body.success && response.body.data.Some? ==>
        userPlaylists == ValidPlaylists(response.body.data.value) && error == old(error)
      ensures SignedIn(userId) && response.Returned? && !(response.body.success && response.body.data.Some?) ==>
        userPlaylists == old(userPlaylists) &&
        error == Some(Metadata.Template(Or(response.body.message, Str("Failed to fetch playlists"))))
      ensures SignedIn(userId) && response.Threw? ==>
        userPlaylists == old(userPlaylists) && error == Some("An error occurred while fetching playlists")
      ensures selected == old(selected)
    {
      if !SignedIn(userId) {
        return;
      }
      match response {
        case Threw =>
          error := Some("An error occurred while fetching playlists");
        case Returned(answer) =>
          if answer.success && answer.data.Some? {
            userPlaylists := ValidPlaylists(answer.data.value);
          } else {
            error := Some(Metadata.Template(Or(answer.message, Str("Failed to fetch playlists"))));
          }
      }
    }

    /** `togglePlaylistSelection`. */
    method TogglePlaylistSelection(playlistId: string)
      modifies this
      ensures selected == Toggle(old(selected), playlistId)
      ensures playlistId in selected <==> playlistId !in old(selected)
      ensures forall x :: x != playlistId ==> (x in selected <==> x in old(selected))
      ensures userPlaylists == old(userPlaylists) && error == old(error)
    {
      ToggleMembership(selected, playlistId);
      selected := Toggle(selected, playlistId);
    }

    /** `handleApplyProgram`: a request goes out exactly when the button
        would be enabled and there is a user; without a program or a
        selection the matching error shows. A refusal or a failure shows an
        error, success an alert. */
    method HandleApplyProgram(userId: string, reply: Call<Answer>) returns (request: Option<ApplyRequest>, applied: bool)
      modifies this
      ensures request.Some? <==> !old(ApplyDisabled()) && SignedIn(userId)
      ensures request.Some? ==> request.value == ApplyRequest(userId, selectedProgram.value, old(selected))
      ensures selectedProgram.None? ==> error == Some(NoProgram)
      ensures selectedProgram.Some? && old(selected) == [] ==> error == Some(NoPlaylists)
      ensures applied <==> request.Some? && reply.Returned? && reply.body.success
      ensures !old(ApplyDisabled()) && (!SignedIn(userId) || reply.Threw?) ==> error == Some(ApplyThrew)
      ensures request.Some? && reply.Returned? && !reply.body.success ==>
        error == Some(Metadata.Template(Or(reply.body.message, Str("Failed to apply program."))))
      ensures applied ==> error == old(error)
      ensures selected == old(selected) && userPlaylists == old(userPlaylists)
    {
      request, applied := None, false;
      if selectedProgram.None? {
        error := Some(NoProgram);
        return;
      }
      if selected == [] {
        error := Some(NoPlaylists);
        return;
      }
      if !SignedIn(userId) {
        error := Some(ApplyThrew);
        return;
      }
      request := Some(ApplyRequest(userId, selectedProgram.value, selected));
      match reply {
        case Threw =>
          error := Some(ApplyThrew);
        case Returned(answer) =>
          if answer.success {
            applied := true;
          } else {
            error := Some(Metadata.Template(Or(answer.message, Str("Failed to apply program."))));
          }
      }
    }
  }
}
