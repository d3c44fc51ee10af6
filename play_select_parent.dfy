/** The playlist picker, client/src/components/PlaySelectParent.js: the
    user's playlists are listed, toggled into a selection, and the
    selection is either packaged for download after a confirmation or
    rendered into one file. */
module PlaySelectParent {
  import opened JsValues
  import opened Strings
  import opened Client
  import opened Selection
  import Metadata

  /** An entry of the `/playlistsGetter` answer. */
  datatype Listing = Listing(projectId: string, projectTitle: string)

  /** The answer of `/playlistsGetter`: `success` and `data` when it is an array. */
  datatype ListAnswer = ListAnswer(success: bool, data: Option<seq<Listing>>)

  /** The fields of the `/package-playlists` answer that are read. */
  datatype PackageAnswer = PackageAnswer(success: bool, downloadUrl: JsVal, fileName: JsVal, error: JsVal)

  /** The fields of the `/render-playlist` answer that are read. */
  datatype RenderAnswer = RenderAnswer(success: bool, output: JsVal, fileName: JsVal, message: JsVal)

  /** The body of both requests. */
  datatype PlaylistsRequest = PlaylistsRequest(userId: string, playlistIds: seq<string>)

  /** A download the page starts: the link and the suggested file name. */
  datatype Download = Download(href: string, fileName: JsVal)

  const LoadError := "Failed to load playlists. Please try again later."
  const PackageFailed := "Failed to package playlists. Please try again."
  const PackageThrew := "An unexpected error occurred during packaging. Please try again."
  const CreateSuccess := "File created successfully! You can play it in the new tab or download it."

  /** `Process {n} Playlist{s}`: the button label for `n` selected playlists. */
  function ProcessLabel(n: nat): (r: string)
    ensures |r| > 0
  {
    "Process " + NatToString(n) + " Playlist" + (if n == 1 then "" else "s")
  }

  /** The label ends in the plural exactly when the count is not one, and
      it names the count. */
  lemma ProcessLabelPlural(n: nat)
    ensures ProcessLabel(n)[|ProcessLabel(n)| - 1] == 's' <==> n != 1
    ensures ProcessLabel(n)[..8] == "Process " &&
            DigitsValue(ProcessLabel(n)[8..8 + |NatToString(n)|]) == n
  {
    var digits := NatToString(n);
    var r := ProcessLabel(n);
    assert r[8..8 + |digits|] == digits;
    NatToStringRoundTrip(n);
    if n == 1 {
      assert r[|r| - 1] == 't';
    }
  }

  class PlaySelectParent {
    var playlists: seq<Listing>
    var loading: bool
    var error: Option<string>
    var selected: seq<string>
    var confirming: bool
    var successMessage: string

    /** The selection lists no playlist twice. */
    ghost predicate Valid()
      reads this
    {
      Mongo.Distinct(selected)
    }

    constructor ()
      ensures Valid()
      ensures playlists == [] && loading && error.None? && selected == [] && !confirming && successMessage == ""
    {
      playlists := [];
      loading := true;
      error := None;
      selected := [];
      confirming := false;
      successMessage := "";
    }

    /** `fetchUserPlaylists`, run when there is a user: an answer with
        `success` and an array fills the list; anything else shows the load
        error. Loading ends either way. */
    method FetchUserPlaylists(userId: string, response: Call<ListAnswer>)
      requires Valid()
      modifies this
      ensures Valid()
      ensures !SignedIn(userId) ==> playlists == old(playlists) && error == old(error) && loading == old(loading)
      ensures SignedIn(userId) ==>
        !loading &&
        (response.Returned? && response.body.success && response.body.data.Some? ==>
           playlists == response.body.data.value && error == old(error)) &&
        (!(response.Returned? && response.body.success && response.body.data.Some?) ==>
           playlists == old(playlists) && error == Some(LoadError))
      ensures selected == old(selected) && confirming == old(confirming) && successMessage == old(successMessage)
    {
      if !SignedIn(userId) {
        return;
      }
      if response.Returned? && response.body.success && response.body.data.Some? {
        playlists := response.body.data.value;
      } else {
        error := Some(LoadError);
      }
      loading := false;
    }

    /** `handleToggleSelection`. */
    method HandleToggleSelection(playlistId: string)
      requires Valid()
      modifies this
      ensures Valid()
      ensures selected == Toggle(old(selected), playlistId)
      ensures playlistId in selected <==> playlistId !in old(selected)
      ensures forall x :: x != playlistId ==> (x in selected <==> x in old(selected))
      ensures playlists == old(playlists) && confirming == old(confirming) && successMessage == old(successMessage)
    {
      ToggleMembership(selected, playlistId);
      ToggleDistinct(selected, playlistId);
      selected := Toggle(selected, playlistId);
    }

    /** `handleConfirm`: with nothing selected there is no confirmation. */
    method HandleConfirm() returns (alert: Option<string>)
      requires Valid()
      modifies this
      ensures Valid()
      ensures old(selected) == [] ==> alert == Some("No playlists selected.") && confirming == old(confirming)
      ensures old(selected) != [] ==> alert.None? && confirming
      ensures selected == old(selected) && playlists == old(playlists) && successMessage == old(successMessage)
    {
      if selected == [] {
        return Some("No playlists selected.");
      }
      confirming := true;
      return None;
    }

    /** `handleCancelConfirmation`: only a click on the overlay itself cancels. */
    method HandleCancelConfirmation(onOverlay: bool)
      requires Valid()
      modifies this
      ensures Valid()
      ensures confirming == (if onOverlay then false else old(confirming))
      ensures selected == old(selected) && playlists == old(playlists) && successMessage == old(successMessage)
    {
      if onOverlay {
        confirming := false;
      }
    }

    /** `handleProcessAndDownload`: the selection is sent to be packaged. An
        answer with `success`, a link and a file name starts the download,
        reports how many playlists went and clears the selection; any other
        end alerts. Confirmation ends in every case. Without a user the
        request cannot be built and the unexpected-error alert shows. */
    method HandleProcessAndDownload(userId: string, baseUrl: string, response: Call<PackageAnswer>)
      returns (request: Option<PlaylistsRequest>, download: Option<Download>, alert: Option<string>)
      requires Valid()
      modifies this
      ensures Valid()
      ensures !confirming
      ensures request == if SignedIn(userId) then Some(PlaylistsRequest(userId, old(selected))) else None
      ensures var ok := SignedIn(userId) && response.Returned? && response.body.success &&
                        Truthy(response.body.downloadUrl) && Truthy(response.body.fileName);
        (ok ==> download == Some(Download(baseUrl + Metadata.Template(response.body.downloadUrl), response.body.fileName)) &&
                alert.None? && selected == [] &&
                successMessage == "Successfully processed " + NatToString(|old(selected)|) + " playlist(s).") &&
        (!ok ==> download.None? && alert.Some? && selected == old(selected) && successMessage == old(successMessage))
      ensures SignedIn(userId) && response.Returned? && !(response.body.success &&
                Truthy(response.body.downloadUrl) && Truthy(response.body.fileName)) ==>
        alert == Some(if Truthy(response.body.error)
                      then "Failed to package playlists: " + Metadata.Template(response.body.error)
                      else PackageFailed)
      ensures !SignedIn(userId) || response.Threw? ==> alert == Some(PackageThrew)
      ensures playlists == old(playlists)
    {
      confirming := true;
      request, download, alert := None, None, None;
      if !SignedIn(userId) {
        alert := Some(PackageThrew);
      } else {
        request := Some(PlaylistsRequest(userId, selected));
        match response {
          case Threw =>
            alert := Some(PackageThrew);
          case Returned(answer) =>
            if answer.success && Truthy(answer.downloadUrl) && Truthy(answer.fileName) {
              download := Some(Download(baseUrl + Metadata.Template(answer.downloadUrl), answer.fileName));
              successMessage := "Successfully processed " + NatToString(|selected|) + " playlist(s).";
              selected := [];
            } else if Truthy(answer.error) {
              alert := Some("Failed to package playlists: " + Metadata.Template(answer.error));
            } else {
              alert := Some(PackageFailed);
            }
        }
      }
      confirming := false;
    }

    /** `handleCreateFile`: without a user or a selection nothing is sent.
        Otherwise the selection is sent to be rendered; an answer with
        `success` and an output opens it and reports success, any other end
        alerts. The selection is kept. */
    method HandleCreateFile(userId: string, response: Call<RenderAnswer>)
      returns (request: Option<PlaylistsRequest>, shown: Option<JsVal>, alert: Option<string>)
      requires Valid()
      modifies this
      ensures Valid()
      ensures !SignedIn(userId) ==> request.None? && shown.None? && alert == Some("User is not authenticated.")
      ensures SignedIn(userId) && old(selected) == [] ==>
        request.None? && shown.None? && alert == Some("Please select at least one playlist to create a file.")
      ensures SignedIn(userId) && old(selected) != [] ==>
        request == Some(PlaylistsRequest(userId, old(selected))) &&
        (response.Threw? ==> shown.None? && alert == Some("An unexpected error occurred. Please try again.")) &&
        (response.Returned? && response.body.success && Truthy(response.body.output) ==>
           shown == Some(response.body.output) && alert.None? && successMessage == CreateSuccess) &&
        (response.Returned? && response.body.success && !Truthy(response.body.output) ==>
           shown.None? && alert == Some("File successfully created")) &&
        (response.Returned? && !response.body.success ==>
           shown.None? &&
           alert == Some("Failed to create file: " + Metadata.Template(Or(response.body.message, Str("Unknown error occurred.")))))
      ensures !(shown.Some?) ==> successMessage == old(successMessage)
      ensures selected == old(selected) && playlists == old(playlists) && confirming == old(confirming)
    {
      request, shown, alert := None, None, None;
      if !SignedIn(userId) {
        return None, None, Some("User is not authenticated.");
      }
      if selected == [] {
        return None, None, Some("Please select at least one playlist to create a file.");
      }
      request := Some(PlaylistsRequest(userId, selected));
      match response {
        case Threw =>
          alert := Some("An unexpected error occurred. Please try again.");
        case Returned(answer) =>
          if answer.success {
            if Truthy(answer.output) {
              shown := Some(answer.output);
              successMessage := CreateSuccess;
            } else {
              alert := Some("File successfully created");
            }
          } else {
            alert := Some("Failed to create file: " + Metadata.Template(Or(answer.message, Str("Unknown error occurred."))));
          }
      }
    }
  }
}
