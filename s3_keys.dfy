/** Object keys of the bucket as the signed-URL routes of api/s3routes.js
    build them, and the canned ACL they request. The uuid and the clock are
    inputs; `encodeURIComponent` is an input function. */
module S3Keys {
  import opened JsValues
  import opened Strings

  /** The `accessType` enum of the file schema (api/models/File.js). */
  datatype AccessType = Private | PublicRead

  function AccessName(a: AccessType): string
  {
    match a
    case Private => "private"
    case PublicRead => "public-read"
  }

  /** `accessType === 'public-read' ? 'public-read' : 'private'`: the playlist
      and programming upload routes map any request value into the enum. */
  function Acl(accessType: string): (a: AccessType)
    ensures AccessName(a) == accessType || a == Private
    ensures a == PublicRead <==> accessType == "public-read"
  {
    if accessType == "public-read" then PublicRead else Private
  }

  /** `users/{userId}/projects/{projectId}/`. */
  function ProjectFolder(userId: string, projectId: string): string
  {
    "users/" + userId + "/projects/" + projectId + "/"
  }

  /** `/s3-signed-url`: `users/{u}/projects/{p}/files/{uuid}-{encodeURIComponent(fileName)}`,
      or nothing (400) when a request field is missing. */
  function UploadKey(fileName: string, fileType: string, accessType: string, userId: string, projectId: string,
                     uuid: string, encode: string -> string): (k: Option<string>)
    ensures k.None? <==> fileName == "" || fileType == "" || accessType == "" || userId == "" || projectId == ""
  {
    if fileName == "" || fileType == "" || accessType == "" || userId == "" || projectId == "" then None
    else Some(ProjectFolder(userId, projectId) + "files/" + uuid + "-" + encode(fileName))
  }

  /** `{Date.now()}-{uuid}-{fileName.trim().replace(/\s+/g, '_')}`. */
  function UniqueName(now: nat, uuid: string, fileName: string): string
  {
    NatToString(now) + "-" + uuid + "-" + CollapseSpaces(Trim(fileName))
  }

  /** `/s3-s3-s3`: a playlist upload key. */
  function PlaylistKey(fileName: string, fileType: string, accessType: string, userId: string, projectId: string,
                       now: nat, uuid: string): (k: Option<string>)
    ensures k.None? <==> fileName == "" || fileType == "" || accessType == "" || userId == "" || projectId == ""
  {
    if fileName == "" || fileType == "" || accessType == "" || userId == "" || projectId == "" then None
    else Some(ProjectFolder(userId, projectId) + "playlists/" + UniqueName(now, uuid, fileName))
  }

  /** `/s3-programming`: `users/{u}/programming/{programId}/{unique name}`. */
  function ProgrammingKey(fileName: string, fileType: string, accessType: string, userId: string, programId: string,
                          now: nat, uuid: string): (k: Option<string>)
    ensures k.None? <==> fileName == "" || fileType == "" || accessType == "" || userId == "" || programId == ""
  {
    if fileName == "" || fileType == "" || accessType == "" || userId == "" || programId == "" then None
    else Some("users/" + userId + "/programming/" + programId + "/" + UniqueName(now, uuid, fileName))
  }

  /** The name part of a playlist or programming key carries no whitespace;
      the key is the folder followed by that name. */
  lemma PlaylistKeyShape(fileName: string, fileType: string, accessType: string, userId: string, projectId: string,
                         now: nat, uuid: string)
    requires PlaylistKey(fileName, fileType, accessType, userId, projectId, now, uuid).Some?
    ensures var k := PlaylistKey(fileName, fileType, accessType, userId, projectId, now, uuid).value;
      var name := CollapseSpaces(Trim(fileName));
      k == ProjectFolder(userId, projectId) + "playlists/" + NatToString(now) + "-" + uuid + "-" + name &&
      NoSpace(name)
  {
    CollapseSpacesNoSpace(Trim(fileName));
  }

  /** Upload keys that differ only in a same-length uuid are different: two
      uploads never overwrite each other's object. */
  lemma UploadKeysDistinct(fileName: string, fileType: string, accessType: string, userId: string, projectId: string,
                           u1: string, u2: string, encode: string -> string)
    requires u1 != u2 && |u1| == |u2|
    requires UploadKey(fileName, fileType, accessType, userId, projectId, u1, encode).Some?
    ensures UploadKey(fileName, fileType, accessType, userId, projectId, u1, encode)
         != UploadKey(fileName, fileType, accessType, userId, projectId, u2, encode)
  {
    var pre := ProjectFolder(userId, projectId) + "files/";
    var k1 := pre + u1 + "-" + encode(fileName);
    var k2 := pre + u2 + "-" + encode(fileName);
    assert k1[|pre|..|pre| + |u1|] == u1;
    assert k2[|pre|..|pre| + |u2|] == u2;
  }

  /** The playlist copy of an upload (`key.replace('files/', 'playlists/')`,
      client/src/components/FilesDisplay.js) lands in the same project's
      `playlists/` folder, provided the user and project ids do not
      themselves contain `files/`. */
  lemma FilesToPlaylistsKey(userId: string, projectId: string, rest: string)
    requires forall k :: 0 <= k < |ProjectFolder(userId, projectId)| ==>
      !OccursAt(ProjectFolder(userId, projectId) + "files/", "files/", k)
    ensures ReplaceFirst(ProjectFolder(userId, projectId) + "files/" + rest, "files/", "playlists/")
         == ProjectFolder(userId, projectId) + "playlists/" + rest
  {
    ReplaceFirstAfter(ProjectFolder(userId, projectId), "files/", "playlists/", rest);
  }
}
