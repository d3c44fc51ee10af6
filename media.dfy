/** The audio/video distinction of the slot forms. ProgrammingPlay.js tests
    `type.startsWith('video')` first, AddFileToPlaylist.js tests `'audio'`
    first; no MIME type starts with both, so the two agree. */
module Media {
  import opened JsValues

  predicate StartsWith(s: string, prefix: string)
  {
    |prefix| <= |s| && s[..|prefix|] == prefix
  }

  datatype MediaKind = Video | Audio

  function KindName(k: MediaKind): string
  {
    match k
    case Video => "video"
    case Audio => "audio"
  }

  /** The kind a MIME type announces, `null` for anything other than audio
      or video. */
  function KindOf(mime: string): (k: Option<MediaKind>)
    ensures k == Some(Video) <==> StartsWith(mime, "video")
    ensures k == Some(Audio) <==> StartsWith(mime, "audio")
    ensures forall kind :: k == Some(kind) <==> StartsWith(mime, KindName(kind))
  {
    if StartsWith(mime, "video") then Some(Video)
    else if StartsWith(mime, "audio") then Some(Audio)
    else None
  }
}
