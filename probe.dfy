/** What the routes read out of an `ffprobe` report. The probe itself is not
    modelled: its parsed report is an input. A field absent from the report
    is `Undef`; a JSON `null` (Python `None`) is `Null`. */
module Probe {
  import opened JsValues
  import opened Mongo

  datatype Stream = Stream(codecType: JsVal, width: JsVal, height: JsVal, avgFrameRate: JsVal, rFrameRate: JsVal)

  /** The parsed report: `format.duration` and the `streams` list. */
  datatype Report = Report(duration: JsVal, streams: seq<Stream>)

  /** The summary `extractMetadata` (Node) and `extract_metadata` (Python)
      return. */
  datatype Summary = Summary(duration: JsVal, width: JsVal, height: JsVal, frameRate: JsVal)

  const Unknown: JsVal := Str("Unknown")

  function IsVideo(): Stream -> bool
  {
    (s: Stream) => s.codecType == Str("video")
  }

  /** `x || 'Unknown'`. */
  function OrUnknown(v: JsVal): JsVal
  {
    Or(v, Unknown)
  }

  /** `extractMetadata` of api/fileRoutes.js: the first stream whose
      `codec_type` is `'video'` (or `{}` when there is none) supplies width,
      height and `r_frame_rate`; every missing or falsy value becomes
      `'Unknown'`. */
  function NodeSummary(r: Report): (m: Summary)
    ensures Truthy(m.duration) && Truthy(m.width) && Truthy(m.height) && Truthy(m.frameRate)
    ensures Truthy(r.duration) ==> m.duration == r.duration
    ensures !Truthy(r.duration) ==> m.duration == Unknown
    ensures FindFirst(r.streams, IsVideo()).None? ==> m.width == Unknown && m.height == Unknown && m.frameRate == Unknown
    ensures FindFirst(r.streams, IsVideo()).Some? ==>
      var v := r.streams[FindFirst(r.streams, IsVideo()).value];
      v.codecType == Str("video") &&
      (Truthy(v.width) ==> m.width == v.width) && (!Truthy(v.width) ==> m.width == Unknown) &&
      (Truthy(v.height) ==> m.height == v.height) && (!Truthy(v.height) ==> m.height == Unknown) &&
      (Truthy(v.rFrameRate) ==> m.frameRate == v.rFrameRate) && (!Truthy(v.rFrameRate) ==> m.frameRate == Unknown)
  {
    match FindFirst(r.streams, IsVideo())
    case None => Summary(OrUnknown(r.duration), Unknown, Unknown, Unknown)
    case Some(i) =>
      var v := r.streams[i];
      Summary(OrUnknown(r.duration), OrUnknown(v.width), OrUnknown(v.height), OrUnknown(v.rFrameRate))
  }

  /** Python's `dict.get(k)`: an absent key reads as `None`. */
  function PyGet(v: JsVal): (r: JsVal)
  {
    if v == Undef then Null else v
  }

  /** `'width' in stream and 'height' in stream`. */
  predicate HasSize(s: Stream)
  {
    s.width != Undef && s.height != Undef
  }

  function Sized(): Stream -> bool
  {
    (s: Stream) => HasSize(s)
  }

  /** What `extract_metadata` of api/app.py returns. `returncode` is the
      exit status of ffprobe and `parsed` its JSON output (`None` when it
      does not parse; the exception handler returns `None` then). The first
      stream carrying both `width` and `height` supplies the size and frame
      rate; without one, all three are `None`. */
  function PythonSummary(returncode: int, parsed: Option<Report>): (m: Option<Summary>)
    ensures m.None? <==> returncode != 0 || parsed.None?
    ensures m.Some? ==> m.value.duration == PyGet(parsed.value.duration)
    ensures m.Some? ==>
      var ss := parsed.value.streams;
      (forall k :: 0 <= k < |ss| ==> !HasSize(ss[k])) ==>
        m.value.width == Null && m.value.height == Null && m.value.frameRate == Null
    ensures m.Some? ==>
      var ss := parsed.value.streams;
      forall i :: 0 <= i < |ss| && HasSize(ss[i]) && (forall k :: 0 <= k < i ==> !HasSize(ss[k])) ==>
        m.value.width == ss[i].width && m.value.height == ss[i].height && m.value.frameRate == PyGet(ss[i].rFrameRate)
  {
    if returncode != 0 || parsed.None? then None
    else
      var ss := parsed.value.streams;
      match FindFirst(ss, Sized())
      case None => Some(Summary(PyGet(parsed.value.duration), Null, Null, Null))
      case Some(i) => Some(Summary(PyGet(parsed.value.duration), ss[i].width, ss[i].height, PyGet(ss[i].rFrameRate)))
  }

  /** `extract_metadata` with its loop over the streams. */
  method PySummary(returncode: int, parsed: Option<Report>) returns (m: Option<Summary>)
    ensures m == PythonSummary(returncode, parsed)
  {
    if returncode != 0 || parsed.None? {
      return None;
    }
    var report := parsed.value;
    var duration := PyGet(report.duration);
    var width, height, frameRate := Null, Null, Null;
    var i := 0;
    while i < |report.streams|
      invariant 0 <= i <= |report.streams|
      invariant forall k :: 0 <= k < i ==> !HasSize(report.streams[k])
      invariant width == Null && height == Null && frameRate == Null
    {
      var stream := report.streams[i];
      if HasSize(stream) {
        width, height, frameRate := stream.width, stream.height, PyGet(stream.rFrameRate);
        assert Sized()(stream);
        assert FindFirst(report.streams, Sized()) == Some(i);
        return Some(Summary(duration, width, height, frameRate));
      }
      i := i + 1;
    }
    return Some(Summary(duration, width, height, frameRate));
  }
}
