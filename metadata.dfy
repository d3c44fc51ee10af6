/** The metadata pass shared by `/extractor`, `/extract-file-metadata`,
    `/program-extract` (api/s3routes.js) and `/thee_extractor`
    (api/fileRoutes.js): every file of a list is fetched and probed, and the
    list is rebuilt, in order, with each file either enriched with the probe's
    values or tagged with the error that stopped it. */
module Metadata {
  import opened JsValues
  import opened Strings
  import opened Store
  import Probe

  /** How fetching and probing the i-th file ended. */
  datatype FileProbe = Probed(report: Probe.Report) | Failed(message: string)

  /** A JavaScript template-literal conversion `${v}`. */
  function Template(v: JsVal): string
  {
    match v
    case Undef => "undefined"
    case Null => "null"
    case Str(s) => s
    case Num(n) => IntToString(n)
  }

  /** `metadata.streams[0] ? `${width || 'unknown'}x${height || 'unknown'}` : 'unknown'`. */
  function Resolution(r: Probe.Report): (res: string)
  {
    if r.streams == [] then "unknown"
    else
      var s := r.streams[0];
      Template(Or(s.width, Str("unknown"))) + "x" + Template(Or(s.height, Str("unknown")))
  }

  /** `{...file, duration, frameRate, resolution}` for a probed file. */
  function Enrich(f: FileRecord, r: Probe.Report): FileRecord
  {
    f.(duration := Or(r.duration, Null),
       frameRate := Or(if r.streams == [] then Undef else r.streams[0].avgFrameRate, Null),
       resolution := Str(Resolution(r)))
  }

  /** `{...file, metadataError: error.message}` for a file that failed. */
  function Tag(f: FileRecord, message: string): FileRecord
  {
    f.(metadataError := Str(message))
  }

  /** The entry the loop pushes for one file; `program` adds the
      `slotPosition: file.slotPosition || null` of `/program-extract`. */
  function Extracted(f: FileRecord, p: FileProbe, program: bool): FileRecord
  {
    var g := match p
      case Probed(r) => Enrich(f, r)
      case Failed(m) => Tag(f, m);
    if program then g.(slotPosition := Or(f.slotPosition, Null)) else g
  }

  /** Two records that describe the same stored file: everything but the
      metadata fields (and the slot the program variant normalises) agrees. */
  predicate SameFile(a: FileRecord, b: FileRecord)
  {
    a.key == b.key && a.fileName == b.fileName && a.url == b.url && a.accessType == b.accessType &&
    a.projectId == b.projectId && a.projectTitle == b.projectTitle && a.programId == b.programId &&
    a.fileId == b.fileId && a.createdAt == b.createdAt && a.seqPos == b.seqPos && a.notes == b.notes
  }

  /** Enrich or tag, never both, and never a different file: an enriched
      entry has a non-null resolution and an untouched error field, a tagged
      one carries the error and keeps the old metadata. */
  lemma EnrichOrTag(f: FileRecord, p: FileProbe, program: bool)
    ensures var g := Extracted(f, p, program);
      SameFile(f, g) &&
      (p.Probed? ==> g.metadataError == f.metadataError && g.resolution.Str? && g.duration != Undef && g.frameRate != Undef) &&
      (p.Failed? ==> g.metadataError == Str(p.message) && g.duration == f.duration &&
                     g.frameRate == f.frameRate && g.resolution == f.resolution) &&
      (program ==> g.slotPosition == Or(f.slotPosition, Null)) &&
      (!program ==> g.slotPosition == f.slotPosition)
  {
  }

  /** A probed stream with both dimensions yields `WxH`. */
  lemma ResolutionOfSizedStream(r: Probe.Report, w: nat, h: nat)
    requires r.streams != [] && r.streams[0].width == Num(w) && r.streams[0].height == Num(h)
    requires w > 0 && h > 0
    ensures Resolution(r) == NatToString(w) + "x" + NatToString(h)
  {
  }

  /** Probing again with the same results gives the same entry, so a second
      pass over an already processed list writes an identical list. */
  lemma ExtractedIdempotent(f: FileRecord, p: FileProbe, program: bool)
    ensures Extracted(Extracted(f, p, program), p, program) == Extracted(f, p, program)
  {
  }

  /** The loop of the four routes: one entry pushed per file, in order. */
  method ExtractAll(files: seq<FileRecord>, probe: nat -> FileProbe, program: bool)
    returns (updated: seq<FileRecord>)
    ensures updated == ExtractList(files, probe, program)
  {
    updated := [];
    var i := 0;
    while i < |files|
      invariant 0 <= i <= |files|
      invariant |updated| == i
      invariant forall k :: 0 <= k < i ==> updated[k] == Extracted(files[k], probe(k), program)
    {
      updated := updated + [Extracted(files[i], probe(i), program)];
      i := i + 1;
    }
  }

  /** The list a pass produces, as a function of the list and the probes. */
  function ExtractList(files: seq<FileRecord>, probe: nat -> FileProbe, program: bool): seq<FileRecord>
  {
    seq(|files|, i requires 0 <= i < |files| => Extracted(files[i], probe(i), program))
  }

  /** Every entry written back describes the file at the same position. */
  lemma ExtractListKeepsFiles(files: seq<FileRecord>, probe: nat -> FileProbe, program: bool)
    ensures var r := ExtractList(files, probe, program);
      |r| == |files| && forall i :: 0 <= i < |files| ==> SameFile(files[i], r[i])
  {
    var r := ExtractList(files, probe, program);
    forall i | 0 <= i < |files| ensures SameFile(files[i], r[i]) {
      EnrichOrTag(files[i], probe(i), program);
    }
  }

  /** A second pass with the same probe results writes back the same list. */
  lemma ExtractListIdempotent(files: seq<FileRecord>, probe: nat -> FileProbe, program: bool)
    ensures ExtractList(ExtractList(files, probe, program), probe, program) == ExtractList(files, probe, program)
  {
    var once := ExtractList(files, probe, program);
    forall i | 0 <= i < |files|
      ensures ExtractList(once, probe, program)[i] == once[i]
    {
      ExtractedIdempotent(files[i], probe(i), program);
    }
  }

  /** Every key of the list decodes: `decodeURIComponent` sits outside the
      per-file `try`, so one malformed key fails the whole request. */
  predicate AllKeysDecode(files: seq<FileRecord>, decode: string -> Option<string>)
  {
    forall i :: 0 <= i < |files| ==> KeyDecodes(files[i], decode)
  }

  predicate KeyDecodes(f: FileRecord, decode: string -> Option<string>)
  {
    decode(Trim(f.key)).Some?
  }

  /** The loop of `/extract-file-metadata` and `/program-extract`: each key
      is decoded before its file is probed, outside the per-file `try`, so
      the first key that does not decode ends the pass. */
  method ExtractChecked(files: seq<FileRecord>, decode: string -> Option<string>, probe: nat -> FileProbe, program: bool)
    returns (r: Option<seq<FileRecord>>)
    ensures r.None? <==> !AllKeysDecode(files, decode)
    ensures r.Some? ==> r.value == ExtractList(files, probe, program)
  {
    var filesWithMetadata: seq<FileRecord> := [];
    var i := 0;
    while i < |files|
      invariant 0 <= i <= |files|
      invariant forall k :: 0 <= k < i ==> KeyDecodes(files[k], decode)
      invariant |filesWithMetadata| == i
      invariant forall k :: 0 <= k < i ==> filesWithMetadata[k] == Extracted(files[k], probe(k), program)
    {
      if !KeyDecodes(files[i], decode) {
        return None;
      }
      filesWithMetadata := filesWithMetadata + [Extracted(files[i], probe(i), program)];
      i := i + 1;
    }
    return Some(filesWithMetadata);
  }
}
