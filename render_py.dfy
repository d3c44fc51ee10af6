/** `/api/render-playlist` of api/app.py. Like the Node route, but any
    failed download, a playlist Python cannot sort, and a failed upload
    raise and end the request with 500, keeping what earlier ids already
    rendered; an ffmpeg failure or a missing probe result skips the id. */
module PyRender {
  import opened JsValues
  import opened Strings
  import opened Mongo
  import opened Store
  import opened Probe
  import opened Render

  /** The outside world by the position `k` of the id: whether the object
      with a key downloads, the exit status of the concatenating ffmpeg, the
      exit status and parsed output of ffprobe, whether the upload succeeded,
      `int(time.time())`, the readable UTC timestamp, `utcnow().isoformat()`,
      a fresh `uuid4()` and the presigned URL. */
  datatype PyEffects = PyEffects(
    fetched: nat -> string -> bool,
    ffmpeg: nat -> int,
    probeCode: nat -> int,
    probed: nat -> Option<Report>,
    uploaded: nat -> bool,
    seconds: nat -> nat,
    readable: nat -> string,
    iso: nat -> string,
    uuid: nat -> string,
    url: nat -> string)

  /** `str(v)` in an f-string: `None` prints as `"None"`. */
  function PyStr(v: JsVal): (s: string)
    ensures v.Str? ==> s == v.s
    ensures v.Null? || v.Undef? ==> s == "None"
  {
    match v
    case Undef => "None"
    case Null => "None"
    case Str(s) => s
    case Num(n) => IntToString(n)
  }

  /** Whether `sorted(files, key=lambda f: f['seqPos'])` returns. The key
      raises `KeyError` on a record without `seqPos`. A comparison with
      `None`, or between a number and a string, raises `TypeError`; a
      comparison sort compares every pair of neighbours of its result, so
      with two or more records such a pair is always compared unless the
      keys are all numbers or all strings. */
  predicate PySortable(files: seq<FileRecord>)
  {
    (forall j :: 0 <= j < |files| ==> files[j].seqPos != Undef) &&
    (|files| <= 1 || (forall j :: 0 <= j < |files| ==> files[j].seqPos.Num?) ||
     (forall j :: 0 <= j < |files| ==> files[j].seqPos.Str?))
  }

  /** Every object of the playlist downloads. */
  predicate AllFetched(files: seq<FileRecord>, ok: string -> bool)
  {
    forall j :: 0 <= j < |files| ==> ok(files[j].key)
  }

  /** `file_metadata` of the rendered output. */
  function PyRecord(userId: string, playlistId: string, title: string, m: Summary, k: nat, fx: PyEffects): (r: FileRecord)
  {
    FileRecord(key := RenderedKey(userId, fx.seconds(k)), fileName := title + " " + fx.readable(k), url := fx.url(k),
               accessType := "", projectId := playlistId, projectTitle := "", programId := "",
               fileId := fx.uuid(k), createdAt := fx.iso(k), slotPosition := Undef, seqPos := Undef,
               duration := m.duration, frameRate := m.frameRate,
               resolution := Str(PyStr(m.width) + "x" + PyStr(m.height)),
               metadataError := Undef, notes := [])
  }

  /** How one id ends. */
  datatype PyStep = Skipped | Raised | Made(r: FileRecord)

  /** The `k`-th id: skipped without a project, on an ffmpeg failure or
      without a probe result; raised when the playlist cannot be sorted, an
      object does not download or the upload fails. */
  function PyResult(snap: UserDoc, userId: string, k: nat, playlistId: string, fx: PyEffects): (r: PyStep)
    ensures ProjectIndex(snap, playlistId).None? ==> r == Skipped
    ensures ProjectIndex(snap, playlistId).Some? ==>
      var files := Meta(snap)[ProjectIndex(snap, playlistId).value].playlistsFile;
      (r == Raised <==>
        !PySortable(files) || !AllFetched(files, fx.fetched(k)) ||
        (fx.ffmpeg(k) == 0 && PythonSummary(fx.probeCode(k), fx.probed(k)).Some? && !fx.uploaded(k))) &&
      (r.Made? <==>
        PySortable(files) && AllFetched(files, fx.fetched(k)) && fx.ffmpeg(k) == 0 &&
        fx.probeCode(k) == 0 && fx.probed(k).Some? && fx.uploaded(k))
    ensures r.Made? ==> r.r.projectId == playlistId && r.r.key == RenderedKey(userId, fx.seconds(k))
  {
    match ProjectIndex(snap, playlistId)
    case None => Skipped
    case Some(i) =>
      var p := Meta(snap)[i];
      if !PySortable(p.playlistsFile) || !AllFetched(p.playlistsFile, fx.fetched(k)) then Raised
      else if fx.ffmpeg(k) != 0 then Skipped
      else match PythonSummary(fx.probeCode(k), fx.probed(k))
        case None => Skipped
        case Some(m) =>
          if !fx.uploaded(k) then Raised
          else Made(PyRecord(userId, playlistId, p.projectTitle, m, k, fx))
  }

  /** The loop so far and whether an exception ended it. */
  datatype PyAcc = PyAcc(acc: Acc, raised: bool)

  /** The `k`-th id folded into the loop so far; nothing happens once an
      exception ended the loop. */
  function PyNext(snap: UserDoc, userId: string, prev: PyAcc, k: nat, playlistId: string, fx: PyEffects): (a: PyAcc)
    requires userId in prev.acc.st.docs
    ensures userId in a.acc.st.docs
    ensures prev.raised ==> a == prev
  {
    if prev.raised then prev
    else match PyResult(snap, userId, k, playlistId, fx)
      case Skipped => prev
      case Raised => PyAcc(prev.acc, true)
      case Made(r) => PyAcc(Record(prev.acc, userId, r), false)
  }

  function PyAll(snap: UserDoc, st: State, userId: string, ids: seq<string>, fx: PyEffects): (a: PyAcc)
    requires userId in st.docs
    ensures userId in a.acc.st.docs
    decreases |ids|
  {
    if ids == [] then PyAcc(Acc(st, []), false)
    else
      var k := |ids| - 1;
      PyNext(snap, userId, PyAll(snap, st, userId, ids[..k], fx), k, ids[k], fx)
  }

  /** One id after an exception changes nothing. */
  lemma RaisedStep(snap: UserDoc, st: State, userId: string, ids: seq<string>, fx: PyEffects)
    requires userId in st.docs && ids != []
    requires PyAll(snap, st, userId, ids[..|ids| - 1], fx).raised
    ensures PyAll(snap, st, userId, ids, fx) == PyAll(snap, st, userId, ids[..|ids| - 1], fx)
  {
  }

  /** After an exception the remaining ids are not looked at. */
  lemma {:induction false} RaisedStays(snap: UserDoc, st: State, userId: string, ids: seq<string>, k: nat,
                                       fx: PyEffects)
    requires userId in st.docs && k <= |ids|
    requires PyAll(snap, st, userId, ids[..k], fx).raised
    ensures PyAll(snap, st, userId, ids, fx) == PyAll(snap, st, userId, ids[..k], fx)
    decreases |ids|
  {
    if |ids| == k {
      assert ids[..k] == ids;
    } else {
      var n := |ids| - 1;
      assert ids[..n][..k] == ids[..k];
      RaisedStays(snap, st, userId, ids[..n], k, fx);
      RaisedStep(snap, st, userId, ids, fx);
    }
  }

  /** The same invariant as the Node route, also when the request ends in 500:
      every listed record is uploaded and placed, only `renderFile` arrays
      grew, and an exception leaves the earlier renders in place. */
  lemma {:induction false} PyAllGood(st: State, userId: string, ids: seq<string>, fx: PyEffects)
    requires userId in st.docs
    ensures var a := PyAll(st.docs[userId], st, userId, ids, fx);
      Good(st, a.acc, userId) && forall r :: r in a.acc.rendered ==> r.projectId in ids
    decreases |ids|
  {
    if ids != [] {
      var k := |ids| - 1;
      PyAllGood(st, userId, ids[..k], fx);
      PyNextGood(st, userId, PyAll(st.docs[userId], st, userId, ids[..k], fx), k, ids[k], fx);
      assert forall x :: x in ids[..k] ==> x in ids;
    }
  }

  /** One id keeps the invariant. */
  lemma PyNextGood(st: State, userId: string, prev: PyAcc, k: nat, playlistId: string, fx: PyEffects)
    requires userId in st.docs && userId in prev.acc.st.docs && Good(st, prev.acc, userId)
    ensures var a := PyNext(st.docs[userId], userId, prev, k, playlistId, fx);
      Good(st, a.acc, userId) &&
      forall r :: r in a.acc.rendered ==> r in prev.acc.rendered || r.projectId == playlistId
  {
    var a := PyNext(st.docs[userId], userId, prev, k, playlistId, fx);
    if !prev.raised {
      match PyResult(st.docs[userId], userId, k, playlistId, fx)
      case Skipped =>
        assert a == prev;
      case Raised =>
        assert a.acc == prev.acc;
      case Made(r) =>
        assert ProjectIndex(st.docs[userId], r.projectId).Some?;
        RecordGood(st, prev.acc, userId, r);
        assert a.acc == Record(prev.acc, userId, r);
    }
  }

  /** The download loop: stops at the first object that fails. */
  method DownloadAll(files: seq<FileRecord>, ok: string -> bool) returns (allOk: bool)
    ensures allOk <==> AllFetched(files, ok)
  {
    var j := 0;
    while j < |files|
      invariant 0 <= j <= |files|
      invariant AllFetched(files[..j], ok)
    {
      if !ok(files[j].key) {
        return false;
      }
      assert files[..j + 1] == files[..j] + [files[j]];
      j := j + 1;
    }
    assert files[..|files|] == files;
    return true;
  }

  /** One iteration of the loop over `playlist_ids`. */
  method PyRenderOne(snap: UserDoc, acc: Acc, userId: string, k: nat, playlistId: string, fx: PyEffects)
    returns (next: Acc, raised: bool)
    requires userId in acc.st.docs
    ensures match PyResult(snap, userId, k, playlistId, fx)
            case Skipped => next == acc && !raised
            case Raised => next == acc && raised
            case Made(r) => next == Record(acc, userId, r) && !raised
  {
    next, raised := acc, false;
    var found := ProjectIndex(snap, playlistId);
    if found.None? {
      return;
    }
    var p := Meta(snap)[found.value];
    if !PySortable(p.playlistsFile) {
      return acc, true;
    }
    var downloaded := DownloadAll(p.playlistsFile, fx.fetched(k));
    if !downloaded {
      return acc, true;
    }
    if fx.ffmpeg(k) != 0 {
      return;
    }
    var metadata := PySummary(fx.probeCode(k), fx.probed(k));
    if metadata.None? {
      return;
    }
    if !fx.uploaded(k) {
      return acc, true;
    }
    next := Record(acc, userId, PyRecord(userId, playlistId, p.projectTitle, metadata.value, k, fx));
  }

  /** The handler: 400 when a field is missing, 404 without a document or
      `userMeta`, 500 when an id raised (with the renders before it kept),
      otherwise 200 with the records made. */
  method PyRenderPlaylist(st: State, userId: Option<string>, playlistIds: Option<seq<string>>, fx: PyEffects)
    returns (reply: Reply, rendered: seq<FileRecord>, st': State)
    ensures reply == Status(400) <==> userId.None? || playlistIds.None?
    ensures reply == Status(404) <==>
      userId.Some? && playlistIds.Some? && (userId.value !in st.docs || st.docs[userId.value].userMeta.None?)
    ensures reply == Status(400) || reply == Status(404) ==> rendered == [] && st' == st
    ensures userId.Some? && playlistIds.Some? && userId.value in st.docs && st.docs[userId.value].userMeta.Some? ==>
      var u := userId.value;
      var a := PyAll(st.docs[u], st, u, playlistIds.value, fx);
      st' == a.acc.st &&
      (a.raised ==> reply == Status(500) && rendered == []) &&
      (!a.raised ==> reply == Success(200) && rendered == a.acc.rendered)
  {
    if userId.None? || playlistIds.None? {
      return Status(400), [], st;
    }
    var u := userId.value;
    var ids := playlistIds.value;
    if u !in st.docs || st.docs[u].userMeta.None? {
      return Status(404), [], st;
    }
    var snap := st.docs[u];
    var acc := Acc(st, []);
    var k := 0;
    while k < |ids|
      invariant 0 <= k <= |ids|
      invariant PyAll(snap, st, u, ids[..k], fx) == PyAcc(acc, false)
    {
      assert ids[..k + 1][..k] == ids[..k];
      var raised;
      acc, raised := PyRenderOne(snap, acc, u, k, ids[k], fx);
      if raised {
        RaisedStays(snap, st, u, ids, k + 1, fx);
        return Status(500), [], acc.st;
      }
      k := k + 1;
    }
    assert ids[..|ids|] == ids;
    return Success(200), acc.rendered, acc.st;
  }
}
