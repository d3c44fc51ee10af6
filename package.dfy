/** `/package-playlists` of api/fileRoutes.js: the selected playlists are
    read from the user's document, each is sorted by `seqPos`, every file
    that could be fetched is appended to a zip archive under
    `{projectTitle}/{seqPos padded to 2}_{fileName}` and described in a
    manifest, and the manifest (`metadata.json`) and the render script are
    appended last. The handler reads the document and the bucket and writes
    neither. */
module Package {
  import opened JsValues
  import opened Strings
  import opened Mongo
  import opened Store
  import Metadata
  import opened SeqPosOrder

  /** `playlistIds.includes(meta.projectId)`. */
  function InIds(ids: seq<string>): Project -> bool
  {
    (p: Project) => p.projectId in ids
  }

  /** The archive path of a fetched file. */
  function ArchivePath(title: string, f: FileRecord): string
  {
    title + "/" + PadStart2(Metadata.Template(f.seqPos)) + "_" + f.fileName
  }

  /** Where the bytes of an archive entry come from. */
  datatype Source = BlobObject(key: string) | ManifestJson | RenderScript

  datatype Entry = Entry(name: string, source: Source)

  /** One `playlistMetadata.files` element. */
  datatype ManifestFile = ManifestFile(fileName: string, path: string, seqPos: JsVal, key: string, duration: JsVal,
                                       frameRate: JsVal, resolution: JsVal, fileId: string, projectId: string,
                                       createdAt: string)

  datatype PlaylistManifest = PlaylistManifest(projectTitle: string, projectId: string, files: seq<ManifestFile>)

  /** The content of `metadata.json`. */
  datatype Manifest = Manifest(userId: string, generatedAt: string, playlists: seq<PlaylistManifest>)

  function ManifestOf(title: string, f: FileRecord): ManifestFile
  {
    ManifestFile(f.fileName, ArchivePath(title, f), f.seqPos, f.key, f.duration, f.frameRate, f.resolution,
                 f.fileId, f.projectId, f.createdAt)
  }

  function BlobEntry(title: string, f: FileRecord): Entry
  {
    Entry(ArchivePath(title, f), BlobObject(f.key))
  }

  // ------------------------------------------------------------ one playlist

  /** Every entry of `c` is a position below `n`. */
  predicate InRange(c: seq<nat>, n: nat)
  {
    forall a :: 0 <= a < |c| ==> c[a] < n
  }

  /** The order in which one playlist's fetches finished: the positions, in
      the sorted file list, of the files whose signed URL was issued and
      whose response was `ok`, each once, in the order their callbacks
      reached `archive.append`. `Promise.all` imposes no order on them. */
  predicate CompletionOrder(c: seq<nat>, n: nat)
  {
    InRange(c, n) && forall a, b :: 0 <= a < b < |c| ==> c[a] != c[b]
  }

  /** The fetches finished in file order. */
  predicate Increasing(c: seq<nat>)
  {
    forall a, b :: 0 <= a < b < |c| ==> c[a] < c[b]
  }

  /** The archive entries the file callbacks append: one per finished
      fetch, in completion order. */
  function PlaylistEntries(title: string, files: seq<FileRecord>, c: seq<nat>): (es: seq<Entry>)
    requires InRange(c, |files|)
    ensures |es| == |c| && forall a :: 0 <= a < |c| ==> es[a] == BlobEntry(title, files[c[a]])
  {
    seq(|c|, a requires 0 <= a < |c| => BlobEntry(title, files[c[a]]))
  }

  /** The manifest lines the same callbacks push. */
  function PlaylistFiles(title: string, files: seq<FileRecord>, c: seq<nat>): (ms: seq<ManifestFile>)
    requires InRange(c, |files|)
    ensures |ms| == |c| && forall a :: 0 <= a < |c| ==> ms[a] == ManifestOf(title, files[c[a]])
  {
    seq(|c|, a requires 0 <= a < |c| => ManifestOf(title, files[c[a]]))
  }

  /** Entry and manifest line go together: the `a`-th line names the path
      of the `a`-th entry, and both describe the file whose fetch finished
      `a`-th. */
  lemma PlaylistPairs(title: string, files: seq<FileRecord>, c: seq<nat>)
    requires InRange(c, |files|)
    ensures var es := PlaylistEntries(title, files, c);
      var ms := PlaylistFiles(title, files, c);
      |es| == |ms| &&
      forall a :: 0 <= a < |c| ==>
        ms[a].path == es[a].name && es[a].source == BlobObject(files[c[a]].key) &&
        ms[a].key == files[c[a]].key && ms[a].fileId == files[c[a]].fileId
  {
  }

  /** When the fetches of a sorted playlist finish in file order, its
      manifest lines ascend by `seqPos`. In any other completion order they
      need not. */
  lemma PlaylistFilesAscending(title: string, files: seq<FileRecord>, c: seq<nat>)
    requires Sorted(files)
    requires InRange(c, |files|) && Increasing(c)
    ensures var ms := PlaylistFiles(title, files, c);
      forall a, b :: 0 <= a < b < |ms| ==> NumOr0(ms[a].seqPos) <= NumOr0(ms[b].seqPos)
  {
    PlaylistPairs(title, files, c);
    SortedPairs(files);
    var ms := PlaylistFiles(title, files, c);
    forall a, b | 0 <= a < b < |ms| ensures NumOr0(ms[a].seqPos) <= NumOr0(ms[b].seqPos) {
      assert Key(files[c[a]]) <= Key(files[c[b]]);
    }
  }

  /** Two files at positions 1 and 2 whose fetches finish in reverse order:
      the manifest lists position 2 first. */
  lemma ReverseCompletionUnsorted(title: string, f: FileRecord, g: FileRecord)
    requires f.seqPos == Num(1) && g.seqPos == Num(2)
    ensures var ms := PlaylistFiles(title, [f, g], [1, 0]);
      |ms| == 2 && NumOr0(ms[0].seqPos) > NumOr0(ms[1].seqPos)
  {
    PlaylistPairs(title, [f, g], [1, 0]);
  }

  /** The callbacks of one playlist over its sorted files. */
  method PackPlaylist(p: Project, c: seq<nat>) returns (entries: seq<Entry>, manifest: PlaylistManifest)
    requires InRange(c, |p.playlistsFile|)
    ensures entries == PlaylistEntries(p.projectTitle, SortBySeqPos(p.playlistsFile), c)
    ensures manifest == ManifestOfPlaylist(p, c)
  {
    var files := SortBySeqPos(p.playlistsFile);
    var lines;
    entries, lines := PackFiles(p.projectTitle, files, c);
    manifest := PlaylistManifest(p.projectTitle, p.projectId, lines);
  }

  /** The file callbacks of one playlist, taken in completion order: each
      fetched file is appended to the archive and gets its manifest line.
      A file whose URL or fetch failed returns early and is not in `c`. */
  method PackFiles(title: string, files: seq<FileRecord>, c: seq<nat>)
    returns (entries: seq<Entry>, lines: seq<ManifestFile>)
    requires InRange(c, |files|)
    ensures entries == PlaylistEntries(title, files, c)
    ensures lines == PlaylistFiles(title, files, c)
  {
    ghost var es, ms := PlaylistEntries(title, files, c), PlaylistFiles(title, files, c);
    lines := [];
    entries := [];
    var a := 0;
    while a < |c|
      invariant 0 <= a <= |c|
      invariant entries == es[..a] && lines == ms[..a]
    {
      var file := files[c[a]];
      PrefixStep(es, a);
      PrefixStep(ms, a);
      entries := entries + [BlobEntry(title, file)];
      lines := lines + [ManifestOf(title, file)];
      a := a + 1;
    }
    WholePrefix(es);
    WholePrefix(ms);
  }

  /** A prefix one longer is the prefix and the next element. */
  lemma PrefixStep<T>(s: seq<T>, a: nat)
    requires a < |s|
    ensures s[..a + 1] == s[..a] + [s[a]]
  {
  }

  lemma WholePrefix<T>(s: seq<T>)
    ensures s[..|s|] == s
  {
  }


  // ---------------------------------------------------------- all playlists

  /** `fetched(k)` lies within the files of the `k`-th selected playlist. */
  predicate FetchesInRange(selected: seq<Project>, fetched: nat -> seq<nat>)
  {
    forall k :: 0 <= k < |selected| ==> InRange(fetched(k), |selected[k].playlistsFile|)
  }

  /** `fetched(k)` is a completion order of the `k`-th selected playlist. */
  predicate Completions(selected: seq<Project>, fetched: nat -> seq<nat>)
  {
    forall k :: 0 <= k < |selected| ==> CompletionOrder(fetched(k), |selected[k].playlistsFile|)
  }

  /** The archive entries of the selected playlists, the `k`-th playlist's
      fetches finishing in the order `fetched(k)`. */
  function AllEntries(selected: seq<Project>, fetched: nat -> seq<nat>): seq<Entry>
    requires FetchesInRange(selected, fetched)
    decreases |selected|
  {
    if selected == [] then []
    else
      var k := |selected| - 1;
      var p := selected[k];
      AllEntries(selected[..k], fetched) + PlaylistEntries(p.projectTitle, SortBySeqPos(p.playlistsFile), fetched(k))
  }

  /** The manifest of one playlist. */
  function ManifestOfPlaylist(p: Project, c: seq<nat>): PlaylistManifest
    requires InRange(c, |p.playlistsFile|)
  {
    PlaylistManifest(p.projectTitle, p.projectId, PlaylistFiles(p.projectTitle, SortBySeqPos(p.playlistsFile), c))
  }

  /** `jsonMetadata.playlists`: one element per selected playlist, in
      selection order, also when none of its files could be fetched. */
  function AllManifests(selected: seq<Project>, fetched: nat -> seq<nat>): (r: seq<PlaylistManifest>)
    requires FetchesInRange(selected, fetched)
    ensures |r| == |selected|
    ensures forall k :: 0 <= k < |r| ==>
      r[k].projectTitle == selected[k].projectTitle && r[k].projectId == selected[k].projectId &&
      |r[k].files| == |fetched(k)|
  {
    seq(|selected|, k requires 0 <= k < |selected| => ManifestOfPlaylist(selected[k], fetched(k)))
  }

  /** The total number of manifest lines. */
  function LineCount(ms: seq<PlaylistManifest>): nat
  {
    if ms == [] then 0 else LineCount(ms[..|ms| - 1]) + |ms[|ms| - 1].files|
  }

  /** The archive holds exactly one blob entry per manifest line. */
  lemma {:induction false} AllPaired(selected: seq<Project>, fetched: nat -> seq<nat>)
    requires FetchesInRange(selected, fetched)
    ensures |AllEntries(selected, fetched)| == LineCount(AllManifests(selected, fetched))
    decreases |selected|
  {
    if selected != [] {
      var k := |selected| - 1;
      AllPaired(selected[..k], fetched);
      var ms := AllManifests(selected, fetched);
      assert ms[..k] == AllManifests(selected[..k], fetched);
    }
  }

  /** When every playlist's fetches finish in file order, each playlist's
      manifest lines ascend by `seqPos`. */
  lemma ManifestsAscending(selected: seq<Project>, fetched: nat -> seq<nat>)
    requires FetchesInRange(selected, fetched)
    requires forall k :: 0 <= k < |selected| ==> Increasing(fetched(k))
    ensures var ms := AllManifests(selected, fetched);
      forall k, a, b :: 0 <= k < |ms| && 0 <= a < b < |ms[k].files| ==>
        NumOr0(ms[k].files[a].seqPos) <= NumOr0(ms[k].files[b].seqPos)
  {
    var ms := AllManifests(selected, fetched);
    forall k | 0 <= k < |ms|
      ensures forall a, b :: 0 <= a < b < |ms[k].files| ==>
        NumOr0(ms[k].files[a].seqPos) <= NumOr0(ms[k].files[b].seqPos)
    {
      var p := selected[k];
      assert ms[k] == ManifestOfPlaylist(p, fetched(k));
      PlaylistFilesAscending(p.projectTitle, SortBySeqPos(p.playlistsFile), fetched(k));
    }
  }

  // ---------------------------------------------------------------- handler

  datatype PackageOutcome =
    | PackageInvalid                   // 400
    | PackageNotFound                  // 404: no document or no userMeta
    | PackageNoMatch                   // 404: no project with a requested id
    | PackageEmpty                     // 500: the zip file is empty
    | Packaged(zipName: string, entries: seq<Entry>, manifest: Manifest)

  function PackageReply(o: PackageOutcome): (r: Reply)
    ensures r.success <==> o.Packaged?
  {
    match o
    case PackageInvalid => Status(400)
    case PackageNotFound => Status(404)
    case PackageNoMatch => Status(404)
    case PackageEmpty => Status(500)
    case Packaged(_, _, _) => Success(200)
  }

  /** `playlists_{Date.now()}.zip`. */
  function ZipName(now: nat): string
  {
    "playlists_" + NatToString(now) + ".zip"
  }

  /** What goes after the playlists: the manifest, then the script when it
      exists on disk. */
  function Trailer(scriptExists: bool): seq<Entry>
  {
    [Entry("metadata.json", ManifestJson)] + if scriptExists then [Entry("import_and_render.jsx", RenderScript)] else []
  }

  /** The playlists of the document that the request selects, in document
      order. */
  function Selected(st: State, userId: string, ids: seq<string>): seq<Project>
    requires userId in st.docs
  {
    Keep(Meta(st.docs[userId]), InIds(ids))
  }

  /** One more playlist is one more step of the archive fold. */
  lemma AllStep(selected: seq<Project>, fetched: nat -> seq<nat>, k: nat)
    requires FetchesInRange(selected, fetched) && k < |selected|
    ensures AllEntries(selected[..k + 1], fetched) ==
      AllEntries(selected[..k], fetched) +
      PlaylistEntries(selected[k].projectTitle, SortBySeqPos(selected[k].playlistsFile), fetched(k))
  {
    assert selected[..k + 1][..k] == selected[..k];
  }

  /** The loop over the selected playlists: each appends its entries to the
      archive, and after its `Promise.all` its manifest is pushed onto
      `jsonMetadata.playlists`. */
  method PackAll(selected: seq<Project>, fetched: nat -> seq<nat>)
    returns (entries: seq<Entry>, playlists: seq<PlaylistManifest>)
    requires FetchesInRange(selected, fetched)
    ensures entries == AllEntries(selected, fetched)
    ensures playlists == AllManifests(selected, fetched)
  {
    ghost var ms := AllManifests(selected, fetched);
    entries := [];
    playlists := [];
    var k := 0;
    while k < |selected|
      invariant 0 <= k <= |selected|
      invariant entries == AllEntries(selected[..k], fetched)
      invariant playlists == ms[..k]
    {
      AllStep(selected, fetched, k);
      var es, m := PackPlaylist(selected[k], fetched(k));
      entries := entries + es;
      PrefixStep(ms, k);
      playlists := playlists + [m];
      k := k + 1;
    }
    WholePrefix(ms);
    WholePrefix(selected);
  }

  /** The handler. `fetched(k)` is the completion order of the `k`-th
      selected playlist's successful fetches (positions in its sorted file
      list); `now` is `Date.now()`, `generatedAt` the ISO timestamp. */
  method PackagePlaylists(st: State, userId: string, playlistIds: Option<seq<string>>, fetched: nat -> seq<nat>,
                          scriptExists: bool, now: nat, generatedAt: string)
    returns (outcome: PackageOutcome)
    requires userId in st.docs && playlistIds.Some? ==> Completions(Selected(st, userId, playlistIds.value), fetched)
    ensures outcome == PackageInvalid <==> userId == "" || playlistIds.None? || playlistIds.value == []
    ensures outcome == PackageNotFound <==>
      outcome != PackageInvalid && (userId !in st.docs || st.docs[userId].userMeta.None?)
    ensures outcome == PackageNoMatch <==>
      outcome != PackageInvalid && outcome != PackageNotFound && Selected(st, userId, playlistIds.value) == []
    ensures outcome != PackageEmpty
    ensures outcome.Packaged? ==>
      var selected := Selected(st, userId, playlistIds.value);
      outcome.zipName == ZipName(now) &&
      FetchesInRange(selected, fetched) &&
      outcome.entries == AllEntries(selected, fetched) + Trailer(scriptExists) &&
      outcome.manifest == Manifest(userId, generatedAt, AllManifests(selected, fetched))
  {
    if userId == "" || playlistIds.None? || playlistIds.value == [] {
      return PackageInvalid;
    }
    if userId !in st.docs || st.docs[userId].userMeta.None? {
      return PackageNotFound;
    }
    var selected := Selected(st, userId, playlistIds.value);
    if selected == [] {
      return PackageNoMatch;
    }
    var entries, playlists := PackAll(selected, fetched);
    entries := entries + Trailer(scriptExists);
    if |entries| == 0 {
      return PackageEmpty;
    }
    outcome := Packaged(ZipName(now), entries, Manifest(userId, generatedAt, playlists));
  }
}
