/** What the two render routes (`/render-playlist` of api/fileRoutes.js and
    `/api/render-playlist` of api/app.py) have in common: a rendered file
    is uploaded under the user's `rendered_videos/` folder and its record is
    pushed onto the `renderFile` array of the first project with the
    playlist's id. Nothing else in the user's document changes. */
module Render {
  import opened JsValues
  import opened Strings
  import opened Mongo
  import opened Store

  /** `$push: {'userMeta.$.renderFile': record}` applied to the project. */
  function PushRenderFile(record: FileRecord): Project -> Project
  {
    (p: Project) => p.(renderFile := p.renderFile + [record])
  }

  /** The `updateOne` of both routes: the first project with `projectId`
      receives the record. */
  function RenderDoc(d: UserDoc, projectId: string, record: FileRecord): UserDoc
  {
    UpdateProject(d, projectId, PushRenderFile(record))
  }

  /** `users/{userId}/rendered_videos/output-{stamp}.mp4`. */
  function RenderedKey(userId: string, stamp: nat): (k: string)
  {
    "users/" + userId + "/rendered_videos/output-" + NatToString(stamp) + ".mp4"
  }

  /** `q` is `p` with records appended to its `renderFile`. */
  predicate GrownRender(p: Project, q: Project)
  {
    q == p.(renderFile := q.renderFile) && p.renderFile <= q.renderFile
  }

  /** `d1` is `d0` with records appended to `renderFile` arrays only. */
  predicate RenderOnly(d0: UserDoc, d1: UserDoc)
  {
    d1.programming == d0.programming && d1.userMeta.Some? == d0.userMeta.Some? &&
    |Meta(d1)| == |Meta(d0)| &&
    forall i :: 0 <= i < |Meta(d0)| ==> GrownRender(Meta(d0)[i], Meta(d1)[i])
  }

  /** The state after renders for `userId`: the other documents and the
      admin document are untouched, no blob is removed, and the user's own
      document only grows `renderFile` arrays. */
  predicate RenderedFrom(st0: State, st1: State, userId: string)
  {
    st1.admin == st0.admin && st0.blobs <= st1.blobs && st1.docs.Keys == st0.docs.Keys &&
    (forall u :: u in st0.docs && u != userId ==> st1.docs[u] == st0.docs[u]) &&
    (userId in st0.docs ==> RenderOnly(st0.docs[userId], st1.docs[userId]))
  }

  /** The record sits in the `renderFile` of the first project with its id. */
  predicate InRenderFile(d: UserDoc, r: FileRecord)
  {
    match ProjectIndex(d, r.projectId)
    case None => false
    case Some(i) => r in Meta(d)[i].renderFile
  }

  /** The push appends to the matching project and leaves the rest alone. */
  lemma RenderDocOnly(d: UserDoc, projectId: string, record: FileRecord)
    ensures RenderOnly(d, RenderDoc(d, projectId, record))
    ensures ProjectIndex(d, projectId).Some? ==>
      var i := ProjectIndex(d, projectId).value;
      Meta(RenderDoc(d, projectId, record))[i].renderFile == Meta(d)[i].renderFile + [record]
    ensures ProjectIndex(d, projectId).None? ==> RenderDoc(d, projectId, record) == d
    ensures ProjectIndex(RenderDoc(d, projectId, record), projectId) == ProjectIndex(d, projectId)
  {
    RenderOnlyIndex(d, RenderDoc(d, projectId, record), projectId);
  }

  lemma RenderOnlyTrans(d0: UserDoc, d1: UserDoc, d2: UserDoc)
    requires RenderOnly(d0, d1) && RenderOnly(d1, d2)
    ensures RenderOnly(d0, d2)
  {
    forall i | 0 <= i < |Meta(d0)| ensures GrownRender(Meta(d0)[i], Meta(d2)[i]) {
      assert GrownRender(Meta(d1)[i], Meta(d2)[i]);
    }
  }

  /** Renders never change which project an id selects. */
  lemma RenderOnlyIndex(d0: UserDoc, d1: UserDoc, projectId: string)
    requires RenderOnly(d0, d1)
    ensures ProjectIndex(d0, projectId) == ProjectIndex(d1, projectId)
  {
    assert forall j :: 0 <= j < |Meta(d0)| ==> Meta(d1)[j].projectId == Meta(d0)[j].projectId by {
      forall j | 0 <= j < |Meta(d0)| ensures Meta(d1)[j].projectId == Meta(d0)[j].projectId {
        assert GrownRender(Meta(d0)[j], Meta(d1)[j]);
      }
    }
    var a := ProjectIndex(d0, projectId);
    var b := ProjectIndex(d1, projectId);
    if a.Some? {
      assert Meta(d1)[a.value].projectId == projectId;
    }
    if b.Some? {
      assert Meta(d0)[b.value].projectId == projectId;
    }
  }

  /** A record once placed stays placed. */
  lemma InRenderFileKept(d0: UserDoc, d1: UserDoc, r: FileRecord)
    requires RenderOnly(d0, d1) && InRenderFile(d0, r)
    ensures InRenderFile(d1, r)
  {
    RenderOnlyIndex(d0, d1, r.projectId);
    var i := ProjectIndex(d0, r.projectId).value;
    assert GrownRender(Meta(d0)[i], Meta(d1)[i]);
    var s := Meta(d0)[i].renderFile;
    var t := Meta(d1)[i].renderFile;
    var k :| 0 <= k < |s| && s[k] == r;
    assert t[k] == s[k];
  }

  lemma RenderedFromTrans(st0: State, st1: State, st2: State, userId: string)
    requires RenderedFrom(st0, st1, userId) && RenderedFrom(st1, st2, userId)
    ensures RenderedFrom(st0, st2, userId)
  {
    if userId in st0.docs {
      RenderOnlyTrans(st0.docs[userId], st1.docs[userId], st2.docs[userId]);
    }
  }

  /** What a render loop has done so far: the state and `renderedFilesMetadata`. */
  datatype Acc = Acc(st: State, rendered: seq<FileRecord>)

  /** Upload the object of `r` and push `r` onto its playlist's `renderFile`. */
  function Record(acc: Acc, userId: string, r: FileRecord): (next: Acc)
    requires userId in acc.st.docs
    ensures RenderedFrom(acc.st, next.st, userId)
    ensures next.rendered == acc.rendered + [r]
    ensures next.st.blobs == acc.st.blobs + {r.key}
    ensures ProjectIndex(acc.st.docs[userId], r.projectId).Some? ==> InRenderFile(next.st.docs[userId], r)
  {
    var d := acc.st.docs[userId];
    RenderDocOnly(d, r.projectId, r);
    Acc(acc.st.(docs := acc.st.docs[userId := RenderDoc(d, r.projectId, r)], blobs := acc.st.blobs + {r.key}), acc.rendered + [r])
  }

  /** The loop invariant shared by both routes: only renders happened since
      `st0`, and every listed record is uploaded and placed. */
  predicate Good(st0: State, acc: Acc, userId: string)
  {
    userId in st0.docs && RenderedFrom(st0, acc.st, userId) &&
    forall r :: r in acc.rendered ==> r.key in acc.st.blobs && InRenderFile(acc.st.docs[userId], r)
  }

  /** Recording a record whose project exists keeps the invariant. */
  lemma RecordGood(st0: State, acc: Acc, userId: string, r: FileRecord)
    requires Good(st0, acc, userId)
    requires ProjectIndex(st0.docs[userId], r.projectId).Some?
    ensures Good(st0, Record(acc, userId, r), userId)
  {
    var next := Record(acc, userId, r);
    RenderedFromTrans(st0, acc.st, next.st, userId);
    RenderOnlyIndex(st0.docs[userId], acc.st.docs[userId], r.projectId);
    RenderDocOnly(acc.st.docs[userId], r.projectId, r);
    forall q | q in next.rendered ensures q.key in next.st.blobs && InRenderFile(next.st.docs[userId], q) {
      if q != r {
        InRenderFileKept(acc.st.docs[userId], next.st.docs[userId], q);
      }
    }
  }
}
