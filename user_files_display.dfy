/** The project list of the home page, client/src/components/UserFilesDisplay.js:
    the flat list of the user's files is grouped by `projectId` into one
    entry per project, in the order the projects first appear. */
module UserFilesDisplay {
  import opened JsValues
  import opened Mongo
  import opened Store

  /** A project group of the list. */
  datatype Group = Group(projectTitle: string, projectId: string, mainKey: string, files: seq<FileRecord>)

  function WithGroupId(projectId: string): Group -> bool
  {
    (g: Group) => g.projectId == projectId
  }

  function InProject(projectId: string): FileRecord -> bool
  {
    (f: FileRecord) => f.projectId == projectId
  }

  /** One step of the `reduce`: the file joins the first group with its
      project id, or opens a new group titled after it. */
  function AddToGroups(gs: seq<Group>, f: FileRecord): seq<Group>
  {
    match FindFirst(gs, WithGroupId(f.projectId))
    case None => gs + [Group(f.projectTitle, f.projectId, ProjectMainKey(f.projectId), [f])]
    case Some(i) => gs[i := gs[i].(files := gs[i].files + [f])]
  }

  /** `userFiles.reduce(...)`: the groups after the files in order. */
  function Grouped(files: seq<FileRecord>): seq<Group>
    decreases |files|
  {
    if files == [] then [] else AddToGroups(Grouped(files[..|files| - 1]), files[|files| - 1])
  }

  predicate HasGroup(gs: seq<Group>, projectId: string)
  {
    exists i :: 0 <= i < |gs| && gs[i].projectId == projectId
  }

  /** What the grouping promises: one group per project id; each holds
      exactly that project's files in list order, is keyed
      `projectKey-{id}` and titled after its first file; every file has
      its group. */
  predicate WellGrouped(files: seq<FileRecord>, gs: seq<Group>)
  {
    (forall i, j :: 0 <= i < j < |gs| ==> gs[i].projectId != gs[j].projectId) &&
    (forall i :: 0 <= i < |gs| ==>
       gs[i].files == Keep(files, InProject(gs[i].projectId)) && gs[i].files != [] &&
       gs[i].mainKey == ProjectMainKey(gs[i].projectId) && gs[i].projectTitle == gs[i].files[0].projectTitle) &&
    (forall k :: 0 <= k < |files| ==> HasGroup(gs, files[k].projectId))
  }

  /** The file joins the existing group `i` of its project. */
  lemma AddToExisting(files: seq<FileRecord>, gs: seq<Group>, f: FileRecord, i: nat)
    requires WellGrouped(files, gs)
    requires i < |gs| && gs[i].projectId == f.projectId
    ensures WellGrouped(files + [f], gs[i := gs[i].(files := gs[i].files + [f])])
  {
    var all := files + [f];
    var gs' := gs[i := gs[i].(files := gs[i].files + [f])];
    forall j | 0 <= j < |gs'|
      ensures gs'[j].files == Keep(all, InProject(gs'[j].projectId)) && gs'[j].files != [] &&
              gs'[j].mainKey == ProjectMainKey(gs'[j].projectId) &&
              gs'[j].projectTitle == gs'[j].files[0].projectTitle
    {
      KeepAppend(files, [f], InProject(gs[j].projectId));
      if j == i {
        assert gs'[j].files == gs[i].files + [f];
      } else {
        assert Keep([f], InProject(gs[j].projectId)) == [];
      }
    }
    forall k | 0 <= k < |all| ensures HasGroup(gs', all[k].projectId) {
      if k < |files| {
        assert all[k] == files[k];
        var t :| 0 <= t < |gs| && gs[t].projectId == files[k].projectId;
        assert gs'[t].projectId == files[k].projectId;
      } else {
        assert gs'[i].projectId == all[k].projectId;
      }
    }
  }

  /** The file opens a new group: no earlier group has its project. */
  lemma AddAsNew(files: seq<FileRecord>, gs: seq<Group>, f: FileRecord)
    requires WellGrouped(files, gs)
    requires forall j :: 0 <= j < |gs| ==> gs[j].projectId != f.projectId
    ensures WellGrouped(files + [f], gs + [Group(f.projectTitle, f.projectId, ProjectMainKey(f.projectId), [f])])
  {
    var q := f.projectId;
    var all := files + [f];
    var gs' := gs + [Group(f.projectTitle, q, ProjectMainKey(q), [f])];
    assert Keep(files, InProject(q)) == [] by {
      forall k | 0 <= k < |files| ensures files[k].projectId != q {
        var t :| 0 <= t < |gs| && gs[t].projectId == files[k].projectId;
      }
      KeepNoneEmpty(files, InProject(q));
    }
    forall j | 0 <= j < |gs'|
      ensures gs'[j].files == Keep(all, InProject(gs'[j].projectId))
    {
      KeepAppend(files, [f], InProject(gs'[j].projectId));
      if j < |gs| {
        assert Keep([f], InProject(gs[j].projectId)) == [];
      }
    }
    forall k | 0 <= k < |all| ensures HasGroup(gs', all[k].projectId) {
      if k < |files| {
        assert all[k] == files[k];
        var t :| 0 <= t < |gs| && gs[t].projectId == files[k].projectId;
        assert gs'[t].projectId == files[k].projectId;
      } else {
        assert gs'[|gs|].projectId == all[k].projectId;
      }
    }
  }

  lemma AddKeepsGrouped(files: seq<FileRecord>, gs: seq<Group>, f: FileRecord)
    requires WellGrouped(files, gs)
    ensures WellGrouped(files + [f], AddToGroups(gs, f))
  {
    match FindFirst(gs, WithGroupId(f.projectId))
    case Some(i) =>
      AddToExisting(files, gs, f, i);
    case None =>
      forall j | 0 <= j < |gs| ensures gs[j].projectId != f.projectId {
        assert !WithGroupId(f.projectId)(gs[j]);
      }
      AddAsNew(files, gs, f);
  }

  /** The grouping of any list is well grouped. */
  lemma {:induction false} GroupedIsWellGrouped(files: seq<FileRecord>)
    ensures WellGrouped(files, Grouped(files))
    decreases |files|
  {
    if files != [] {
      var n := |files| - 1;
      GroupedIsWellGrouped(files[..n]);
      AddKeepsGrouped(files[..n], Grouped(files[..n]), files[n]);
      assert files[..n] + [files[n]] == files;
    }
  }

  /** Project `a` shows up in the file list before project `b` does. */
  predicate SeenBefore(files: seq<FileRecord>, a: string, b: string)
  {
    exists k :: 0 <= k < |files| && files[k].projectId == a &&
      forall m :: 0 <= m <= k ==> files[m].projectId != b
  }

  /** The groups come in the order their projects first appear. */
  predicate InFirstSeenOrder(files: seq<FileRecord>, gs: seq<Group>)
  {
    forall i, j :: 0 <= i < j < |gs| ==> SeenBefore(files, gs[i].projectId, gs[j].projectId)
  }

  lemma SeenBeforeExtend(files: seq<FileRecord>, f: FileRecord, a: string, b: string)
    requires SeenBefore(files, a, b)
    ensures SeenBefore(files + [f], a, b)
  {
    var k :| 0 <= k < |files| && files[k].projectId == a && forall m :: 0 <= m <= k ==> files[m].projectId != b;
    var all := files + [f];
    forall m | 0 <= m <= k ensures all[m].projectId != b {
      assert all[m] == files[m];
    }
    assert all[k] == files[k];
  }

  /** A project with no group yet occurs in no earlier file, so every
      existing group's project is seen before it. */
  lemma NewProjectSeenAfter(files: seq<FileRecord>, gs: seq<Group>, f: FileRecord, i: nat)
    requires WellGrouped(files, gs)
    requires forall t :: 0 <= t < |gs| ==> gs[t].projectId != f.projectId
    requires i < |gs|
    ensures SeenBefore(files + [f], gs[i].projectId, f.projectId)
  {
    var all := files + [f];
    var a := gs[i].projectId;
    KeepMembers(files, InProject(a));
    assert gs[i].files[0] in Keep(files, InProject(a));
    var k :| 0 <= k < |files| && files[k] == gs[i].files[0];
    forall m | 0 <= m <= k ensures all[m].projectId != f.projectId {
      assert all[m] == files[m];
      assert HasGroup(gs, files[m].projectId);
    }
    assert all[k].projectId == a;
  }

  /** One step of the `reduce` keeps the groups in first-seen order: a
      new group goes last, and its project occurs in no earlier file. */
  lemma AddKeepsOrder(files: seq<FileRecord>, gs: seq<Group>, f: FileRecord)
    requires WellGrouped(files, gs) && InFirstSeenOrder(files, gs)
    ensures InFirstSeenOrder(files + [f], AddToGroups(gs, f))
  {
    var all := files + [f];
    var gs' := AddToGroups(gs, f);
    match FindFirst(gs, WithGroupId(f.projectId))
    case Some(i0) =>
      forall i, j | 0 <= i < j < |gs'| ensures SeenBefore(all, gs'[i].projectId, gs'[j].projectId) {
        SeenBeforeExtend(files, f, gs[i].projectId, gs[j].projectId);
      }
    case None =>
      forall t | 0 <= t < |gs| ensures gs[t].projectId != f.projectId {
        assert !WithGroupId(f.projectId)(gs[t]);
      }
      assert gs' == gs + [Group(f.projectTitle, f.projectId, ProjectMainKey(f.projectId), [f])];
      forall i, j | 0 <= i < j < |gs'| ensures SeenBefore(all, gs'[i].projectId, gs'[j].projectId) {
        if j < |gs| {
          SeenBeforeExtend(files, f, gs[i].projectId, gs[j].projectId);
        } else {
          NewProjectSeenAfter(files, gs, f, i);
        }
      }
  }

  /** The groups of any list come in the order their projects first appear. */
  lemma {:induction false} GroupedInFirstSeenOrder(files: seq<FileRecord>)
    ensures InFirstSeenOrder(files, Grouped(files))
    decreases |files|
  {
    if files != [] {
      var n := |files| - 1;
      GroupedInFirstSeenOrder(files[..n]);
      GroupedIsWellGrouped(files[..n]);
      AddKeepsOrder(files[..n], Grouped(files[..n]), files[n]);
      assert files[..n] + [files[n]] == files;
    }
  }

  /** The number of files over all groups. */
  function TotalFiles(gs: seq<Group>): nat
  {
    if gs == [] then 0 else TotalFiles(gs[..|gs| - 1]) + |gs[|gs| - 1].files|
  }

  lemma {:induction false} TotalFilesUpdate(gs: seq<Group>, i: nat, g: Group)
    requires i < |gs|
    ensures TotalFiles(gs[i := g]) + |gs[i].files| == TotalFiles(gs) + |g.files|
    decreases |gs|
  {
    var n := |gs| - 1;
    if i < n {
      assert gs[i := g][..n] == gs[..n][i := g];
      TotalFilesUpdate(gs[..n], i, g);
    } else {
      assert gs[i := g][..n] == gs[..n];
    }
  }

  /** The group sizes add up to the number of files. */
  lemma {:induction false} GroupedSizes(files: seq<FileRecord>)
    ensures TotalFiles(Grouped(files)) == |files|
    decreases |files|
  {
    if files != [] {
      var n := |files| - 1;
      GroupedSizes(files[..n]);
      AddToGroupsSize(Grouped(files[..n]), files[n]);
    }
  }

  /** Adding a file adds one to the total. */
  lemma AddToGroupsSize(gs: seq<Group>, f: FileRecord)
    ensures TotalFiles(AddToGroups(gs, f)) == TotalFiles(gs) + 1
  {
    match FindFirst(gs, WithGroupId(f.projectId))
    case Some(i) =>
      TotalFilesUpdate(gs, i, gs[i].(files := gs[i].files + [f]));
    case None =>
      var g := Group(f.projectTitle, f.projectId, ProjectMainKey(f.projectId), [f]);
      assert (gs + [g])[..|gs|] == gs;
  }

  /** The `reduce` itself: find the group, open it when missing, find it
      again and push the file. */
  method GroupByProject(userFiles: seq<FileRecord>) returns (projects: seq<Group>)
    ensures projects == Grouped(userFiles)
    ensures WellGrouped(userFiles, projects)
    ensures InFirstSeenOrder(userFiles, projects) && TotalFiles(projects) == |userFiles|
  {
    projects := [];
    for i := 0 to |userFiles|
      invariant projects == Grouped(userFiles[..i])
    {
      var file := userFiles[i];
      ghost var before := projects;
      var projectExists := FindFirst(projects, WithGroupId(file.projectId));
      if projectExists.None? {
        projects := projects + [Group(file.projectTitle, file.projectId, ProjectMainKey(file.projectId), [])];
      }
      var at := FindFirst(projects, WithGroupId(file.projectId));
      if projectExists.None? {
        assert WithGroupId(file.projectId)(projects[|projects| - 1]);
        assert at.value == |projects| - 1;
      } else {
        assert at == projectExists;
      }
      projects := projects[at.value := projects[at.value].(files := projects[at.value].files + [file])];
      if projectExists.None? {
        assert at.value == |before|;
        assert projects[|before|].files == [] + [file] == [file];
        assert projects[..|before|] == before;
        assert projects == before + [Group(file.projectTitle, file.projectId, ProjectMainKey(file.projectId), [file])];
      }
      assert projects == AddToGroups(before, file);
      assert userFiles[..i + 1][..i] == userFiles[..i];
      assert Grouped(userFiles[..i + 1]) == AddToGroups(Grouped(userFiles[..i]), file);
    }
    assert userFiles[..|userFiles|] == userFiles;
    GroupedIsWellGrouped(userFiles);
    GroupedInFirstSeenOrder(userFiles);
    GroupedSizes(userFiles);
  }
}
