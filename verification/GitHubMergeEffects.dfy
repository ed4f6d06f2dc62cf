/** What a merge leaves behind in the tracker and among the branches. */
module GitHubMergeEffects {
  import opened Tables
  import opened GitCopy
  import opened GitHubDb
  import opened GitHubRefLaws
  import opened GitHubTrackerLaws
  import opened GitHubTrackerEffects
  import opened GitHubRuns
  import opened GitHubMerges

  /** The pull is merged and closed, its issue is closed at the same time, and no other issue or pull changes. */
  ghost predicate PullClosed(r: Repo, r': Repo, number: int, now: int) {
    && ChangesOnlyTracker(r, r', number)
    && 1 <= number <= |r.issues|
      && r'.issues[number - 1] == r.issues[number - 1].(state := Closed, closedAt := Some(now))
    && (forall j :: 0 <= j < |r.pulls| && r.pulls[j].number == number ==>
          r'.pulls[j] == r.pulls[j].(merged := true, state := Closed, closedAt := Some(now)))
    && r'.openIssues == r.openIssues - 1
  }

  ghost predicate ChangesOnlyTracker(r: Repo, r': Repo, number: int) {
    && |r'.issues| == |r.issues| && |r'.pulls| == |r.pulls| && r'.comments == r.comments
    && (forall k :: 0 <= k < |r.issues| && k != number - 1 ==> r'.issues[k] == r.issues[k])
    && (forall j :: 0 <= j < |r.pulls| && r.pulls[j].number != number ==> r'.pulls[j] == r.pulls[j])
  }

  lemma ClosePullEffect(r: Repo, number: int, now: int)
    requires TrackerOk(r) && HasKey(r.pulls, PullNumber, number)
    requires r.pulls[Find(r.pulls, PullNumber, number).value].state == Open
    ensures PullClosed(r, AdjustOpenIssues(ClosePull(r, number, now), -1), number, now)
  {
    hide TrackerOk, Find, PullIssue;
    var j := Find(r.pulls, PullNumber, number).value;
    PullAt(r, number);
    OpenCounted(r, number - 1);
    var r' := ClosePull(r, number, now);
    assert r'.pulls == r.pulls[j := r.pulls[j].(merged := true, state := Closed, closedAt := Some(now))];
    assert r'.issues == r.issues[number - 1 := r.issues[number - 1].(state := Closed, closedAt := Some(now))];
  }

  lemma PullAt(r: Repo, number: int)
    requires TrackerOk(r) && HasKey(r.pulls, PullNumber, number)
    ensures var f := Find(r.pulls, PullNumber, number);
            f.Some? && r.pulls[f.value].number == number && 1 <= number <= |r.issues|
            && r.issues[number - 1].state == r.pulls[f.value].state
            && forall k :: 0 <= k < |r.pulls| && r.pulls[k].number == number ==> k == f.value
    ensures PullIssue(r.issues, number) == Some(number - 1)
  {
    hide CommentsCounted, Count;
    var j := Find(r.pulls, PullNumber, number).value;
    PairAt(r.issues, r.pulls, j);
    FindPullIssue(r.issues, number);
    OnePull(r.pulls, j);
  }

  /** A merge closes its pull for good, and the head branch is gone afterwards exactly where the settings ask for it. */
  lemma MergeEffect(db: Db, id: int, m: MergeRequest, copied: Objects)
    requires DbOk(db) && MergeGuard(db, id, m) == Done && Supplied(db, MergePullEvent(id, m, copied))
    ensures var q, db' := MergedPull(db, id, m), MergePull(db, id, m, copied).0;
            && id in db'.repos && q.headRepo in db'.repos && PullClosed(db.repos[id], db'.repos[id], m.number, m.now)
            && (db.repos[id].settings.deleteOnMerge && q.headRef != q.baseRef ==>
                  q.headRef !in BranchTable(db'.repos[q.headRepo])
                    && HEADS + q.headRef !in RefTable(db'.repos[q.headRepo]))
            && (q.headRepo != id && !db.repos[id].settings.deleteOnMerge ==>
                db'.repos[q.headRepo] == db.repos[q.headRepo])
  {
    hide MergeGuard, MergeInto, ClosePull, MoveBranch, Index, AdjustOpenIssues, NewCommit, AllAgree, ObjectsOk,
         TrackerOk, RefsOk, OwnersCounted, IdsBelow, Supplied, DropBranch, RepoOk, PullClosed, WithCommit;
    var q := MergedPull(db, id, m);
    PullsAreHere(db, id, m);
    HeadStays(db, id, m);
    var o := WithCommit(CopiedOrOwn(db, id, m, copied), NewCommit(db, id, m));
    var r' := MergedRepo(db.repos[id], m, q, o);
    MergeShape(db, id, m, CopiedOrOwn(db, id, m, copied));
    MergedClosed(db.repos[id], id, m, o);
    MergeRepoRefs(db, id, m, copied);
    var db1 := db.(repos := db.repos[id := r']);
    DroppedHead(db1.repos[q.headRepo], q.headRef);
    DroppedHead(r', q.headRef);
    PullClosedFrame(db.repos[id], r', DropBranch(r', q.headRef), m.number, m.now);
  }

  lemma PullClosedFrame(r: Repo, r1: Repo, r2: Repo, number: int, now: int)
    requires r2 == r1.(refs := r2.refs, branches := r2.branches)
    ensures PullClosed(r, r1, number, now) ==> PullClosed(r, r2, number, now)
  {
  }

  lemma MergedClosed(r: Repo, id: int, m: MergeRequest, o: Objects)
    requires RepoOk(r, id) && Find(r.pulls, PullNumber, m.number).Some?
    requires r.pulls[Find(r.pulls, PullNumber, m.number).value].state == Open
    ensures var q := r.pulls[Find(r.pulls, PullNumber, m.number).value];
            PullClosed(r, MergedRepo(r, m, q, o), m.number, m.now)
  {
    hide RefsOk, TrackerOk, ObjectsOk, ClosePull, MoveBranch, Index;
    var q := r.pulls[Find(r.pulls, PullNumber, m.number).value];
    assert HasKey(r.pulls, PullNumber, m.number) by {
      assert PullNumber(q) == m.number;
    }
    ClosePullEffect(r, m.number, m.now);
    ClosePullIgnoresObjects(r, m.number, m.now, o);
    MoveBranchFrame(ClosePull(r.(objects := o), m.number, m.now), q.baseRef, m.mergeSha);
  }

  lemma DroppedHead(r: Repo, b: string)
    requires RefsOk(r)
    ensures var r' := DropBranch(r, b);
            b !in BranchTable(r') && HEADS + b !in RefTable(r') && r' == r.(refs := r'.refs, branches := r'.branches)
  {
    DropBranchLaw(r, b);
    HeadNames(b, b);
  }

  lemma MergeRepoRefs(db: Db, id: int, m: MergeRequest, copied: Objects)
    requires DbOk(db) && MergeGuard(db, id, m) == Done && Supplied(db, MergePullEvent(id, m, copied))
    ensures var q, o := MergedPull(db, id, m), WithCommit(CopiedOrOwn(db, id, m, copied), NewCommit(db, id, m));
            && RefsOk(MergedRepo(db.repos[id], m, q, o))
            && forall k :: k in db.repos ==> RefsOk(db.repos[k]) && RepoOk(db.repos[k], k)
  {
    hide MergeGuard, MergeInto, ClosePull, MoveBranch, AgreesWithAll, ObjectsOk, Supplied, RefsOk, TrackerOk, Index,
         MergedRepo, RepoOk;
    PullsAreHere(db, id, m);
    HeadStays(db, id, m);
    MergeObjectsOk(db, id, m, copied);
    RepoIsOk(db, id);
    MergedRepoOk(db.repos[id], id, m, WithCommit(CopiedOrOwn(db, id, m, copied), NewCommit(db, id, m)));
    RefsOfRepo(MergedRepo(db.repos[id], m, MergedPull(db, id, m),
                          WithCommit(CopiedOrOwn(db, id, m, copied), NewCommit(db, id, m))), id);
    forall k | k in db.repos
      ensures RefsOk(db.repos[k]) && RepoOk(db.repos[k], k)
    {
      RefsOfRepo(db.repos[k], k);
    }
  }

  lemma RefsOfRepo(r: Repo, id: int)
    requires RepoOk(r, id)
    ensures RefsOk(r)
  {
  }
}
