/** A merge keeps the service's invariant, whichever method is used and wherever the head lives. */
module GitHubMerges {
  import opened Tables
  import opened GitGraph
  import opened GitCopy
  import opened GitCopyLaws
  import opened GitHubDb
  import opened GitHubRefLaws
  import opened GitHubTrackerLaws
  import opened GitHubRuns

  ghost predicate AgreesWithAll(db: Db, o: Objects) {
    forall a :: a in db.repos ==>
      Agree(View(o), View(db.repos[a].objects)) && Agree(View(db.repos[a].objects), View(o))
  }

  ghost predicate Grows(o: Objects, o': Objects) {
    && Extends(View(o).commits, View(o').commits)
    && Extends(View(o).trees, View(o').trees) && Extends(View(o).blobs, View(o').blobs)
  }

  lemma CopiedAgrees(s: Graph, t: Graph, t': Graph, other: Graph, c: set<string>, seen: set<string>)
    requires CommitsCopied(s, t, t', {}, c, {}, seen)
    requires Agree(s, other) && Agree(t, other)
    ensures Agree(t', other) && Agree(other, t')
  {
  }

  lemma CopiedHasNoEmptySha(s: Graph, t: Graph, t': Graph, c: set<string>, seen: set<string>)
    requires CommitsCopied(s, t, t', {}, c, {}, seen) && NoEmptySha(s) && NoEmptySha(t)
    ensures NoEmptySha(t')
  {
  }

  /** The base repository's objects right before the merge commit: self-contained and with the whole head. */
  ghost predicate ReadyToMerge(db: Db, base: Objects, head: Objects, o: Objects, headSha: string) {
    && ObjectsOk(o) && AgreesWithAll(db, o) && Grows(base, o)
    && headSha in View(head).commits && headSha in View(o).commits
    && View(o).commits[headSha] == View(head).commits[headSha]
  }

  lemma CopyAgrees(db: Db, id: int, h: int, o: Objects, c: set<string>, seen: set<string>)
    requires AllAgree(db) && id in db.repos && h in db.repos
    requires CommitsCopied(View(db.repos[h].objects), View(db.repos[id].objects), View(o), {}, c, {}, seen)
    ensures AgreesWithAll(db, o)
  {
    hide CommitsCopied, Agree, View;
    forall a | a in db.repos
      ensures Agree(View(o), View(db.repos[a].objects)) && Agree(View(db.repos[a].objects), View(o))
    {
      CopiedAgrees(View(db.repos[h].objects), View(db.repos[id].objects), View(o), View(db.repos[a].objects), c, seen);
    }
  }

  lemma CopyReady(db: Db, id: int, h: int, o: Objects, headSha: string)
    requires TablesOk(db) && id in db.repos && h in db.repos
    requires Copied(db.repos[h].objects, db.repos[id].objects, o, headSha)
    requires headSha in View(db.repos[h].objects).commits
    ensures ReadyToMerge(db, db.repos[id].objects, db.repos[h].objects, o, headSha)
  {
    hide RefsOk, TrackerOk, SelfContained, CommitsCopied, Agree, AgreesWithAll, Index, NoDuplicates, IdsBelow;
    var s, t, t' := View(db.repos[h].objects), View(db.repos[id].objects), View(o);
    RepoIsOk(db, h);
    RepoIsOk(db, id);
    var c, seen :| CommitsCopied(s, t, t', {}, c, {}, seen);
    assert Agree(s, t);
    CopyIsComplete(s, t, t', c, seen, headSha);
    CopiedHasNoEmptySha(s, t, t', c, seen);
    CopyAgrees(db, id, h, o, c, seen);
    ReachesSelf(s.commits, headSha);
  }

  lemma SameRepoReady(db: Db, id: int, headSha: string)
    requires TablesOk(db) && id in db.repos
    requires headSha in View(db.repos[id].objects).commits
    ensures ReadyToMerge(db, db.repos[id].objects, db.repos[id].objects, db.repos[id].objects, headSha)
  {
    hide RefsOk, TrackerOk, Agree;
    assert RepoOk(db.repos[id], id);
  }

  ghost function WithCommit(o: Objects, c: Commit): Objects {
    o.(commits := o.commits + [c])
  }

  lemma GraphGainsCommit(g: Graph, c: Commit)
    requires SelfContained(g) && NoEmptySha(g) && c.sha != "" && c.sha !in g.commits
    requires c.tree in g.trees && forall p :: p in c.parents ==> p in g.commits
    ensures SelfContained(g.(commits := g.commits[c.sha := c])) && NoEmptySha(g.(commits := g.commits[c.sha := c]))
  {
    hide NeedsBlob, NeedsTree;
  }

  lemma FreshCommitAgrees(db: Db, o: Objects, o': Objects, c: Commit)
    requires AgreesWithAll(db, o) && FreshSha(db, c.sha)
    requires View(o') == View(o).(commits := View(o).commits[c.sha := c])
    ensures AgreesWithAll(db, o')
  {
    hide View;
  }

  /** Adding a commit whose parents and tree are there, under a sha nobody uses. */
  lemma CommitAdded(db: Db, o: Objects, c: Commit)
    requires ObjectsOk(o) && AgreesWithAll(db, o) && FreshSha(db, c.sha) && c.sha !in View(o).commits
    requires c.tree in View(o).trees && forall p :: p in c.parents ==> p in View(o).commits
    ensures ObjectsOk(WithCommit(o, c)) && AgreesWithAll(db, WithCommit(o, c)) && Grows(o, WithCommit(o, c))
    ensures View(WithCommit(o, c)) == View(o).(commits := View(o).commits[c.sha := c])
  {
    hide HasKey, Index, SelfContained, AgreesWithAll, NoEmptySha, Unique;
    IndexAppend(o.commits, CommitSha, c);
    UniqueAppend(o.commits, CommitSha, c);
    GraphGainsCommit(View(o), c);
    FreshCommitAgrees(db, o, WithCommit(o, c), c);
  }

  /** A fresh sha is in no copy either: copies only hold what some repository holds. */
  lemma FreshInCopy(db: Db, id: int, h: int, o: Objects, headSha: string, sha: string)
    requires id in db.repos && h in db.repos && FreshSha(db, sha)
    requires Copied(db.repos[h].objects, db.repos[id].objects, o, headSha)
    ensures sha !in View(o).commits
  {
    hide TreesCopied, Index;
  }

  /** The base repository after the merge, before the head branch is dropped. */
  ghost function MergedRepo(r: Repo, m: MergeRequest, q: Pull, o: Objects): Repo {
    AdjustOpenIssues(MoveBranch(ClosePull(r.(objects := o), m.number, m.now), q.baseRef, m.mergeSha), -1)
  }

  lemma ClosePullFrame(r: Repo, number: int, now: int)
    ensures var r' := ClosePull(r, number, now);
            && r' == r.(issues := r'.issues, pulls := r'.pulls)
            && |r'.pulls| == |r.pulls|
            && forall j :: 0 <= j < |r.pulls| ==> r'.pulls[j].baseRepo == r.pulls[j].baseRepo
  {
  }

  lemma MoveBranchFrame(r: Repo, b: string, sha: string)
    ensures var r' := MoveBranch(r, b, sha); r' == r.(refs := r'.refs, branches := r'.branches)
  {
  }

  lemma ClosePullIgnoresObjects(r: Repo, number: int, now: int, o: Objects)
    ensures ClosePull(r.(objects := o), number, now) == ClosePull(r, number, now).(objects := o)
  {
  }

  lemma MergedRepoOk(r: Repo, id: int, m: MergeRequest, o: Objects)
    requires RepoOk(r, id) && ObjectsOk(o) && Extends(Commits(r.objects.commits), Commits(o.commits))
    requires Find(r.pulls, PullNumber, m.number).Some?
    requires m.mergeSha in Commits(o.commits)
    requires r.pulls[Find(r.pulls, PullNumber, m.number).value].state == Open
    ensures var q := r.pulls[Find(r.pulls, PullNumber, m.number).value];
            var r' := MergedRepo(r, m, q, o);
            RepoOk(r', id) && r'.owner == r.owner && r'.isPrivate == r.isPrivate && r'.comments == r.comments
              && r'.objects == o
  {
    hide RefsOk, TrackerOk, ObjectsOk, ClosePull, MoveBranch, Index;
    var q := r.pulls[Find(r.pulls, PullNumber, m.number).value];
    assert HasKey(r.pulls, PullNumber, m.number) by {
      assert PullNumber(q) == m.number;
    }
    ClosePullLaw(r, m.number, m.now);
    ClosePullIgnoresObjects(r, m.number, m.now, o);
    ClosePullFrame(r, m.number, m.now);
    var r1 := ClosePull(r.(objects := o), m.number, m.now);
    RefsOkFrame(r, r1);
    MoveBranchLaw(r1, q.baseRef, m.mergeSha);
    MoveBranchFrame(r1, q.baseRef, m.mergeSha);
    TrackerOkFrame(AdjustOpenIssues(ClosePull(r, m.number, m.now), -1), MergedRepo(r, m, q, o));
    RefsOkFrame(MoveBranch(r1, q.baseRef, m.mergeSha), MergedRepo(r, m, q, o));
  }

  /** One repository gets new objects that agree with everybody's. */
  lemma RepoRebuilt(db: Db, id: int, r': Repo)
    requires DbOk(db) && id in db.repos && RepoOk(r', id)
    requires r'.owner == db.repos[id].owner && r'.isPrivate == db.repos[id].isPrivate
    requires r'.comments == db.repos[id].comments && AgreesWithAll(db, r'.objects)
    ensures DbOk(db.(repos := db.repos[id := r']))
  {
    hide RepoOk, AllAgree, OwnersCounted, Agree;
    AgreeRebuilt(db, id, r');
    OwnersSame(db, id, r');
  }

  lemma DropBranchOk(db: Db, h: int, b: string)
    requires DbOk(db) && h in db.repos
    ensures DbOk(db.(repos := db.repos[h := DropBranch(db.repos[h], b)]))
  {
    hide RefsOk, TrackerOk, ObjectsOk, AllAgree, OwnersCounted;
    assert RepoOk(db.repos[h], h);
    DropBranchLaw(db.repos[h], b);
    RefRequestOk(db.repos[h], DropBranch(db.repos[h], b), h);
    RepoReplaced(db, h, DropBranch(db.repos[h], b), db.nextComment);
  }

  lemma CounterAside(r: Repo, b: string)
    ensures AdjustOpenIssues(DropBranch(r, b), -1) == DropBranch(AdjustOpenIssues(r, -1), b)
  {
  }

  /** What the handler writes, put in order: one rebuilt base repository, and one dropped head branch. */
  lemma MergeShape(db: Db, id: int, m: MergeRequest, copied: Objects)
    requires id in db.repos && MergeGuard(db, id, m) == Done && MergedPull(db, id, m).baseRepo == id
    ensures var q := MergedPull(db, id, m);
            var r' := MergedRepo(db.repos[id], m, q, WithCommit(copied, NewCommit(db, id, m)));
            var db1 := db.(repos := db.repos[id := r']);
            MergeInto(db, id, m, copied) ==
            if db.repos[id].settings.deleteOnMerge && q.headRef != q.baseRef
            then db1.(repos := db1.repos[q.headRepo := DropBranch(db1.repos[q.headRepo], q.headRef)]) else db1
  {
    hide ClosePull, MoveBranch, DropBranch, AdjustOpenIssues, NewCommit, MergeGuard;
    HeadStays(db, id, m);
    var q := MergedPull(db, id, m);
    CounterAside(MoveBranch(ClosePull(db.repos[id].(objects := WithCommit(copied, NewCommit(db, id, m))), m.number,
                                      m.now),
                            q.baseRef, m.mergeSha), q.headRef);
    var r' := MergedRepo(db.repos[id], m, q, WithCommit(copied, NewCommit(db, id, m)));
    var db1 := db.(repos := db.repos[id := r']);
    var db' := MergeInto(db, id, m, copied);
    var want := if db.repos[id].settings.deleteOnMerge && q.headRef != q.baseRef
                then db1.(repos := db1.repos[q.headRepo := DropBranch(db1.repos[q.headRepo], q.headRef)]) else db1;
    assert db'.repos == want.repos;
  }

  lemma HeadStays(db: Db, id: int, m: MergeRequest)
    requires MergeGuard(db, id, m) == Done
    ensures id in db.repos && MergedPull(db, id, m).headRepo in db.repos && MergedPull(db, id, m).baseRepo in db.repos
    ensures Find(db.repos[id].pulls, PullNumber, m.number).Some?
    ensures MergedPull(db, id, m) in db.repos[id].pulls && MergedPull(db, id, m).state == Open
  {
  }

  lemma GuardFinds(db: Db, id: int, m: MergeRequest)
    requires MergeGuard(db, id, m) == Done && MergedPull(db, id, m).baseRepo == id
    ensures var q := MergedPull(db, id, m);
            && q.baseSha in Commits(db.repos[id].objects.commits)
            && q.headSha in Commits(db.repos[q.headRepo].objects.commits)
            && NewCommit(db, id, m) == Commit(m.mergeSha, Commits(db.repos[q.headRepo].objects.commits)[q.headSha].tree,
                                              MergeParents(q, m.mergeMethod), m.message)
  {
    var q := MergedPull(db, id, m);
    FindIsIndex(db.repos[id].objects.commits, CommitSha, q.baseSha);
    FindIsIndex(db.repos[q.headRepo].objects.commits, CommitSha, q.headSha);
  }

  ghost function CopiedOrOwn(db: Db, id: int, m: MergeRequest, copied: Objects): Objects
    requires MergeGuard(db, id, m) == Done
  {
    var q := MergedPull(db, id, m);
    if q.baseRepo == q.headRepo then db.repos[q.baseRepo].objects else copied
  }

  lemma PullsAreHere(db: Db, id: int, m: MergeRequest)
    requires TablesOk(db) && MergeGuard(db, id, m) == Done
    ensures MergedPull(db, id, m).baseRepo == id
  {
    hide RefsOk, TrackerOk, ObjectsOk, AllAgree;
    HeadStays(db, id, m);
  }

  lemma MergeIsReady(db: Db, id: int, m: MergeRequest, copied: Objects)
    requires TablesOk(db) && MergeGuard(db, id, m) == Done && Supplied(db, MergePullEvent(id, m, copied))
    ensures var q, o := MergedPull(db, id, m), CopiedOrOwn(db, id, m, copied);
            && ReadyToMerge(db, db.repos[id].objects, db.repos[q.headRepo].objects, o, q.headSha)
            && m.mergeSha !in View(o).commits
  {
    hide TablesOk, MergeGuard, NewCommit, ReadyToMerge, Copied;
    PullsAreHere(db, id, m);
    HeadStays(db, id, m);
    GuardFinds(db, id, m);
    var q := MergedPull(db, id, m);
    if q.headRepo == id {
      SameRepoReady(db, id, q.headSha);
    } else {
      CopyReady(db, id, q.headRepo, copied, q.headSha);
      FreshInCopy(db, id, q.headRepo, copied, q.headSha, m.mergeSha);
    }
  }

  lemma CommitFits(base: Objects, o: Objects, c: Commit, baseSha: string, headSha: string)
    requires ObjectsOk(o) && Grows(base, o) && baseSha in View(base).commits && headSha in View(o).commits
    requires c.tree == View(o).commits[headSha].tree && forall p :: p in c.parents ==> p == baseSha || p == headSha
    ensures c.tree in View(o).trees && forall p :: p in c.parents ==> p in View(o).commits
  {
    hide NeedsBlob, NeedsTree, Index, NoDuplicates, NoEmptySha;
  }

  /** The objects of the base repository after the merge commit was added. */
  lemma MergeObjectsOk(db: Db, id: int, m: MergeRequest, copied: Objects)
    requires TablesOk(db) && MergeGuard(db, id, m) == Done && Supplied(db, MergePullEvent(id, m, copied))
    ensures var o, c := CopiedOrOwn(db, id, m, copied), NewCommit(db, id, m);
            var o' := WithCommit(o, c);
            && ObjectsOk(o') && AgreesWithAll(db, o') && Grows(db.repos[id].objects, o')
            && View(o').commits == View(o).commits[m.mergeSha := c]
  {
    hide TablesOk, MergeGuard, NewCommit, AgreesWithAll, Index, FreshSha, Copied, ObjectsOk, WithCommit, MergedPull,
         CopiedOrOwn, Grows;
    PullsAreHere(db, id, m);
    GuardFinds(db, id, m);
    MergeIsReady(db, id, m, copied);
    HeadStays(db, id, m);
    var q, o, c := MergedPull(db, id, m), CopiedOrOwn(db, id, m, copied), NewCommit(db, id, m);
    CommitFits(db.repos[id].objects, o, c, q.baseSha, q.headSha);
    CommitAdded(db, o, c);
    GrowsTrans(db.repos[id].objects, o, WithCommit(o, c));
  }

  lemma GrowsTrans(a: Objects, b: Objects, c: Objects)
    requires Grows(a, b) && Grows(b, c)
    ensures Grows(a, c)
  {
    hide View;
  }

  lemma MergeEventOk(db: Db, id: int, m: MergeRequest, copied: Objects)
    requires DbOk(db) && Supplied(db, MergePullEvent(id, m, copied))
    ensures DbOk(MergePull(db, id, m, copied).0)
  {
    hide TablesOk, OwnersCounted, MergeGuard, NewCommit, MergeInto, MergedRepo, RepoOk, AgreesWithAll, ObjectsOk,
         Supplied, DropBranch;
    if MergeGuard(db, id, m) == Done {
      PullsAreHere(db, id, m);
      HeadStays(db, id, m);
      var q := MergedPull(db, id, m);
      var o := WithCommit(CopiedOrOwn(db, id, m, copied), NewCommit(db, id, m));
      MergeObjectsOk(db, id, m, copied);
      RepoIsOk(db, id);
      MergeShaIsSha(db, id, m);
      MergedRepoOk(db.repos[id], id, m, o);
      var r' := MergedRepo(db.repos[id], m, q, o);
      RepoRebuilt(db, id, r');
      MergeShape(db, id, m, CopiedOrOwn(db, id, m, copied));
      var db1 := db.(repos := db.repos[id := r']);
      DropBranchOk(db1, q.headRepo, q.headRef);
    }
  }

  lemma RepoIsOk(db: Db, id: int)
    requires TablesOk(db) && id in db.repos
    ensures RepoOk(db.repos[id], id)
  {
    hide RepoOk, AllAgree;
  }

  lemma MergeShaIsSha(db: Db, id: int, m: MergeRequest)
    requires MergeGuard(db, id, m) == Done
    ensures NewCommit(db, id, m).sha == m.mergeSha
    ensures MergedPull(db, id, m) == db.repos[id].pulls[Find(db.repos[id].pulls, PullNumber, m.number).value]
  {
  }
}
