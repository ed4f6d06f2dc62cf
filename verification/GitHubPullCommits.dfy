/** The two commits a pull names are always there, so a merge never fails to find them. */
module GitHubPullCommits {
  import opened Tables
  import opened GitGraph
  import opened GitCopy
  import opened GitHubDb
  import opened GitHubRefLaws
  import opened GitHubTrackerLaws
  import opened GitHubRuns
  import opened GitHubMerges
  import opened GitHubHistory

  /** The base commit is in the pull's repository and the head commit in its head repository, as long as that exists. */
  ghost predicate PullResolves(db: Db, id: int, q: Pull)
    requires id in db.repos
  {
    && q.headRepo < db.nextRepo && q.baseSha in Commits(db.repos[id].objects.commits)
    && (q.headRepo in db.repos ==> q.headSha in Commits(db.repos[q.headRepo].objects.commits))
  }

  ghost predicate RepoResolves(db: Db, id: int, pulls: seq<Pull>)
    requires id in db.repos
  {
    forall j :: 0 <= j < |pulls| ==> PullResolves(db, id, pulls[j])
  }

  ghost predicate PullsResolve(db: Db) {
    forall id :: id in db.repos ==> RepoResolves(db, id, db.repos[id].pulls)
  }

  // ---------------------------------------------------------------- what requests do to those commits

  /** The same pulls, naming the same commits. */
  ghost predicate HeadsKept(pulls: seq<Pull>, pulls': seq<Pull>) {
    |pulls'| == |pulls| && forall j :: 0 <= j < |pulls| ==>
      pulls'[j].headRepo == pulls[j].headRepo && pulls'[j].headSha == pulls[j].headSha
        && pulls'[j].baseSha == pulls[j].baseSha
  }

  lemma KeptResolves(db: Db, id: int, pulls: seq<Pull>, pulls': seq<Pull>)
    requires id in db.repos && RepoResolves(db, id, pulls) && HeadsKept(pulls, pulls')
    ensures RepoResolves(db, id, pulls')
  {
    hide Index;
    forall j | 0 <= j < |pulls'|
      ensures PullResolves(db, id, pulls'[j])
    {
      assert PullResolves(db, id, pulls[j]);
    }
  }

  lemma PatchIssueKeepsHeads(r: Repo, number: int, p: IssuePatch, now: int)
    ensures HeadsKept(r.pulls, PatchIssue(r, number, p, now).0.pulls)
  {
    hide ClosedAfter, Keep, KeepIds, OpenDelta, ClampedSum;
  }

  lemma CommentKeepsHeads(r: Repo, id: int, number: int, text: string)
    ensures HeadsKept(r.pulls, CreateComment(r, id, number, text).0.pulls)
  {
    hide ClampedSum;
  }

  lemma {:induction false} UncountKeepsHeads(r: Repo, number: int, i: nat)
    requires i <= |r.issues|
    ensures HeadsKept(r.pulls, Uncount(r, number, i).pulls)
    decreases |r.issues| - i
  {
    hide ClampedSum;
    if i < |r.issues| {
      if r.issues[i].number != number {
        UncountKeepsHeads(r, number, i + 1);
      } else {
        var issue := r.issues[i];
        var r1 := r.(issues := r.issues[i := issue.(comments := ClampedSum(issue.comments, -1))]);
        UncountKeepsHeads(if issue.isPull then AdjustPullComments(r1, number, -1) else r1, number, i + 1);
      }
    }
  }

  lemma DeleteCommentKeepsHeads(r: Repo, id: int)
    ensures HeadsKept(r.pulls, DeleteComment(r, id).0.pulls)
  {
    hide Uncount, Find;
    match Find(r.comments, CommentId, id)
    case None =>
    case Some(i) => UncountKeepsHeads(r.(comments := DeleteAt(r.comments, i)), r.comments[i].issueNumber, 0);
  }

  lemma ClosePullKeepsHeads(r: Repo, number: int, now: int)
    ensures HeadsKept(r.pulls, ClosePull(r, number, now).pulls)
  {
  }

  /** The tip of a branch is a commit of the repository. */
  lemma TipIsCommit(r: Repo, i: nat)
    requires RefsOk(r) && i < |r.branches|
    ensures r.branches[i].sha in Commits(r.objects.commits)
  {
    hide Index;
    IndexAt(r.branches, BranchName, i);
    var b := r.branches[i];
    assert b.name in BranchTable(r) && BranchTable(r)[b.name] == b;
    assert HEADS + b.name in RefTable(r);
  }

  /** A patched pull keeps its commits, or takes the tip of another base branch. */
  lemma PatchPullResolves(db: Db, id: int, number: int, p: PullPatch, now: int)
    requires DbOk(db) && id in db.repos && RepoResolves(db, id, db.repos[id].pulls)
    ensures RepoResolves(db, id, PatchPull(db.repos[id], number, p, now).0.pulls)
  {
    hide DbOk, RefsOk, Index, ClosedAfter, Keep, OpenDelta, ClampedSum, PullIssue, PullResolves;
    var r := db.repos[id];
    var r' := PatchPull(r, number, p, now).0;
    RefsPart(db, id);
    var f, found := Find(r.pulls, PullNumber, number), Find(r.branches, BranchName, p.base);
    if found.Some? {
      TipIsCommit(r, found.value);
    }
    forall j | 0 <= j < |r'.pulls|
      ensures PullResolves(db, id, r'.pulls[j])
    {
      assert PullResolves(db, id, r.pulls[j]);
      Rebased(db, id, r.pulls[j], r'.pulls[j]);
    }
  }

  lemma Rebased(db: Db, id: int, q: Pull, q': Pull)
    requires id in db.repos && PullResolves(db, id, q) && q'.headRepo == q.headRepo && q'.headSha == q.headSha
    requires q'.baseSha == q.baseSha || q'.baseSha in Commits(db.repos[id].objects.commits)
    ensures PullResolves(db, id, q')
  {
    hide Index;
  }

  /** A new pull names the tips of two branches. */
  lemma CreatePullResolves(db: Db, id: int, title: string, body: Option<string>, draft: bool, headRepo: int,
                           headRef: string, base: string)
    requires DbOk(db) && id in db.repos && RepoResolves(db, id, db.repos[id].pulls)
    ensures RepoResolves(db, id,
                         CreatePull(db.repos[id], id, title, body, draft, headRepo, headRef,
                                    HeadBranch(db, Some(headRepo), headRef), base).0.pulls)
  {
    hide DbOk, RefsOk, Index;
    var r, head := db.repos[id], HeadBranch(db, Some(headRepo), headRef);
    RefsPart(db, id);
    var found := Find(r.branches, BranchName, base);
    if found.Some? {
      TipIsCommit(r, found.value);
    }
    if head.Some? {
      RefsPart(db, headRepo);
      TipIsCommit(db.repos[headRepo], Find(db.repos[headRepo].branches, BranchName, headRef).value);
      KnownRepo(db, headRepo);
    }
  }

  lemma KnownRepo(db: Db, id: int)
    requires DbOk(db) && id in db.repos
    ensures id < db.nextRepo
  {
    hide RepoOk, AllAgree, OwnersCounted;
  }

  // ---------------------------------------------------------------- one step

  /** What one repository looks like after a step: its commits are all there, its pulls resolve as things were
      before. */
  ghost predicate RepoStep(db: Db, db': Db, id: int) {
    id in db.repos ==> id in db'.repos ==>
      Extends(Commits(db.repos[id].objects.commits), Commits(db'.repos[id].objects.commits))
      && RepoResolves(db, id, db'.repos[id].pulls)
  }

  ghost predicate NewRepoStep(db: Db, db': Db, id: int) {
    id in db'.repos && id !in db.repos ==> id >= db.nextRepo && db'.repos[id].pulls == []
  }

  lemma StepResolves(db: Db, db': Db)
    requires db.nextRepo <= db'.nextRepo && forall id :: RepoStep(db, db', id) && NewRepoStep(db, db', id)
    ensures PullsResolve(db')
  {
    hide Index, Extends;
    forall id | id in db'.repos
      ensures RepoResolves(db', id, db'.repos[id].pulls)
    {
      assert RepoStep(db, db', id) && NewRepoStep(db, db', id);
      if id in db.repos {
        forall j | 0 <= j < |db'.repos[id].pulls|
          ensures PullResolves(db', id, db'.repos[id].pulls[j])
        {
          var q := db'.repos[id].pulls[j];
          assert PullResolves(db, id, q);
          assert RepoStep(db, db', q.headRepo) && NewRepoStep(db, db', q.headRepo);
          StillThere(db, db', id, q);
        }
      }
    }
  }

  lemma StillThere(db: Db, db': Db, id: int, q: Pull)
    requires id in db.repos && id in db'.repos && PullResolves(db, id, q) && db.nextRepo <= db'.nextRepo
    requires RepoStep(db, db', id) && RepoStep(db, db', q.headRepo) && NewRepoStep(db, db', q.headRepo)
    ensures PullResolves(db', id, q)
  {
    hide Index, RepoResolves;
  }

  lemma SameRepoStep(db: Db, db': Db, id: int)
    requires PullsResolve(db)
             && (id in db.repos && id in db'.repos ==>
                 db'.repos[id].pulls == db.repos[id].pulls && db'.repos[id].objects == db.repos[id].objects)
    ensures RepoStep(db, db', id)
  {
    hide Index;
  }

  lemma TrackerRepoStep(db: Db, e: Event)
    requires DbOk(db) && PullsResolve(db) && LeavesGit(e) && e.repo in db.repos
    ensures RepoStep(db, Apply(db, e).0, e.repo)
  {
    hide DbOk, Index, PullResolves, PatchIssue, CreateIssue, CreatePull, PatchPull, CreateComment, DeleteComment,
         HeadBranch;
    var id := e.repo;
    GitStays(db, e);
    var r := db.repos[id];
    match e
    case PatchIssueEvent(_, number, p, now) =>
      PatchIssueKeepsHeads(r, number, p, now);
      KeptResolves(db, id, r.pulls, PatchIssue(r, number, p, now).0.pulls);
    case CreateIssueEvent(_, title, body, assignees, labels) =>
      CreateIssueKeepsPulls(r, title, body, assignees, labels);
    case CreatePullEvent(_, title, body, draft, headRepo, headRef, base) =>
      if headRepo.Some? {
        CreatePullResolves(db, id, title, body, draft, headRepo.value, headRef, base);
      }
    case PatchPullEvent(_, number, p, now) => PatchPullResolves(db, id, number, p, now);
    case CreateCommentEvent(_, number, text) =>
      CommentKeepsHeads(r, db.nextComment, number, text);
      KeptResolves(db, id, r.pulls, CreateComment(r, db.nextComment, number, text).0.pulls);
    case DeleteCommentEvent(_, comment) =>
      DeleteCommentKeepsHeads(r, comment);
      KeptResolves(db, id, r.pulls, DeleteComment(r, comment).0.pulls);
    case PatchRepoEvent(_, _) =>
  }

  lemma CreateIssueKeepsPulls(r: Repo, title: string, body: Option<string>, assignees: Ids, labels: Ids)
    ensures CreateIssue(r, title, body, assignees, labels).0.pulls == r.pulls
  {
  }

  lemma RefRepoStep(db: Db, e: Event)
    requires PullsResolve(db) && (e.CreateRefEvent? || e.PatchRefEvent? || e.DeleteRefEvent?) && e.repo in db.repos
    ensures RepoStep(db, Apply(db, e).0, e.repo)
  {
    hide PullsResolve, CreateRef, PatchRef, DeleteRef, Index;
    var r := db.repos[e.repo];
    match e {
      case CreateRefEvent(_, ref, sha) => CreateRefAside(r, ref, sha);
      case PatchRefEvent(_, ref, sha, force) => PatchRefAside(r, ref, sha, force);
      case DeleteRefEvent(_, ref) => DeleteRefAside(r, ref);
    }
    SameRepoStep(db, Apply(db, e).0, e.repo);
  }

  ghost predicate GitOnly(r: Repo, r': Repo) {
    r'.pulls == r.pulls && r'.objects == r.objects
  }

  lemma SyncAside(r: Repo, fullRef: string, sha: string)
    ensures GitOnly(r, SyncBranch(r, fullRef, sha))
  {
    hide Find;
  }

  lemma CreateRefAside(r: Repo, fullRef: string, sha: string)
    ensures GitOnly(r, CreateRef(r, fullRef, sha).0)
  {
    hide SyncBranch, Find;
    SyncAside(r.(refs := r.refs + [Ref(fullRef, sha)]), fullRef, sha);
  }

  lemma PatchRefAside(r: Repo, param: string, sha: string, force: bool)
    ensures GitOnly(r, PatchRef(r, param, sha, force).0)
  {
    hide SyncBranch, FullRef, Reaches;
    var f := Find(r.refs, RefName, FullRef(param));
    if f.Some? {
      SyncAside(r.(refs := r.refs[f.value := r.refs[f.value].(sha := sha)]), FullRef(param), sha);
    }
  }

  lemma DeleteRefAside(r: Repo, param: string)
    ensures GitOnly(r, DeleteRef(r, param).0)
  {
    hide Find, Without, FullRef;
  }

  /** A merge adds to the objects of its repository and closes its pull; elsewhere it can only drop a branch. */
  lemma MergeRepoStep(db: Db, repo: int, m: MergeRequest, copied: Objects, id: int)
    requires DbOk(db) && PullsResolve(db) && Supplied(db, MergePullEvent(repo, m, copied))
    ensures RepoStep(db, MergePull(db, repo, m, copied).0, id)
  {
    hide DbOk, PullsResolve, MergeInto, MergeGuard, DropBranch, MergedRepo, NewCommit, TablesOk, Supplied, Index,
         RepoStep;
    var db' := MergePull(db, repo, m, copied).0;
    if MergeGuard(db, repo, m) != Done || id !in db.repos {
      RepoStays(db, db', id);
    } else if id != repo {
      MergeElsewhere(db, repo, m, copied, id);
      if db'.repos[id] != db.repos[id] {
        var b :| db'.repos[id] == DropBranch(db.repos[id], b);
        DropKeepsPulls(db.repos[id], b);
      }
      SameRepoStep(db, db', id);
    } else {
      MergedStep(db, id, m, copied);
    }
  }

  lemma RepoStays(db: Db, db': Db, id: int)
    requires PullsResolve(db) && (id in db.repos && id in db'.repos ==> db'.repos[id] == db.repos[id])
    ensures RepoStep(db, db', id)
  {
    hide Index;
  }

  lemma DropKeepsPulls(r: Repo, b: string)
    ensures DropBranch(r, b).pulls == r.pulls && DropBranch(r, b).objects == r.objects
  {
    hide Without;
  }

  lemma MergedKeepsHeads(r: Repo, m: MergeRequest, q: Pull, o: Objects)
    ensures HeadsKept(r.pulls, MergedRepo(r, m, q, o).pulls) && MergedRepo(r, m, q, o).objects == o
  {
    hide ClosePull, MoveBranch, HeadsKept;
    ClosePullKeepsHeads(r.(objects := o), m.number, m.now);
    ClosePullFrame(r.(objects := o), m.number, m.now);
    MoveBranchFrame(ClosePull(r.(objects := o), m.number, m.now), q.baseRef, m.mergeSha);
  }

  lemma MergedStep(db: Db, id: int, m: MergeRequest, copied: Objects)
    requires DbOk(db) && PullsResolve(db) && Supplied(db, MergePullEvent(id, m, copied)) && id in db.repos
    requires MergeGuard(db, id, m) == Done
    ensures RepoStep(db, MergePull(db, id, m, copied).0, id)
  {
    hide DbOk, MergeInto, MergeGuard, DropBranch, MergedRepo, NewCommit, TablesOk, Supplied, Index, WithCommit, Extends,
         HeadsKept, RepoResolves;
    TablesPart(db);
    PullsAreHere(db, id, m);
    HeadStays(db, id, m);
    MergeShape(db, id, m, CopiedOrOwn(db, id, m, copied));
    MergeRefs(db, id, m, copied);
    var q, o := MergedPull(db, id, m), WithCommit(CopiedOrOwn(db, id, m, copied), NewCommit(db, id, m));
    var r, r' := db.repos[id], MergedRepo(db.repos[id], m, MergedPull(db, id, m), o);
    MergedKeepsHeads(r, m, q, o);
    DropKeepsPulls(r', q.headRef);
    KeptResolves(db, id, r.pulls, r'.pulls);
  }

  /** Every request keeps the commits that pulls name where they are looked for. */
  lemma EventKeepsPullsResolve(db: Db, e: Event)
    requires DbOk(db) && Supplied(db, e) && PullsResolve(db)
    ensures PullsResolve(Apply(db, e).0)
  {
    hide DbOk, PullsResolve, Supplied, RepoStep, NewRepoStep;
    var db' := Apply(db, e).0;
    IdsGrow(db, e);
    forall id
      ensures RepoStep(db, db', id) && NewRepoStep(db, db', id)
    {
      OneRepoStep(db, e, id);
      FreshRepoStep(db, e, id);
    }
    StepResolves(db, db');
  }

  lemma IdsGrow(db: Db, e: Event)
    ensures db.nextRepo <= Apply(db, e).0.nextRepo
  {
    hide CreateRef, PatchRef, DeleteRef, CreateIssue, PatchIssue, CreatePull, PatchPull, CreateComment, DeleteComment,
         SeedInitialGit, NameTaken, ClosePull, MoveBranch, DropBranch, MergeGuard, NewCommit;
  }

  lemma OneRepoStep(db: Db, e: Event, id: int)
    requires DbOk(db) && Supplied(db, e) && PullsResolve(db)
    ensures RepoStep(db, Apply(db, e).0, id)
  {
    hide DbOk, PullsResolve, Supplied, MergePull, CreateRepo, PatchRepo, CreateRef, PatchRef, DeleteRef, CreateIssue,
         PatchIssue, CreatePull, PatchPull, CreateComment, DeleteComment, AddComment, RepoStep;
    var db' := Apply(db, e).0;
    if id !in db.repos {
      RepoStays(db, db', id);
    } else if e.MergePullEvent? {
      MergeRepoStep(db, e.repo, e.request, e.copied, id);
    } else if e.CreateRepoEvent? || e.repo != id {
      UnusedId(db, id);
      OtherReposStay(db, e, id);
      RepoStays(db, db', id);
    } else if e.DeleteRepoEvent? {
      DeletedIsGone(db, id);
      RepoStays(db, db', id);
    } else if e.CreateRefEvent? || e.PatchRefEvent? || e.DeleteRefEvent? {
      RefRepoStep(db, e);
    } else {
      TrackerRepoStep(db, e);
    }
  }

  lemma UnusedId(db: Db, id: int)
    requires DbOk(db) && id in db.repos
    ensures id != db.nextRepo
  {
    KnownRepo(db, id);
  }

  lemma DeletedIsGone(db: Db, id: int)
    ensures id !in DeleteRepo(db, id).0.repos
  {
  }

  lemma FreshRepoStep(db: Db, e: Event, id: int)
    requires DbOk(db)
    ensures NewRepoStep(db, Apply(db, e).0, id)
  {
    hide DbOk, CreateRef, PatchRef, DeleteRef, CreateIssue, PatchIssue, CreatePull, PatchPull, CreateComment,
         DeleteComment, NameTaken, ClosePull, MoveBranch, DropBranch, NewCommit, MergeGuard;
    if e.MergePullEvent? && MergeGuard(db, e.repo, e.request) == Done {
      HeadStays(db, e.repo, e.request);
    }
  }

  // ---------------------------------------------------------------- runs

  lemma {:induction false} RunKeepsPullsResolve(db: Db, events: seq<Event>)
    requires DbOk(db) && RunSupplied(db, events) && PullsResolve(db)
    ensures PullsResolve(Run(db, events)) && DbOk(Run(db, events))
    decreases |events|
  {
    hide DbOk, PullsResolve, Apply, Supplied;
    if events != [] {
      EventKeepsPullsResolve(db, events[0]);
      EventKeepsOk(db, events[0]);
      RunKeepsPullsResolve(Apply(db, events[0]).0, events[1..]);
    }
  }

  /** What a merge of a pull asks for besides the two commits. */
  ghost predicate MayMerge(db: Db, id: int, m: MergeRequest, q: Pull)
    requires id in db.repos
  {
    q.number == m.number && q.state == Open && !q.draft && (m.sha == "" || m.sha == q.headSha)
    && MethodAllowed(db.repos[id].settings, m.mergeMethod) && q.headRepo in db.repos
  }

  ghost predicate Mergeable(db: Db, id: int, m: MergeRequest) {
    id in db.repos && exists j :: 0 <= j < |db.repos[id].pulls| && MayMerge(db, id, m, db.repos[id].pulls[j])
  }

  /** In every reachable state a merge goes through exactly when the pull is open, no draft and at the head asked for,
      the method is allowed and the head repository exists: it never fails to resolve the commits. */
  lemma MergeAlwaysResolves(db: Db, events: seq<Event>, id: int, m: MergeRequest)
    requires Initial(db) && RunSupplied(db, events)
    ensures MergeGuard(Run(db, events), id, m) == Done <==> Mergeable(Run(db, events), id, m)
  {
    hide DbOk, MergeGuard, Mergeable, PullsResolve;
    StartsResolved(db);
    ReachableIsOk(db, []);
    RunKeepsPullsResolve(db, events);
    GuardIsMergeable(Run(db, events), id, m);
  }

  lemma StartsResolved(db: Db)
    requires Initial(db)
    ensures PullsResolve(db)
  {
  }

  lemma GuardIsMergeable(db: Db, id: int, m: MergeRequest)
    requires DbOk(db) && PullsResolve(db)
    ensures MergeGuard(db, id, m) == Done <==> Mergeable(db, id, m)
  {
    hide DbOk, Index, MethodAllowed;
    if id in db.repos {
      var pulls := db.repos[id].pulls;
      var f := Find(pulls, PullNumber, m.number);
      if f.Some? {
        var q := pulls[f.value];
        PullFacts(db, id, f.value);
        assert RepoResolves(db, id, pulls) && PullResolves(db, id, q);
        FindIsIndex(db.repos[id].objects.commits, CommitSha, q.baseSha);
        if q.headRepo in db.repos {
          FindIsIndex(db.repos[q.headRepo].objects.commits, CommitSha, q.headSha);
        }
        assert forall j :: 0 <= j < |pulls| && pulls[j].number == m.number ==> j == f.value;
      } else {
        assert forall j :: 0 <= j < |pulls| ==> PullNumber(pulls[j]) != m.number;
      }
    }
  }

  lemma PullFacts(db: Db, id: int, j: nat)
    requires DbOk(db) && id in db.repos && j < |db.repos[id].pulls|
    ensures var pulls := db.repos[id].pulls;
            pulls[j].baseRepo == id && (pulls[j].merged ==> pulls[j].state == Closed)
            && forall k :: 0 <= k < |pulls| && pulls[k].number == pulls[j].number ==> k == j
  {
    hide AllAgree, OwnersCounted, ObjectsOk, RefsOk, CommentsCounted, Count;
    var r := db.repos[id];
    assert RepoOk(r, id);
    PairAt(r.issues, r.pulls, j);
    OnePull(r.pulls, j);
  }
}
