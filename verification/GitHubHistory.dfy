/** Whole runs of the GitHub service. */
module GitHubHistory {
  import opened Tables
  import opened GitGraph
  import opened GitCopy
  import opened GitCopyLaws
  import opened GitHubDb
  import opened GitHubRefLaws
  import opened GitHubTrackerLaws
  import opened GitHubRuns
  import opened GitHubMerges

  lemma EventKeepsOk(db: Db, e: Event)
    requires DbOk(db) && Supplied(db, e)
    ensures DbOk(Apply(db, e).0)
  {
    hide DbOk, Supplied;
    match e
    case CreateRepoEvent(n, init, readme) => CreateRepoOk(db, n, init, readme);
    case PatchRepoEvent(id, p) => PatchRepoOk(db, id, p);
    case DeleteRepoEvent(id) => DeleteRepoOk(db, id);
    case MergePullEvent(id, m, copied) => MergeKeepsOk(db, id, m, copied);
    case CreateRefEvent(_, _, _) => RefEventOk(db, e);
    case PatchRefEvent(_, _, _, _) => RefEventOk(db, e);
    case DeleteRefEvent(_, _) => RefEventOk(db, e);
    case CreateIssueEvent(_, _, _, _, _) => IssueEventOk(db, e);
    case PatchIssueEvent(_, _, _, _) => IssueEventOk(db, e);
    case CreatePullEvent(_, _, _, _, _, _, _) => CreatePullEventOk(db, e);
    case PatchPullEvent(_, _, _, _) => PatchPullEventOk(db, e);
    case CreateCommentEvent(_, _, _) => CreateCommentEventOk(db, e);
    case DeleteCommentEvent(_, _) => DeleteCommentEventOk(db, e);
  }

  lemma MergeKeepsOk(db: Db, id: int, m: MergeRequest, copied: Objects)
    requires DbOk(db) && Supplied(db, MergePullEvent(id, m, copied))
    ensures DbOk(Apply(db, MergePullEvent(id, m, copied)).0)
  {
    hide DbOk, Supplied;
    MergeEventOk(db, id, m, copied);
  }

  ghost function Run(db: Db, events: seq<Event>): Db
    decreases |events|
  {
    if events == [] then db else Run(Apply(db, events[0]).0, events[1..])
  }

  ghost predicate RunSupplied(db: Db, events: seq<Event>)
    decreases |events|
  {
    events == [] || (Supplied(db, events[0]) && RunSupplied(Apply(db, events[0]).0, events[1..]))
  }

  lemma {:induction false} RunKeepsOk(db: Db, events: seq<Event>)
    requires DbOk(db) && RunSupplied(db, events)
    ensures DbOk(Run(db, events))
    decreases |events|
  {
    hide DbOk;
    if events != [] {
      EventKeepsOk(db, events[0]);
      RunKeepsOk(Apply(db, events[0]).0, events[1..]);
    }
  }

  /** Every reachable state satisfies the invariant, whatever requests were made. */
  lemma ReachableIsOk(db: Db, events: seq<Event>)
    requires Initial(db) && RunSupplied(db, events)
    ensures DbOk(Run(db, events))
  {
    assert forall o :: PublicOf(db, o) == {};
    RunKeepsOk(db, events);
  }

  // ---------------------------------------------------------------- history is not lost

  /** The commits of the repository are all still there, and the ref's old tip is part of its new history. */
  ghost predicate HistoryKept(r: Repo, r': Repo, n: string)
    requires n in RefTable(r) && n in RefTable(r')
  {
    && Extends(Commits(r.objects.commits), Commits(r'.objects.commits))
    && Reaches(Commits(r'.objects.commits), RefTable(r')[n].sha, RefTable(r)[n].sha)
  }

  /** A request that may move ref `n` of repository `id` off its history: a forced patch, or the merge
      of a pull that was opened (or last retargeted) at another commit than the branch's tip. */
  ghost predicate Rewrites(db: Db, e: Event, id: int, n: string)
    requires id in db.repos && n in RefTable(db.repos[id])
  {
    match e
    case PatchRefEvent(repo, ref, sha, force) => repo == id && FullRef(ref) == n && force
    case MergePullEvent(repo, m, copied) =>
      repo == id && MergeGuard(db, id, m) == Done && HEADS + MergedPull(db, id, m).baseRef == n
      && MergedPull(db, id, m).baseSha != RefTable(db.repos[id])[n].sha
    case _ => false
  }

  lemma SameTip(r: Repo, r': Repo, n: string)
    requires n in RefTable(r) && n in RefTable(r') && RefTable(r')[n].sha == RefTable(r)[n].sha
    requires Extends(Commits(r.objects.commits), Commits(r'.objects.commits))
    ensures HistoryKept(r, r', n)
  {
    ReachesSelf(Commits(r'.objects.commits), RefTable(r)[n].sha);
  }

  lemma RefEventKeepsHistory(db: Db, e: Event, n: string)
    requires DbOk(db) && (e.CreateRefEvent? || e.PatchRefEvent? || e.DeleteRefEvent?)
    requires e.repo in db.repos && n in RefTable(db.repos[e.repo]) && !Rewrites(db, e, e.repo, n)
    requires n in RefTable(Apply(db, e).0.repos[e.repo])
    ensures HistoryKept(db.repos[e.repo], Apply(db, e).0.repos[e.repo], n)
  {
    hide RefsOk, TrackerOk, ObjectsOk, SyncBranch, CreateRef, PatchRef, DeleteRef, HistoryKept, Index, Mirror, TablesOk,
         OwnersCounted, Reaches, FullRef, Without;
    var r := db.repos[e.repo];
    RepoIsOk(db, e.repo);
    match e
    case CreateRefEvent(id, ref, sha) => CreateRefKeepsHistory(r, ref, sha, n);
    case PatchRefEvent(id, ref, sha, force) => PatchRefKeepsHistory(r, ref, sha, force, n);
    case DeleteRefEvent(id, ref) => DeleteRefKeepsHistory(r, ref, n);
  }

  lemma CreateRefKeepsHistory(r: Repo, ref: string, sha: string, n: string)
    requires RefsOk(r) && n in RefTable(r) && n in RefTable(CreateRef(r, ref, sha).0)
    ensures HistoryKept(r, CreateRef(r, ref, sha).0, n)
  {
    hide RefsOk, SyncBranch, CreateRef, HistoryKept, Index, Reaches;
    CreateRefLaw(r, ref, sha);
    SameTip(r, CreateRef(r, ref, sha).0, n);
  }

  lemma PatchRefKeepsHistory(r: Repo, ref: string, sha: string, force: bool, n: string)
    requires RefsOk(r) && n in RefTable(r) && n in RefTable(PatchRef(r, ref, sha, force).0)
             && !(FullRef(ref) == n && force)
    ensures HistoryKept(r, PatchRef(r, ref, sha, force).0, n)
  {
    hide RefsOk, SyncBranch, PatchRef, HistoryKept, Index, Reaches, FullRef;
    var r' := PatchRef(r, ref, sha, force).0;
    PatchRefLaw(r, ref, sha, force);
    if FullRef(ref) == n && PatchRef(r, ref, sha, force).1 == Done {
      MovedForward(r, r', n);
    } else {
      SameTip(r, r', n);
    }
  }

  lemma DeleteRefKeepsHistory(r: Repo, ref: string, n: string)
    requires RefsOk(r) && n in RefTable(r) && n in RefTable(DeleteRef(r, ref).0)
    ensures HistoryKept(r, DeleteRef(r, ref).0, n)
  {
    hide RefsOk, DeleteRef, HistoryKept, Index, Reaches, FullRef, Without;
    DeleteRefLaw(r, ref);
    SameTip(r, DeleteRef(r, ref).0, n);
  }

  lemma MovedForward(r: Repo, r': Repo, n: string)
    requires n in RefTable(r) && n in RefTable(r') && r'.objects == r.objects
    requires Reaches(Commits(r.objects.commits), RefTable(r')[n].sha, RefTable(r)[n].sha)
    ensures HistoryKept(r, r', n)
  {
  }

  lemma MergeRefs(db: Db, id: int, m: MergeRequest, copied: Objects)
    requires DbOk(db) && MergeGuard(db, id, m) == Done && Supplied(db, MergePullEvent(id, m, copied))
    ensures var q, o := MergedPull(db, id, m), WithCommit(CopiedOrOwn(db, id, m, copied), NewCommit(db, id, m));
            var r, r' := db.repos[id], MergedRepo(db.repos[id], m, q, o);
            && r'.objects == o && Extends(Commits(r.objects.commits), Commits(o.commits))
            && m.mergeSha in Commits(o.commits)
              && Commits(o.commits)[m.mergeSha].parents == MergeParents(q, m.mergeMethod)
            && RefTable(r') == (if HEADS + q.baseRef in RefTable(r)
                                then RefTable(r)[HEADS + q.baseRef := Ref(HEADS + q.baseRef, m.mergeSha)]
                                else RefTable(r))
            && RefsOk(r')
  {
    hide TablesOk, OwnersCounted, MergeGuard, MergeInto, ClosePull, MoveBranch, AgreesWithAll, ObjectsOk, Supplied,
         RefsOk, TrackerOk, Index, SelfContained;
    var q, o := MergedPull(db, id, m), WithCommit(CopiedOrOwn(db, id, m, copied), NewCommit(db, id, m));
    PullsAreHere(db, id, m);
    GuardFinds(db, id, m);
    HeadStays(db, id, m);
    MergeObjectsOk(db, id, m, copied);
    RepoIsOk(db, id);
    var r := db.repos[id];
    ClosePullFrame(r.(objects := o), m.number, m.now);
    var r1 := ClosePull(r.(objects := o), m.number, m.now);
    RefsOkFrame(r, r1);
    MoveBranchLaw(r1, q.baseRef, m.mergeSha);
    MoveBranchFrame(r1, q.baseRef, m.mergeSha);
    HeadsTogether(r1, q.baseRef);
    RefsOkFrame(MoveBranch(r1, q.baseRef, m.mergeSha), MergedRepo(r, m, q, o));
  }

  lemma HeadsTogether(r: Repo, b: string)
    requires RefsOk(r)
    ensures b in BranchTable(r) <==> HEADS + b in RefTable(r)
  {
    HeadNames(b, b);
  }

  /** The base branch after a merge stands at the merge commit; other surviving refs of the repository stand still. */
  lemma MergeOutcome(db: Db, id: int, m: MergeRequest, copied: Objects, n: string)
    requires DbOk(db) && MergeGuard(db, id, m) == Done && Supplied(db, MergePullEvent(id, m, copied))
    requires n in RefTable(db.repos[id])
    requires id in MergePull(db, id, m, copied).0.repos && n in RefTable(MergePull(db, id, m, copied).0.repos[id])
    ensures var q, r' := MergedPull(db, id, m), MergePull(db, id, m, copied).0.repos[id];
            && r'.objects == WithCommit(CopiedOrOwn(db, id, m, copied), NewCommit(db, id, m))
            && RefTable(r')[n].sha == if n == HEADS + q.baseRef then m.mergeSha else RefTable(db.repos[id])[n].sha
  {
    hide DbOk, MergeGuard, MergeInto, MergedRepo, ObjectsOk, Supplied, RefsOk, Index, DropBranch, NewCommit, TablesOk,
         WithCommit, Extends, MergeParents;
    var q := MergedPull(db, id, m);
    TablesPart(db);
    PullsAreHere(db, id, m);
    HeadStays(db, id, m);
    MergeRefs(db, id, m, copied);
    MergeShape(db, id, m, CopiedOrOwn(db, id, m, copied));
    var o := WithCommit(CopiedOrOwn(db, id, m, copied), NewCommit(db, id, m));
    DropBranchLaw(MergedRepo(db.repos[id], m, q, o), q.headRef);
  }

  lemma TablesPart(db: Db)
    requires DbOk(db)
    ensures TablesOk(db)
  {
  }

  lemma MergeKeepsHistory(db: Db, id: int, m: MergeRequest, copied: Objects, n: string)
    requires DbOk(db) && Supplied(db, MergePullEvent(id, m, copied))
    requires id in db.repos && n in RefTable(db.repos[id]) && !Rewrites(db, MergePullEvent(id, m, copied), id, n)
    requires id in MergePull(db, id, m, copied).0.repos && n in RefTable(MergePull(db, id, m, copied).0.repos[id])
    ensures HistoryKept(db.repos[id], MergePull(db, id, m, copied).0.repos[id], n)
  {
    hide DbOk, MergeInto, MergedRepo, Supplied, NewCommit, Index, MergeGuard;
    var r, r' := db.repos[id], MergePull(db, id, m, copied).0.repos[id];
    if MergeGuard(db, id, m) != Done {
      SameTip(r, r', n);
    } else {
      MergeOutcome(db, id, m, copied, n);
      MergeRefs(db, id, m, copied);
      var q := MergedPull(db, id, m);
      if n == HEADS + q.baseRef {
        var g := Commits(r'.objects.commits);
        ReachesSelf(g, m.mergeSha);
        ReachesParent(g, m.mergeSha, m.mergeSha, q.baseSha);
      } else {
        SameTip(r, r', n);
      }
    }
  }

  lemma OtherReposStay(db: Db, e: Event, id: int)
    requires id in db.repos && !e.MergePullEvent?
    requires if e.CreateRepoEvent? then id != db.nextRepo else e.repo != id
    ensures id in Apply(db, e).0.repos && Apply(db, e).0.repos[id] == db.repos[id]
  {
    hide CreateRef, PatchRef, DeleteRef, CreateIssue, PatchIssue, CreatePull, PatchPull, CreateComment, DeleteComment,
         SeedInitialGit, PublicOf, NameTaken;
  }

  /** A merge elsewhere can only drop the head branch here. */
  lemma MergeElsewhere(db: Db, repo: int, m: MergeRequest, copied: Objects, id: int)
    requires DbOk(db) && id in db.repos && repo != id
    ensures var db' := MergePull(db, repo, m, copied).0;
            id in db'.repos && (db'.repos[id] == db.repos[id]
                                || exists b :: db'.repos[id] == DropBranch(db.repos[id], b))
  {
    hide DbOk, MergeInto, MergeGuard, DropBranch, MergedRepo, NewCommit, TablesOk;
    if MergeGuard(db, repo, m) == Done {
      TablesPart(db);
      PullsAreHere(db, repo, m);
      HeadStays(db, repo, m);
      MergeShape(db, repo, m, CopiedOrOwn(db, repo, m, copied));
    }
  }

  lemma DroppedElsewhere(r: Repo, b: string, n: string)
    requires RefsOk(r) && n in RefTable(r) && n in RefTable(DropBranch(r, b))
    ensures HistoryKept(r, DropBranch(r, b), n)
  {
    hide RefsOk, DropBranch, HistoryKept, Index;
    DropBranchLaw(r, b);
    SameTip(r, DropBranch(r, b), n);
  }

  /** Requests elsewhere leave the refs and commits of repository `id` alone, but for a dropped head branch. */
  lemma ElsewhereKeepsHistory(db: Db, e: Event, id: int, n: string)
    requires DbOk(db) && Supplied(db, e)
    requires id in db.repos && id in Apply(db, e).0.repos
    requires n in RefTable(db.repos[id]) && n in RefTable(Apply(db, e).0.repos[id])
    requires e.CreateRepoEvent? || e.repo != id
    ensures HistoryKept(db.repos[id], Apply(db, e).0.repos[id], n)
  {
    hide DbOk, TablesOk, RepoOk, Supplied, MergePull, Index, RefsOk, DropBranch, HistoryKept, CreateRepo, PatchRepo,
         DeleteRepo, CreateRef, PatchRef, DeleteRef, CreateIssue, PatchIssue, CreatePull, PatchPull, AddComment,
         DeleteComment, RefTable;
    var r, r' := db.repos[id], Apply(db, e).0.repos[id];
    TablesPart(db);
    NextRepoUnused(db);
    if e.MergePullEvent? {
      MergeElsewhere(db, e.repo, e.request, e.copied, id);
      if r' != r {
        var b :| r' == DropBranch(r, b);
        RefsPart(db, id);
        DroppedElsewhere(r, b, n);
      } else {
        SameTip(r, r', n);
      }
    } else {
      OtherReposStay(db, e, id);
      SameTip(r, r', n);
    }
  }

  lemma RefsPart(db: Db, id: int)
    requires DbOk(db) && id in db.repos
    ensures RefsOk(db.repos[id])
  {
    hide RefsOk, TrackerOk, ObjectsOk, AllAgree, OwnersCounted;
    RepoIsOk(db, id);
  }

  ghost predicate LeavesGit(e: Event) {
    e.CreateIssueEvent? || e.PatchIssueEvent? || e.CreatePullEvent? || e.PatchPullEvent?
    || e.CreateCommentEvent? || e.DeleteCommentEvent? || e.PatchRepoEvent?
  }

  /** Tracker requests and repository patches do not touch refs or objects at all. */
  lemma GitStays(db: Db, e: Event)
    requires LeavesGit(e) && e.repo in db.repos
    ensures e.repo in Apply(db, e).0.repos
    ensures Apply(db, e).0.repos[e.repo].refs == db.repos[e.repo].refs
    ensures Apply(db, e).0.repos[e.repo].objects == db.repos[e.repo].objects
  {
    hide PatchIssue, PatchPull, CreateComment, DeleteComment, Find, NextIssueNumber, HeadBranch;
    var r := db.repos[e.repo];
    match e {
      case PatchIssueEvent(_, number, p, now) => PatchIssueStep(r, number, p, now);
      case PatchPullEvent(_, number, p, now) => PatchPullStep(r, number, p, now);
      case CreateCommentEvent(_, number, text) => CreateCommentStep(r, db.nextComment, number, text);
      case DeleteCommentEvent(_, comment) => DeleteCommentStep(r, comment);
      case _ =>
    }
  }

  /** One request never loses history, unless it is one of the rewriting ones. */
  lemma EventKeepsHistory(db: Db, e: Event, id: int, n: string)
    requires DbOk(db) && Supplied(db, e)
    requires id in db.repos && id in Apply(db, e).0.repos
    requires n in RefTable(db.repos[id]) && n in RefTable(Apply(db, e).0.repos[id])
    requires !Rewrites(db, e, id, n)
    ensures HistoryKept(db.repos[id], Apply(db, e).0.repos[id], n)
  {
    hide DbOk, Supplied, Index, Reaches, MergePull, CreateRepo, PatchRepo, CreateRef, PatchRef, DeleteRef, CreateIssue,
         PatchIssue, CreatePull, PatchPull, CreateComment, DeleteComment, AddComment, HistoryKept;
    if e.CreateRepoEvent? || e.repo != id {
      ElsewhereKeepsHistory(db, e, id, n);
    } else if e.MergePullEvent? {
      MergeKeepsHistory(db, id, e.request, e.copied, n);
    } else if e.CreateRefEvent? || e.PatchRefEvent? || e.DeleteRefEvent? {
      RefEventKeepsHistory(db, e, n);
    } else if !e.DeleteRepoEvent? {
      GitStays(db, e);
      SameTip(db.repos[id], Apply(db, e).0.repos[id], n);
    }
  }

  lemma HistoryKeptTrans(r0: Repo, r1: Repo, r2: Repo, n: string)
    requires n in RefTable(r0) && n in RefTable(r1) && n in RefTable(r2)
    requires HistoryKept(r0, r1, n) && HistoryKept(r1, r2, n)
    ensures HistoryKept(r0, r2, n)
  {
    hide Index, Reaches;
    var g1, g2 := Commits(r1.objects.commits), Commits(r2.objects.commits);
    ReachGrows(g1, g2, RefTable(r1)[n].sha, RefTable(r0)[n].sha);
    ReachesTrans(g2, RefTable(r2)[n].sha, RefTable(r1)[n].sha, RefTable(r0)[n].sha);
  }

  /** The ref exists in every state of the run, and no request of the run may rewrite it. */
  ghost predicate Undisturbed(db: Db, events: seq<Event>, id: int, n: string)
    decreases |events|
  {
    && id in db.repos && n in RefTable(db.repos[id])
    && (events == [] || (!Rewrites(db, events[0], id, n) && Undisturbed(Apply(db, events[0]).0, events[1..], id, n)))
  }

  lemma {:induction false} RunKeepsTip(db: Db, events: seq<Event>, id: int, n: string)
    requires DbOk(db) && RunSupplied(db, events) && Undisturbed(db, events, id, n)
    ensures id in Run(db, events).repos && n in RefTable(Run(db, events).repos[id])
    ensures HistoryKept(db.repos[id], Run(db, events).repos[id], n)
    decreases |events|
  {
    hide DbOk, RefTable, HistoryKept, Rewrites, Supplied, Apply;
    if events == [] {
      SameTip(db.repos[id], db.repos[id], n);
    } else {
      var db1 := Apply(db, events[0]).0;
      EventKeepsOk(db, events[0]);
      EventKeepsHistory(db, events[0], id, n);
      RunKeepsTip(db1, events[1..], id, n);
      HistoryKeptTrans(db.repos[id], db1.repos[id], Run(db, events).repos[id], n);
    }
  }

  /** Unforced history is never lost: whatever was reachable from the ref's tip stays reachable from its later tip. */
  lemma RunKeepsHistory(db: Db, events: seq<Event>, id: int, n: string, k: string)
    requires DbOk(db) && RunSupplied(db, events) && Undisturbed(db, events, id, n)
    requires Reaches(Commits(db.repos[id].objects.commits), RefTable(db.repos[id])[n].sha, k)
    ensures id in Run(db, events).repos && n in RefTable(Run(db, events).repos[id])
    ensures var r' := Run(db, events).repos[id];
            Reaches(Commits(r'.objects.commits), RefTable(r')[n].sha, k)
  {
    hide DbOk, RunSupplied, Index, Reaches, RefsOk;
    RunKeepsTip(db, events, id, n);
    var r, r' := db.repos[id], Run(db, events).repos[id];
    var g, g' := Commits(r.objects.commits), Commits(r'.objects.commits);
    ReachGrows(g, g', RefTable(r)[n].sha, k);
    ReachesTrans(g', RefTable(r')[n].sha, RefTable(r)[n].sha, k);
  }

  // ---------------------------------------------------------------- merges of stale pulls

  /** Paths that start inside a parent-closed graph look the same in any graph that agrees with it. */
  lemma {:induction false} ReachInside(s: CommitMap, t: CommitMap, from: string, to: string)
    requires from in s && AgreeOn(s, t) && Reaches(t, from, to)
    requires forall k, p :: k in s && p in s[k].parents ==> p in s
    ensures Reaches(s, from, to)
  {
    var path :| ChainFromTo(t, path, from, to);
    var i := 0;
    while i < |path| - 1
      invariant 0 <= i < |path|
      invariant forall j :: 0 <= j <= i ==> path[j] in s
    {
      assert path[i] in t && path[i + 1] in t[path[i]].parents && s[path[i]] == t[path[i]];
      i := i + 1;
    }
    assert ChainFromTo(s, path, from, to);
  }

  /** Anything but the commit itself is reached through one of its parents. */
  lemma ReachThroughParents(g: CommitMap, from: string, to: string)
    requires Reaches(g, from, to) && from != to
    ensures from in g && exists p :: p in g[from].parents && Reaches(g, p, to)
  {
    var path :| ChainFromTo(g, path, from, to);
    assert ChainFromTo(g, path[1..], path[1], to);
  }

  lemma ReachFromChild(g: CommitMap, child: string, p: string, to: string)
    requires child in g && p in g[child].parents && Reaches(g, p, to)
    ensures Reaches(g, child, to)
  {
    ReachesSelf(g, child);
    ReachesParent(g, child, child, p);
    ReachesTrans(g, child, p, to);
  }

  /** A merge keeps the base branch's history if and only if the pull's recorded base commit, or for a
      merge commit its head, already contains the branch's tip. */
  lemma MergeIsForwardIff(db: Db, id: int, m: MergeRequest, copied: Objects)
    requires DbOk(db) && MergeGuard(db, id, m) == Done && Supplied(db, MergePullEvent(id, m, copied))
    requires HEADS + MergedPull(db, id, m).baseRef in RefTable(db.repos[id])
    ensures var q := MergedPull(db, id, m);
            var n, db' := HEADS + q.baseRef, MergePull(db, id, m, copied).0;
            && id in db'.repos && n in RefTable(db'.repos[id])
            && (HistoryKept(db.repos[id], db'.repos[id], n) <==>
                  var tip := RefTable(db.repos[id])[n].sha;
                  Reaches(Commits(db.repos[id].objects.commits), q.baseSha, tip)
                  || (m.mergeMethod == MergeCommit
                      && Reaches(Commits(db.repos[q.headRepo].objects.commits), q.headSha, tip)))
  {
    hide DbOk, MergeInto, MergedRepo, Supplied, NewCommit, Index, MergeGuard, Reaches, TablesOk, ReadyToMerge, Extends,
         AgreeOn, RefsOk;
    var q := MergedPull(db, id, m);
    var n, db' := HEADS + q.baseRef, MergePull(db, id, m, copied).0;
    TablesPart(db);
    PullsAreHere(db, id, m);
    HeadStays(db, id, m);
    BaseRefSurvives(db, id, m, copied);
    MergeOutcome(db, id, m, copied, n);
    MergeRefs(db, id, m, copied);
    StaleOrNot(db, id, m, copied, RefTable(db.repos[id])[n].sha);
    SuppliedFresh(db, id, m, copied);
    TipIsOld(db, id, m, n);
  }

  /** Only the head branch can be dropped, and it never shares the base branch's name. */
  lemma BaseRefSurvives(db: Db, id: int, m: MergeRequest, copied: Objects)
    requires DbOk(db) && MergeGuard(db, id, m) == Done && Supplied(db, MergePullEvent(id, m, copied))
    requires HEADS + MergedPull(db, id, m).baseRef in RefTable(db.repos[id])
    ensures var db' := MergePull(db, id, m, copied).0;
            id in db'.repos && HEADS + MergedPull(db, id, m).baseRef in RefTable(db'.repos[id])
  {
    hide DbOk, MergeInto, MergedRepo, Supplied, NewCommit, Index, MergeGuard, TablesOk, RefsOk, DropBranch;
    var q := MergedPull(db, id, m);
    TablesPart(db);
    PullsAreHere(db, id, m);
    HeadStays(db, id, m);
    MergeShape(db, id, m, CopiedOrOwn(db, id, m, copied));
    MergeRefs(db, id, m, copied);
    HeadNames(q.headRef, q.baseRef);
    var o := WithCommit(CopiedOrOwn(db, id, m, copied), NewCommit(db, id, m));
    DropBranchLaw(MergedRepo(db.repos[id], m, q, o), q.headRef);
  }

  lemma SuppliedFresh(db: Db, id: int, m: MergeRequest, copied: Objects)
    requires MergeGuard(db, id, m) == Done && Supplied(db, MergePullEvent(id, m, copied))
    ensures FreshSha(db, m.mergeSha)
  {
    hide MergeGuard;
  }

  lemma TipIsOld(db: Db, id: int, m: MergeRequest, n: string)
    requires DbOk(db) && id in db.repos && FreshSha(db, m.mergeSha) && n in RefTable(db.repos[id])
    ensures RefTable(db.repos[id])[n].sha != m.mergeSha
  {
    hide TrackerOk, ObjectsOk, AllAgree, OwnersCounted, IdsBelow;
    RepoIsOk(db, id);
  }

  lemma GraphsAgree(db: Db, id: int, m: MergeRequest, copied: Objects)
    requires TablesOk(db) && MergeGuard(db, id, m) == Done && Supplied(db, MergePullEvent(id, m, copied))
    ensures var q, o := MergedPull(db, id, m), WithCommit(CopiedOrOwn(db, id, m, copied), NewCommit(db, id, m));
            && id in db.repos && q.headRepo in db.repos
            && SelfContained(View(db.repos[id].objects)) && SelfContained(View(db.repos[q.headRepo].objects))
            && SelfContained(View(o))
            && q.baseSha in Commits(db.repos[id].objects.commits)
            && q.headSha in Commits(db.repos[q.headRepo].objects.commits)
            && q.baseSha in Commits(o.commits) && q.headSha in Commits(o.commits)
            && Agree(View(o), View(db.repos[id].objects)) && Agree(View(o), View(db.repos[q.headRepo].objects))
  {
    hide TablesOk, MergeGuard, NewCommit, Agree, SelfContained, Index, RefsOk, TrackerOk, Supplied;
    var q := MergedPull(db, id, m);
    PullsAreHere(db, id, m);
    HeadStays(db, id, m);
    GuardFinds(db, id, m);
    MergeIsReady(db, id, m, copied);
    MergeObjectsOk(db, id, m, copied);
    RepoIsOk(db, id);
    RepoIsOk(db, q.headRepo);
  }

  ghost predicate ParentClosed(g: CommitMap) {
    forall k, p :: k in g && p in g[k].parents ==> p in g
  }

  /** What a merge commit reaches, besides itself, is what its parents reached in their own repositories. */
  lemma MergeReach(g: CommitMap, b: CommitMap, h: CommitMap, sha: string, base: string, head: string, both: bool,
                   tip: string)
    requires ParentClosed(g) && ParentClosed(b) && ParentClosed(h) && AgreeOn(g, b) && AgreeOn(g, h)
    requires base in g && base in b && head in g && head in h
    requires sha in g && g[sha].parents == (if both then [base, head] else [base])
    requires tip != sha
    ensures Reaches(g, sha, tip) <==> Reaches(b, base, tip) || (both && Reaches(h, head, tip))
  {
    if Reaches(b, base, tip) {
      ReachInside(g, b, base, tip);
      ReachFromChild(g, sha, base, tip);
    }
    if both && Reaches(h, head, tip) {
      ReachInside(g, h, head, tip);
      ReachFromChild(g, sha, head, tip);
    }
    if Reaches(g, sha, tip) {
      ReachThroughParents(g, sha, tip);
      var p :| p in g[sha].parents && Reaches(g, p, tip);
      if p == base {
        ReachInside(b, g, p, tip);
      } else {
        ReachInside(h, g, p, tip);
      }
    }
  }

  lemma StaleOrNot(db: Db, id: int, m: MergeRequest, copied: Objects, tip: string)
    requires TablesOk(db) && MergeGuard(db, id, m) == Done && Supplied(db, MergePullEvent(id, m, copied))
    requires var o := WithCommit(CopiedOrOwn(db, id, m, copied), NewCommit(db, id, m));
             m.mergeSha in Commits(o.commits)
             && Commits(o.commits)[m.mergeSha].parents == MergeParents(MergedPull(db, id, m), m.mergeMethod)
    ensures var q, o := MergedPull(db, id, m), WithCommit(CopiedOrOwn(db, id, m, copied), NewCommit(db, id, m));
            id in db.repos && q.headRepo in db.repos &&
            (tip != m.mergeSha ==>
              (Reaches(Commits(o.commits), m.mergeSha, tip) <==>
                 Reaches(Commits(db.repos[id].objects.commits), q.baseSha, tip)
                 || (m.mergeMethod == MergeCommit
                     && Reaches(Commits(db.repos[q.headRepo].objects.commits), q.headSha, tip))))
  {
    hide TablesOk, MergeGuard, NewCommit, Index, Supplied, Reaches, NeedsBlob, NeedsTree, CopiedOrOwn, WithCommit;
    GraphsAgree(db, id, m, copied);
    if tip != m.mergeSha {
      var q, o := MergedPull(db, id, m), WithCommit(CopiedOrOwn(db, id, m, copied), NewCommit(db, id, m));
      MergeReach(Commits(o.commits), Commits(db.repos[id].objects.commits),
                 Commits(db.repos[q.headRepo].objects.commits),
                 m.mergeSha, q.baseSha, q.headSha, m.mergeMethod == MergeCommit, tip);
    }
  }
}
