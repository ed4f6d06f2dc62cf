/** What was merged stays merged: pulls are never lost, renumbered or reopened after their merge. */
module GitHubMergedPulls {
  import opened Tables
  import opened GitCopy
  import opened GitHubDb
  import opened GitHubTrackerLaws
  import opened GitHubRuns
  import opened GitHubMerges
  import opened GitHubHistory
  import opened GitHubPullCommits

  /** The pulls are all still there, under their numbers, and those merged are so still. */
  ghost predicate PullsStay(pulls: seq<Pull>, pulls': seq<Pull>) {
    |pulls| <= |pulls'| && forall j :: 0 <= j < |pulls| ==>
      pulls'[j].number == pulls[j].number && (pulls[j].merged ==> pulls'[j].merged)
  }

  // ---------------------------------------------------------------- one step

  lemma ClosePullStays(r: Repo, number: int, now: int)
    ensures PullsStay(r.pulls, ClosePull(r, number, now).pulls)
  {
    hide PullIssue;
  }

  lemma MergedRepoStays(r: Repo, m: MergeRequest, q: Pull, o: Objects)
    ensures PullsStay(r.pulls, MergedRepo(r, m, q, o).pulls)
  {
    hide ClosePull, MoveBranch, PullsStay;
    ClosePullStays(r.(objects := o), m.number, m.now);
    MoveBranchFrame(ClosePull(r.(objects := o), m.number, m.now), q.baseRef, m.mergeSha);
  }

  lemma MergeStays(db: Db, repo: int, m: MergeRequest, copied: Objects, id: int)
    requires DbOk(db) && id in db.repos
    ensures var db' := MergePull(db, repo, m, copied).0;
            id in db'.repos && PullsStay(db.repos[id].pulls, db'.repos[id].pulls)
  {
    hide DbOk, MergeInto, MergeGuard, DropBranch, MergedRepo, NewCommit, TablesOk, WithCommit, CopiedOrOwn;
    var db' := MergePull(db, repo, m, copied).0;
    if repo != id {
      MergeElsewhere(db, repo, m, copied, id);
      if db'.repos[id] != db.repos[id] {
        var b :| db'.repos[id] == DropBranch(db.repos[id], b);
        DropKeepsPulls(db.repos[id], b);
      }
    } else if MergeGuard(db, id, m) == Done {
      OwnMergeStays(db, id, m, copied);
    }
  }

  lemma OwnMergeStays(db: Db, id: int, m: MergeRequest, copied: Objects)
    requires DbOk(db) && MergeGuard(db, id, m) == Done
    ensures var db' := MergePull(db, id, m, copied).0;
            id in db.repos && id in db'.repos && PullsStay(db.repos[id].pulls, db'.repos[id].pulls)
  {
    hide DbOk, MergeInto, MergeGuard, DropBranch, MergedRepo, NewCommit, TablesOk, WithCommit, PullsStay;
    TablesPart(db);
    PullsAreHere(db, id, m);
    HeadStays(db, id, m);
    MergeShape(db, id, m, CopiedOrOwn(db, id, m, copied));
    var q, o := MergedPull(db, id, m), WithCommit(CopiedOrOwn(db, id, m, copied), NewCommit(db, id, m));
    MergedRepoStays(db.repos[id], m, q, o);
    DropKeepsPulls(MergedRepo(db.repos[id], m, q, o), q.headRef);
  }

  lemma TrackerStepStays(r: Repo, r': Repo)
    requires TrackerStep(r, r')
    ensures PullsStay(r.pulls, r'.pulls)
  {
  }

  lemma TrackerEventStays(db: Db, e: Event)
    requires LeavesGit(e) && e.repo in db.repos
    ensures e.repo in Apply(db, e).0.repos && PullsStay(db.repos[e.repo].pulls, Apply(db, e).0.repos[e.repo].pulls)
  {
    hide PatchIssue, PatchPull, CreateComment, DeleteComment, NextIssueNumber, HeadBranch, TrackerStep, Find;
    var r := db.repos[e.repo];
    match e
    case PatchIssueEvent(_, number, p, now) =>
      PatchIssueStep(r, number, p, now);
      TrackerStepStays(r, PatchIssue(r, number, p, now).0);
    case PatchPullEvent(_, number, p, now) =>
      PatchPullStep(r, number, p, now);
      TrackerStepStays(r, PatchPull(r, number, p, now).0);
    case CreateCommentEvent(_, number, text) =>
      CreateCommentStep(r, db.nextComment, number, text);
      TrackerStepStays(r, CreateComment(r, db.nextComment, number, text).0);
    case DeleteCommentEvent(_, comment) =>
      DeleteCommentStep(r, comment);
      TrackerStepStays(r, DeleteComment(r, comment).0);
    case _ =>
  }

  lemma RefEventStays(db: Db, e: Event)
    requires (e.CreateRefEvent? || e.PatchRefEvent? || e.DeleteRefEvent?) && e.repo in db.repos
    ensures e.repo in Apply(db, e).0.repos && Apply(db, e).0.repos[e.repo].pulls == db.repos[e.repo].pulls
  {
    hide CreateRef, PatchRef, DeleteRef;
    var r := db.repos[e.repo];
    match e
    case CreateRefEvent(_, ref, sha) => CreateRefAside(r, ref, sha);
    case PatchRefEvent(_, ref, sha, force) => PatchRefAside(r, ref, sha, force);
    case DeleteRefEvent(_, ref) => DeleteRefAside(r, ref);
  }

  /** Every request leaves the pulls of a repository that is still there in place. */
  lemma EventKeepsPulls(db: Db, e: Event, id: int)
    requires DbOk(db) && id in db.repos && id in Apply(db, e).0.repos
    ensures PullsStay(db.repos[id].pulls, Apply(db, e).0.repos[id].pulls)
  {
    hide DbOk, MergePull, CreateRepo, PatchRepo, CreateRef, PatchRef, DeleteRef, CreateIssue, PatchIssue, CreatePull,
         PatchPull, CreateComment, DeleteComment, AddComment;
    if e.MergePullEvent? {
      MergeStays(db, e.repo, e.request, e.copied, id);
    } else if e.CreateRepoEvent? || e.repo != id {
      UnusedId(db, id);
      OtherReposStay(db, e, id);
    } else if e.DeleteRepoEvent? {
      DeletedIsGone(db, id);
    } else if e.CreateRefEvent? || e.PatchRefEvent? || e.DeleteRefEvent? {
      RefEventStays(db, e);
    } else {
      TrackerEventStays(db, e);
    }
  }

  // ---------------------------------------------------------------- runs

  /** An id once given to a repository is not given to another. */
  lemma {:induction false} GoneForGood(db: Db, events: seq<Event>, id: int)
    requires DbOk(db) && RunSupplied(db, events) && id < db.nextRepo && id !in db.repos
    ensures id !in Run(db, events).repos
    decreases |events|
  {
    hide DbOk, Apply, Supplied, NewRepoStep;
    if events != [] {
      EventKeepsOk(db, events[0]);
      IdsGrow(db, events[0]);
      FreshRepoStep(db, events[0], id);
      StillGone(db, Apply(db, events[0]).0, id);
      GoneForGood(Apply(db, events[0]).0, events[1..], id);
    }
  }

  lemma StillGone(db: Db, db': Db, id: int)
    requires NewRepoStep(db, db', id) && id < db.nextRepo && id !in db.repos
    ensures id !in db'.repos
  {
  }

  lemma {:induction false} RunKeepsPulls(db: Db, events: seq<Event>, id: int)
    requires DbOk(db) && RunSupplied(db, events) && id in db.repos && id in Run(db, events).repos
    ensures PullsStay(db.repos[id].pulls, Run(db, events).repos[id].pulls)
    decreases |events|
  {
    hide DbOk, Apply, Supplied;
    if events != [] {
      var next := Apply(db, events[0]).0;
      EventKeepsOk(db, events[0]);
      IdsGrow(db, events[0]);
      KnownRepo(db, id);
      if id in next.repos {
        EventKeepsPulls(db, events[0], id);
        RunKeepsPulls(next, events[1..], id);
      } else {
        GoneForGood(next, events[1..], id);
      }
    }
  }

  /** In every run from the empty service a pull that is merged is merged and closed for good, for as long as its
      repository exists, and no request merges it again. */
  lemma MergedForGood(db: Db, before: seq<Event>, after: seq<Event>, id: int, j: nat, m: MergeRequest)
    requires Initial(db) && RunSupplied(db, before) && RunSupplied(Run(db, before), after)
    requires id in Run(db, before).repos && id in Run(Run(db, before), after).repos
    requires j < |Run(db, before).repos[id].pulls| && Run(db, before).repos[id].pulls[j].merged
    ensures var pulls := Run(Run(db, before), after).repos[id].pulls;
            j < |pulls| && pulls[j].merged && pulls[j].state == Closed
            && pulls[j].number == Run(db, before).repos[id].pulls[j].number
            && (m.number == pulls[j].number ==> MergeGuard(Run(Run(db, before), after), id, m) == Invalid)
  {
    hide DbOk, Run, RunSupplied, MergeGuard;
    ReachableIsOk(db, before);
    RunKeepsPulls(Run(db, before), after, id);
    RunKeepsOk(Run(db, before), after);
    var now := Run(Run(db, before), after);
    PullFacts(now, id, j);
    if m.number == now.repos[id].pulls[j].number {
      MergedRefused(now, id, j, m);
    }
  }

  lemma MergedRefused(db: Db, id: int, j: nat, m: MergeRequest)
    requires id in db.repos && j < |db.repos[id].pulls| && db.repos[id].pulls[j].merged
    requires m.number == db.repos[id].pulls[j].number
    requires forall k :: 0 <= k < |db.repos[id].pulls| && db.repos[id].pulls[k].number == m.number ==> k == j
    ensures MergeGuard(db, id, m) == Invalid
  {
    var pulls := db.repos[id].pulls;
    assert PullNumber(pulls[j]) == m.number;
  }
}
