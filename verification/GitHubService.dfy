/** The GitHub service as it runs: handlers that update its collections step by step. */
module GitHubService {
  import opened Tables
  import opened GitGraph
  import opened GitCopy
  import opened GitHubDb
  import opened GitHubRuns
  import opened GitHubMerges
  import opened GitHubHistory

  lemma MaxOfNone<T>(number: T -> int)
    ensures MaxNumber([], number) == 0
  {
  }

  lemma MaxOfMore<T>(rows: seq<T>, number: T -> int, i: nat)
    requires i < |rows|
    ensures var m := MaxNumber(rows[..i], number);
            MaxNumber(rows[..i + 1], number) == if number(rows[i]) > m then number(rows[i]) else m
  {
    assert rows[..i + 1][..i] == rows[..i];
  }

  class Service {
    var repos: map<int, Repo>
    var nextRepo: int
    var nextComment: int
    var publicRepos: map<Owner, int>

    constructor (owners: set<Owner>)
      ensures Initial(Value()) && Valid()
    {
      repos, nextRepo, nextComment := map[], 1, 1;
      publicRepos := map o | o in owners :: 0;
      new;
      ReachableIsOk(Value(), []);
    }

    function Value(): Db
      reads this
    {
      Db(repos, nextRepo, nextComment, publicRepos)
    }

    ghost predicate Valid()
      reads this
    {
      DbOk(Value())
    }

    /** `id`'s tables were `was` and are now `r`; nothing else changed. */
    twostate predicate Only(id: int, r: Repo)
      reads this
    {
      Value() == old(Value()).(repos := old(repos)[id := r])
    }

    // -------------------------------------------------------------- branches and refs

    method InsertBranch(id: int, name: string, sha: string)
      requires id in repos
      modifies this`repos
      ensures id in repos && Only(id, CreateBranch(old(repos[id]), name, sha))
    {
      repos := repos[id := repos[id].(branches := repos[id].branches + [Branch(name, sha)])];
      if Find(repos[id].refs, RefName, HEADS + name).None? {
        repos := repos[id := repos[id].(refs := repos[id].refs + [Ref(HEADS + name, sha)])];
      }
    }

    method SyncBranchFromRef(id: int, fullRef: string, sha: string)
      requires id in repos
      modifies this`repos
      ensures id in repos && Only(id, SyncBranch(old(repos[id]), fullRef, sha))
    {
      if !(HEADS <= fullRef) {
        return;
      }
      var name := fullRef[|HEADS|..];
      match Find(repos[id].branches, BranchName, name)
      case Some(i) =>
        var branches := repos[id].branches;
        repos := repos[id := repos[id].(branches := branches[i := branches[i].(sha := sha)])];
      case None =>
        InsertBranch(id, name, sha);
    }

    method UpdateBranchSha(id: int, name: string, sha: string)
      requires id in repos
      modifies this`repos
      ensures id in repos && Only(id, MoveBranch(old(repos[id]), name, sha))
    {
      match Find(repos[id].branches, BranchName, name) {
        case Some(i) =>
          var branches := repos[id].branches;
          repos := repos[id := repos[id].(branches := branches[i := branches[i].(sha := sha)])];
        case None =>
      }
      match Find(repos[id].refs, RefName, HEADS + name) {
        case Some(i) =>
          var refs := repos[id].refs;
          repos := repos[id := repos[id].(refs := refs[i := refs[i].(sha := sha)])];
        case None =>
      }
    }

    method RemoveBranch(id: int, name: string)
      requires id in repos
      modifies this`repos
      ensures id in repos
      ensures Only(id, old(repos[id]).(branches := Without(old(repos[id]).branches, BranchName, name)))
    {
      match Find(repos[id].branches, BranchName, name)
      case Some(i) => repos := repos[id := repos[id].(branches := DeleteAt(repos[id].branches, i))];
      case None => assert repos == repos[id := repos[id]];
    }

    method RemoveRef(id: int, name: string)
      requires id in repos
      modifies this`repos
      ensures id in repos
      ensures Only(id, old(repos[id]).(refs := Without(old(repos[id]).refs, RefName, name)))
    {
      match Find(repos[id].refs, RefName, name)
      case Some(i) => repos := repos[id := repos[id].(refs := DeleteAt(repos[id].refs, i))];
      case None => assert repos == repos[id := repos[id]];
    }

    method DeleteBranchByName(id: int, name: string)
      requires id in repos
      modifies this`repos
      ensures id in repos && Only(id, DropBranch(old(repos[id]), name))
    {
      RemoveBranch(id, name);
      RemoveRef(id, HEADS + name);
      assert repos == old(repos)[id := repos[id]];
    }

    method HandleCreateRef(id: int, fullRef: string, sha: string) returns (o: Outcome)
      requires Valid()
      modifies this`repos
      ensures (Value(), o) == Apply(old(Value()), CreateRefEvent(id, fullRef, sha)) && Valid()
    {
      hide Find, SyncBranch, DbOk;
      EventKeepsOk(Value(), CreateRefEvent(id, fullRef, sha));
      if id !in repos {
        return NotFound;
      }
      if !("refs/" <= fullRef) || sha == "" || Find(repos[id].objects.commits, CommitSha, sha).None?
         || Find(repos[id].refs, RefName, fullRef).Some? {
        assert repos == repos[id := repos[id]];
        return Invalid;
      }
      repos := repos[id := repos[id].(refs := repos[id].refs + [Ref(fullRef, sha)])];
      SyncBranchFromRef(id, fullRef, sha);
      assert repos == old(repos)[id := repos[id]];
      return Done;
    }

    /** Both commits exist and the new one has the old one behind it. */
    method IsFastForward(commits: seq<Commit>, oldSha: string, sha: string) returns (ok: bool)
      ensures ok <==> Find(commits, CommitSha, oldSha).Some? && Reaches(Commits(commits), sha, oldSha)
    {
      if Find(commits, CommitSha, oldSha).None? {
        return false;
      }
      ok := IsDescendantOf(commits, oldSha, sha);
    }

    method MoveRef(id: int, i: nat, sha: string)
      requires id in repos && i < |repos[id].refs|
      modifies this`repos
      ensures id in repos
      ensures Only(id, var r := old(repos[id]);
                       SyncBranch(r.(refs := r.refs[i := r.refs[i].(sha := sha)]), r.refs[i].name, sha))
    {
      hide SyncBranch;
      var refs := repos[id].refs;
      repos := repos[id := repos[id].(refs := refs[i := refs[i].(sha := sha)])];
      SyncBranchFromRef(id, repos[id].refs[i].name, sha);
      assert repos == old(repos)[id := repos[id]];
    }

    method HandlePatchRef(id: int, param: string, sha: string, force: bool) returns (o: Outcome)
      requires Valid()
      modifies this`repos
      ensures (Value(), o) == Apply(old(Value()), PatchRefEvent(id, param, sha, force)) && Valid()
    {
      hide Find, SyncBranch, FullRef, DbOk, Reaches;
      EventKeepsOk(Value(), PatchRefEvent(id, param, sha, force));
      if id !in repos {
        return NotFound;
      }
      assert repos == repos[id := repos[id]];
      var commits := repos[id].objects.commits;
      var found := Find(repos[id].refs, RefName, FullRef(param));
      if found.None? {
        return NotFound;
      }
      var i := found.value;
      if sha == "" || Find(commits, CommitSha, sha).None? {
        return Invalid;
      }
      if !force {
        var forward := IsFastForward(commits, repos[id].refs[i].sha, sha);
        if !forward {
          return Invalid;
        }
      }
      MoveRef(id, i, sha);
      return Done;
    }

    method HandleDeleteRef(id: int, param: string) returns (o: Outcome)
      requires Valid()
      modifies this`repos
      ensures (Value(), o) == Apply(old(Value()), DeleteRefEvent(id, param)) && Valid()
    {
      hide Find, Without, FullRef, DbOk;
      EventKeepsOk(Value(), DeleteRefEvent(id, param));
      if id !in repos {
        return NotFound;
      }
      assert repos == repos[id := repos[id]];
      var found := Find(repos[id].refs, RefName, FullRef(param));
      if found.None? {
        return NotFound;
      }
      var name := repos[id].refs[found.value].name;
      RemoveRef(id, name);
      if HEADS <= name {
        RemoveBranch(id, name[|HEADS|..]);
      }
      assert repos == old(repos)[id := repos[id]];
      return Done;
    }

    // -------------------------------------------------------------- issues and pulls

    method AdjustOpenIssueCount(id: int, delta: int)
      requires id in repos
      modifies this`repos
      ensures id in repos && Only(id, AdjustOpenIssues(old(repos[id]), delta))
    {
      var next := repos[id].openIssues + delta;
      if next < 0 {
        next := 0;
      }
      repos := repos[id := repos[id].(openIssues := next)];
    }

    /** The running maximum over issues and then pulls, plus one. */
    method NextNumber(id: int) returns (n: int)
      requires id in repos
      ensures n == NextIssueNumber(repos[id])
    {
      hide MaxNumber;
      var issues, pulls := repos[id].issues, repos[id].pulls;
      var max := 0;
      MaxOfNone(IssueNumber);
      MaxOfNone(PullNumber);
      for i := 0 to |issues|
        invariant max == MaxNumber(issues[..i], IssueNumber)
      {
        MaxOfMore(issues, IssueNumber, i);
        if issues[i].number > max {
          max := issues[i].number;
        }
      }
      assert issues[..|issues|] == issues;
      ghost var a := max;
      for j := 0 to |pulls|
        invariant max == if a < MaxNumber(pulls[..j], PullNumber) then MaxNumber(pulls[..j], PullNumber) else a
      {
        MaxOfMore(pulls, PullNumber, j);
        if pulls[j].number > max {
          max := pulls[j].number;
        }
      }
      assert pulls[..|pulls|] == pulls;
      return max + 1;
    }

    method HandleCreateIssue(id: int, title: string, body: Option<string>, assignees: Ids,
                             labels: Ids)
      returns (o: Outcome)
      requires Valid()
      modifies this`repos
      ensures (Value(), o) == Apply(old(Value()), CreateIssueEvent(id, title, body, assignees, labels)) && Valid()
    {
      hide Find, DbOk, NextIssueNumber;
      EventKeepsOk(Value(), CreateIssueEvent(id, title, body, assignees, labels));
      if id !in repos {
        return NotFound;
      }
      assert repos == repos[id := repos[id]];
      if !repos[id].settings.hasIssues {
        return NotFound;
      }
      if title == "" || assignees.Unresolved? || labels.Unresolved? {
        return Invalid;
      }
      var n := NextNumber(id);
      var row := Issue(n, title, body, Open, None, if assignees.Resolved? then assignees.ids else [],
                       if labels.Resolved? then labels.ids else [], 0, false);
      repos := repos[id := repos[id].(issues := repos[id].issues + [row])];
      AdjustOpenIssueCount(id, 1);
      assert repos == old(repos)[id := repos[id]];
      return Done;
    }

    /** The fields the issue patch wrote are copied to the pull of the same number. */
    method SyncPullFromIssuePatch(id: int, was: Issue, p: IssuePatch, now: int, number: int)
      requires id in repos
      modifies this`repos
      ensures id in repos
      ensures Only(id, var r := old(repos[id]);
                       match Find(r.pulls, PullNumber, number)
                       case None => r
                       case Some(j) => r.(pulls := r.pulls[j := SyncedPull(r.pulls[j], was, p, now)]))
    {
      match Find(repos[id].pulls, PullNumber, number)
      case None => assert repos == repos[id := repos[id]];
      case Some(j) =>
        var q := repos[id].pulls[j];
        q := q.(title := Keep(p.title, q.title), body := Keep(p.body, q.body), state := Keep(p.state, q.state));
        q := q.(assignees := KeepIds(p.assignees, q.assignees), labels := KeepIds(p.labels, q.labels));
        if OpenDelta(was.state, p.state) != 0 {
          q := q.(closedAt := if p.state == Some(Closed) then Some(now) else None);
        }
        repos := repos[id := repos[id].(pulls := repos[id].pulls[j := q])];
    }

    method HandlePatchIssue(id: int, number: int, p: IssuePatch, now: int) returns (o: Outcome)
      requires Valid()
      modifies this`repos
      ensures (Value(), o) == Apply(old(Value()), PatchIssueEvent(id, number, p, now)) && Valid()
    {
      hide Find, DbOk, PatchedIssue, SyncedPull, OpenDelta, AdjustOpenIssues;
      EventKeepsOk(Value(), PatchIssueEvent(id, number, p, now));
      if id !in repos {
        return NotFound;
      }
      assert repos == repos[id := repos[id]];
      if !repos[id].settings.hasIssues {
        return NotFound;
      }
      var found := Find(repos[id].issues, IssueNumber, number);
      if found.None? {
        return NotFound;
      }
      var i := found.value;
      var issue := repos[id].issues[i];
      if p.state == Some(Open) && issue.isPull {
        var pull := Find(repos[id].pulls, PullNumber, number);
        if pull.Some? && repos[id].pulls[pull.value].merged {
          return Invalid;
        }
      }
      if p.assignees.Unresolved? || p.labels.Unresolved? {
        return Invalid;
      }
      repos := repos[id := repos[id].(issues := repos[id].issues[i := PatchedIssue(issue, p, now)])];
      if issue.isPull {
        SyncPullFromIssuePatch(id, issue, p, now, number);
      }
      AdjustOpenIssueCount(id, OpenDelta(issue.state, p.state));
      assert repos == old(repos)[id := repos[id]];
      return Done;
    }

    /** The rows of a new pull: its issue, then the pull itself. */
    method InsertPull(id: int, issue: Issue, pull: Pull)
      requires id in repos
      modifies this`repos
      ensures id in repos
      ensures Only(id, var r := old(repos[id]);
                   AdjustOpenIssues(r.(issues := r.issues + [issue], pulls := r.pulls + [pull]), 1))
    {
      hide AdjustOpenIssues;
      repos := repos[id := repos[id].(issues := repos[id].issues + [issue])];
      repos := repos[id := repos[id].(pulls := repos[id].pulls + [pull])];
      AdjustOpenIssueCount(id, 1);
    }

    method HandleCreatePull(id: int, title: string, body: Option<string>, draft: bool,
                            headRepo: Option<int>, headRef: string, base: string) returns (o: Outcome)
      requires Valid()
      modifies this`repos
      ensures (Value(), o) == Apply(old(Value()), CreatePullEvent(id, title, body, draft, headRepo, headRef, base))
              && Valid()
    {
      hide Find, DbOk, NextIssueNumber, HeadBranch, AdjustOpenIssues;
      EventKeepsOk(Value(), CreatePullEvent(id, title, body, draft, headRepo, headRef, base));
      if id !in repos {
        return NotFound;
      }
      assert repos == repos[id := repos[id]];
      if headRepo.None? {
        return Invalid;
      }
      var head := HeadBranch(Value(), headRepo, headRef);
      var found := Find(repos[id].branches, BranchName, base);
      if title == "" || headRef == "" || base == "" || (headRef == base && headRepo.value == id) {
        return Invalid;
      }
      if head.None? || found.None? {
        return Invalid;
      }
      var n := NextNumber(id);
      var issue := Issue(n, title, body, Open, None, [], [], 0, true);
      var pull := Pull(n, title, body, Open, None, [], [], 0, headRepo.value, headRef, head.value.sha,
                       id, base, repos[id].branches[found.value].sha, false, draft);
      InsertPull(id, issue, pull);
      assert repos == old(repos)[id := repos[id]];
      return Done;
    }

    /** The pull's own issue takes the same title, body, state and closing time. */
    method PatchIssueOfPull(id: int, q: Pull, p: PullPatch, now: int)
      requires id in repos
      modifies this`repos
      ensures id in repos
      ensures Only(id, var r := old(repos[id]);
                       match PullIssue(r.issues, q.number)
                       case None => r
                       case Some(i) =>
                         var issue := r.issues[i];
                         r.(issues := r.issues[i := issue.(title := Keep(p.title, issue.title),
                                                           body := Keep(p.body, issue.body),
                                                           state := Keep(p.state, issue.state),
                                                           closedAt := ClosedAfter(q.state, p.state,
                                                                                   issue.closedAt, now))]))
    {
      match PullIssue(repos[id].issues, q.number)
      case None => assert repos == repos[id := repos[id]];
      case Some(i) =>
        var issue := repos[id].issues[i];
        var patched := issue.(title := Keep(p.title, issue.title), body := Keep(p.body, issue.body),
                              state := Keep(p.state, issue.state),
                              closedAt := ClosedAfter(q.state, p.state, issue.closedAt, now));
        repos := repos[id := repos[id].(issues := repos[id].issues[i := patched])];
    }

    method HandlePatchPull(id: int, number: int, p: PullPatch, now: int) returns (o: Outcome)
      requires Valid()
      modifies this`repos
      ensures (Value(), o) == Apply(old(Value()), PatchPullEvent(id, number, p, now)) && Valid()
    {
      hide Find, PullIssue, DbOk, PatchedPull, Keep, ClosedAfter, OpenDelta, AdjustOpenIssues;
      EventKeepsOk(Value(), PatchPullEvent(id, number, p, now));
      if id !in repos {
        return NotFound;
      }
      assert repos == repos[id := repos[id]];
      var pulls := repos[id].pulls;
      var found := Find(pulls, PullNumber, number);
      if found.None? {
        return NotFound;
      }
      var j := found.value;
      var q := pulls[j];
      if p.state == Some(Open) && q.merged {
        return Invalid;
      }
      var base: Option<Branch> := None;
      if p.base != "" {
        var branch := Find(repos[id].branches, BranchName, p.base);
        if branch.None? {
          return Invalid;
        }
        base := Some(repos[id].branches[branch.value]);
      }
      repos := repos[id := repos[id].(pulls := pulls[j := PatchedPull(q, p, base, now)])];
      PatchIssueOfPull(id, q, p, now);
      AdjustOpenIssueCount(id, OpenDelta(q.state, p.state));
      assert repos == old(repos)[id := repos[id]];
      return Done;
    }

    // -------------------------------------------------------------- comments

    method AdjustPullCommentCount(id: int, number: int, delta: int)
      requires id in repos
      modifies this`repos
      ensures id in repos && Only(id, AdjustPullComments(old(repos[id]), number, delta))
    {
      match Find(repos[id].pulls, PullNumber, number)
      case None => assert repos == repos[id := repos[id]];
      case Some(j) =>
        var q := repos[id].pulls[j];
        var next := q.comments + delta;
        if next < 0 {
          next := 0;
        }
        repos := repos[id := repos[id].(pulls := repos[id].pulls[j := q.(comments := next)])];
    }

    method HandleCreateComment(id: int, number: int, text: string) returns (o: Outcome)
      requires Valid()
      modifies this`repos, this`nextComment
      ensures (Value(), o) == Apply(old(Value()), CreateCommentEvent(id, number, text)) && Valid()
    {
      hide Find, DbOk;
      EventKeepsOk(Value(), CreateCommentEvent(id, number, text));
      if id !in repos {
        return NotFound;
      }
      assert repos == repos[id := repos[id]];
      if !repos[id].settings.hasIssues {
        return NotFound;
      }
      var found := Find(repos[id].issues, IssueNumber, number);
      if found.None? {
        return NotFound;
      }
      if text == "" {
        return Invalid;
      }
      var i := found.value;
      var issue := repos[id].issues[i];
      repos := repos[id := repos[id].(comments := repos[id].comments + [Comment(nextComment, issue.number, text)])];
      nextComment := nextComment + 1;
      repos := repos[id := repos[id].(issues := repos[id].issues[i := issue.(comments := issue.comments + 1)])];
      if issue.isPull {
        AdjustPullCommentCount(id, issue.number, 1);
      }
      assert repos == old(repos)[id := repos[id]];
      return Done;
    }

    /** Every issue of the number, and its pull, counts one comment less. */
    method UncountAll(id: int, number: int)
      requires id in repos
      modifies this`repos
      ensures id in repos && Only(id, Uncount(old(repos[id]), number, 0))
    {
      hide Find;
      ghost var was, r1 := Value(), repos[id];
      var i := 0;
      while i < |repos[id].issues|
        invariant id in repos && i <= |repos[id].issues|
        invariant Value() == was.(repos := was.repos[id := repos[id]])
        invariant Uncount(repos[id], number, i) == Uncount(r1, number, 0)
        invariant |repos[id].issues| == |r1.issues|
      {
        var issue := repos[id].issues[i];
        if issue.number == number {
          var next := issue.comments - 1;
          if next < 0 {
            next := 0;
          }
          repos := repos[id := repos[id].(issues := repos[id].issues[i := issue.(comments := next)])];
          if issue.isPull {
            AdjustPullCommentCount(id, number, -1);
          }
        }
        i := i + 1;
      }
    }

    method HandleDeleteComment(id: int, comment: int) returns (o: Outcome)
      requires Valid()
      modifies this`repos
      ensures (Value(), o) == Apply(old(Value()), DeleteCommentEvent(id, comment)) && Valid()
    {
      hide Find, DbOk;
      EventKeepsOk(Value(), DeleteCommentEvent(id, comment));
      if id !in repos {
        return NotFound;
      }
      assert repos == repos[id := repos[id]];
      var found := Find(repos[id].comments, CommentId, comment);
      if found.None? {
        return NotFound;
      }
      var number := repos[id].comments[found.value].issueNumber;
      repos := repos[id := repos[id].(comments := DeleteAt(repos[id].comments, found.value))];
      UncountAll(id, number);
      assert repos == old(repos)[id := repos[id]];
      return Done;
    }

    // -------------------------------------------------------------- merging

    /** The base repository's objects with the head commit and all it needs. */
    method Materialize(base: int, head: int, sha: string) returns (copied: Objects)
      requires base in repos && head in repos && NoDuplicates(repos[base].objects)
      ensures Copied(repos[head].objects, repos[base].objects, copied, sha)
    {
      hide TreesCopied, CommitsCopied, Index;
      var rows := new ObjectRows(repos[base].objects);
      var seenCommits := new Marks();
      var seenTrees := new Marks();
      rows.MaterializeCommitGraph(repos[head].objects, sha, seenCommits, seenTrees);
      return rows.Value();
    }

    /** The writes of a merge, once the base repository's objects are complete. */
    method WriteMerge(id: int, m: MergeRequest, objects: Objects)
      requires MergeGuard(Value(), id, m) == Done
      modifies this`repos
      ensures Value() == MergeInto(old(Value()), id, m, objects)
    {
      hide MoveBranch, DropBranch, ClosePull, NewCommit;
      HeadStays(Value(), id, m);
      var q, settings := MergedPull(Value(), id, m), repos[id].settings;
      var commit := NewCommit(Value(), id, m);
      repos := repos[q.baseRepo := repos[q.baseRepo].(objects := objects.(commits := objects.commits + [commit]))];
      repos := repos[id := ClosePull(repos[id], m.number, m.now)];
      UpdateBranchSha(q.baseRepo, q.baseRef, m.mergeSha);
      if settings.deleteOnMerge && q.headRef != q.baseRef {
        DeleteBranchByName(q.headRepo, q.headRef);
      }
      AdjustOpenIssueCount(id, -1);
    }

    method HandleMergePull(id: int, m: MergeRequest) returns (o: Outcome, ghost copied: Objects)
      requires Valid() && FreshSha(Value(), m.mergeSha)
      modifies this`repos
      ensures Supplied(old(Value()), MergePullEvent(id, m, copied))
      ensures (Value(), o) == Apply(old(Value()), MergePullEvent(id, m, copied)) && Valid()
    {
      hide DbOk, MergeInto, FreshSha, Copied, MergeGuard;
      copied := Objects([], [], []);
      o := MergeGuard(Value(), id, m);
      if o == Done {
        HeadStays(Value(), id, m);
        var q := MergedPull(Value(), id, m);
        var objects := repos[q.baseRepo].objects;
        if q.baseRepo != q.headRepo {
          BaseHasNoDuplicates(Value(), q.baseRepo);
          objects := Materialize(q.baseRepo, q.headRepo, q.headSha);
          copied := objects;
        }
        assert Supplied(Value(), MergePullEvent(id, m, copied));
        WriteMerge(id, m, objects);
      }
      EventKeepsOk(old(Value()), MergePullEvent(id, m, copied));
    }

    static lemma BaseHasNoDuplicates(db: Db, id: int)
      requires DbOk(db) && id in db.repos
      ensures NoDuplicates(db.repos[id].objects)
    {
      assert RepoOk(db.repos[id], id);
    }

    // -------------------------------------------------------------- repositories

    method BumpPublicRepoCount(owner: Owner, delta: int)
      modifies this`publicRepos
      ensures Value() == BumpPublicRepos(old(Value()), owner, delta)
    {
      if owner !in publicRepos {
        return;
      }
      var next := publicRepos[owner] + delta;
      if next < 0 {
        next := 0;
      }
      publicRepos := publicRepos[owner := next];
    }

    method HandleCreateRepo(n: NewRepo, init: Option<InitialShas>, readme: string) returns (o: Outcome)
      requires Valid() && Supplied(Value(), CreateRepoEvent(n, init, readme))
      modifies this
      ensures (Value(), o) == Apply(old(Value()), CreateRepoEvent(n, init, readme)) && Valid()
    {
      hide DbOk, Supplied, SeedInitialGit;
      EventKeepsOk(Value(), CreateRepoEvent(n, init, readme));
      if exists id :: id in repos && repos[id].fullName == n.fullName {
        return Invalid;
      }
      assert !NameTaken(Value(), n.fullName);
      var id := nextRepo;
      nextRepo := nextRepo + 1;
      repos := repos[id := EmptyRepo(n)];
      if !n.isPrivate {
        BumpPublicRepoCount(n.owner, 1);
      }
      if init.Some? {
        repos := repos[id := SeedInitialGit(repos[id], init.value, readme)];
      }
      assert repos == old(repos)[id := repos[id]];
      return Done;
    }

    method HandlePatchRepo(id: int, p: RepoPatch) returns (o: Outcome)
      requires Valid()
      modifies this`repos, this`publicRepos
      ensures (Value(), o) == Apply(old(Value()), PatchRepoEvent(id, p)) && Valid()
    {
      hide DbOk;
      EventKeepsOk(Value(), PatchRepoEvent(id, p));
      if id !in repos {
        return NotFound;
      }
      if p.fullName.Some?
         && exists other :: other in repos && other != id && repos[other].fullName == p.fullName.value {
        return Invalid;
      }
      var wasPrivate := repos[id].isPrivate;
      var r := repos[id].(settings := p.settings);
      if p.fullName.Some? { r := r.(fullName := p.fullName.value); }
      if p.isPrivate.Some? { r := r.(isPrivate := p.isPrivate.value); }
      if p.visibility.Some? { r := r.(isPrivate := p.visibility.value != Public); }
      if p.defaultBranch.Some? { r := r.(defaultBranch := p.defaultBranch.value); }
      repos := repos[id := r];
      if r.isPrivate != wasPrivate {
        BumpPublicRepoCount(r.owner, if r.isPrivate then -1 else 1);
      }
      return Done;
    }

    method HandleDeleteRepo(id: int) returns (o: Outcome)
      requires Valid()
      modifies this`repos, this`publicRepos
      ensures (Value(), o) == Apply(old(Value()), DeleteRepoEvent(id)) && Valid()
    {
      hide DbOk;
      EventKeepsOk(Value(), DeleteRepoEvent(id));
      if id !in repos {
        return NotFound;
      }
      var r := repos[id];
      repos := repos - {id};
      if !r.isPrivate {
        BumpPublicRepoCount(r.owner, -1);
      }
      return Done;
    }
  }
}
