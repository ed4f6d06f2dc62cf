/** What the tracker's requests do, across routes and across requests. */
module GitHubTrackerEffects {
  import opened Tables
  import opened GitHubDb
  import opened GitHubTrackerLaws

  /** A pull's title, text and state may be patched through its issue or through itself: the repository ends up the
      same. */
  lemma EitherRoute(r: Repo, number: int, title: Option<string>, body: Option<Option<string>>, state: Option<Status>,
                    now: int)
    requires TrackerOk(r) && r.settings.hasIssues && HasKey(r.pulls, PullNumber, number)
    ensures PatchIssue(r, number, IssuePatch(title, body, state, Absent, Absent), now)
         == PatchPull(r, number, PullPatch(title, body, state, None, ""), now)
  {
    hide CommentsCounted, Count;
    var j := Find(r.pulls, PullNumber, number).value;
    PairAt(r.issues, r.pulls, j);
    FindIssue(r.issues, number);
    FindPullIssue(r.issues, number);
    var q, issue := r.pulls[j], r.issues[number - 1];
    var p := IssuePatch(title, body, state, Absent, Absent);
    assert SyncedPull(q, issue, p, now) == PatchedPull(q, PullPatch(title, body, state, None, ""), None, now);
  }

  /** The patch that only changes the state. */
  function ToState(state: Status): IssuePatch {
    IssuePatch(None, None, Some(state), Absent, Absent)
  }

  /** Closing an open issue and reopening it leaves the repository as it was, pull and counter included. */
  lemma ReopenUndoesClose(r: Repo, number: int, now: int, later: int)
    requires TrackerOk(r) && r.settings.hasIssues && 1 <= number <= |r.issues| && r.issues[number - 1].state == Open
    ensures var (closed, o) := PatchIssue(r, number, ToState(Closed), now);
            o == Done && PatchIssue(closed, number, ToState(Open), later) == (r, Done)
  {
    hide TrackerOk, PatchIssue, MergedPullOf;
    var i := number - 1;
    var closed := PatchIssue(r, number, ToState(Closed), now).0;
    FindsOf(r, number);
    OpenCounted(r, i);
    PatchedTo(r, number, Closed, now);
    PatchIssueLaw(r, number, ToState(Closed), now);
    if r.issues[i].isPull {
      SameFind(r.pulls, closed.pulls, Find(r.pulls, PullNumber, number).value);
    }
    MergedOne(closed, number);
    PatchedTo(closed, number, Open, later);
    assert closed.issues[i := r.issues[i]] == r.issues;
    if r.issues[i].isPull {
      var j := Find(r.pulls, PullNumber, number).value;
      assert closed.pulls[j := r.pulls[j]] == r.pulls;
    }
  }

  /** Where a request for an issue's number finds the issue and, for a pull, the pull equal to it. */
  lemma FindsOf(r: Repo, number: int)
    requires TrackerOk(r) && 1 <= number <= |r.issues|
    ensures Find(r.issues, IssueNumber, number) == Some(number - 1)
    ensures r.issues[number - 1].isPull ==>
      var f := Find(r.pulls, PullNumber, number);
      f.Some? && r.pulls[f.value].number == number && Same(r.pulls[f.value], r.issues[number - 1])
    ensures Clocked(r.issues)
    ensures r.issues[number - 1].isPull ==>
      var q := r.pulls[Find(r.pulls, PullNumber, number).value]; q.merged ==> q.state == Closed
  {
    hide CommentsCounted, Count;
    FindIssue(r.issues, number);
    PullOfIssue(r.issues, r.pulls, number - 1);
    if r.issues[number - 1].isPull {
      PairAt(r.issues, r.pulls, Find(r.pulls, PullNumber, number).value);
    }
  }

  /** The issue, and the pull of a pull issue, after a patch of the state alone. */
  lemma PatchedTo(r: Repo, number: int, state: Status, now: int)
    requires TrackerOk(r) && MayPatchIssue(r, number, ToState(state))
    ensures var (r', o) := PatchIssue(r, number, ToState(state), now);
            var i, issue, f := number - 1, r.issues[number - 1], Find(r.pulls, PullNumber, number);
            o == Done
            && r' == r.(issues := r.issues[i := issue.(state := state,
                                                       closedAt := ClosedAfter(issue.state, Some(state),
                                                           issue.closedAt, now))],
                        pulls := if !issue.isPull then r.pulls
                                 else r.pulls[f.value := r.pulls[f.value].(state := state,
                                        closedAt := ClosedAfter(issue.state, Some(state), r.pulls[f.value].closedAt,
                                                                now))],
                        openIssues := ClampedSum(r.openIssues, OpenDelta(issue.state, Some(state))))
  {
    hide TrackerOk, MergedPullOf;
    FindsOf(r, number);
    MergedOne(r, number);
  }

  lemma FindFirst<T, K>(rows: seq<T>, key: T -> K, k: K, i: nat)
    requires i < |rows| && key(rows[i]) == k && forall j :: 0 <= j < i ==> key(rows[j]) != k
    ensures Find(rows, key, k) == Some(i)
  {
  }

  lemma OpenCounted(r: Repo, i: nat)
    requires TrackerOk(r) && i < |r.issues| && r.issues[i].state == Open
    ensures r.openIssues > 0
  {
    CountPositive(r.issues, IsOpen, i);
  }

  lemma SameFind(pulls: seq<Pull>, pulls': seq<Pull>, j: nat)
    requires j < |pulls| && |pulls'| == |pulls| && Find(pulls, PullNumber, pulls[j].number) == Some(j)
    requires forall k :: 0 <= k < |pulls| ==> pulls'[k].number == pulls[k].number
    ensures Find(pulls', PullNumber, pulls[j].number) == Some(j)
  {
    FindFirst(pulls', PullNumber, pulls[j].number, j);
  }

  /** A merged pull cannot be reopened by either route. */
  lemma MergedStaysClosed(r: Repo, number: int, p: IssuePatch, q: PullPatch, now: int)
    requires TrackerOk(r) && HasKey(r.pulls, PullNumber, number) && p.state == Some(Open) && q.state == Some(Open)
    requires r.pulls[Find(r.pulls, PullNumber, number).value].merged
    ensures PatchIssue(r, number, p, now).1 != Done && PatchIssue(r, number, p, now).0 == r
    ensures PatchPull(r, number, q, now) == (r, Invalid)
  {
    hide CommentsCounted, Count;
    var j := Find(r.pulls, PullNumber, number).value;
    PairAt(r.issues, r.pulls, j);
    FindIssue(r.issues, number);
  }

  /** An issue patch is done exactly when issues are on, the issue exists, no merged pull is reopened and all ids
      resolve. It changes that issue and its pull, and the count of open issues moves with the issue's state. */
  lemma PatchIssueOutcome(r: Repo, number: int, p: IssuePatch, now: int)
    requires TrackerOk(r)
    ensures PatchIssue(r, number, p, now).1 == Done <==> MayPatchIssue(r, number, p)
    ensures !MayPatchIssue(r, number, p) ==> PatchIssue(r, number, p, now).0 == r
    ensures var r' := PatchIssue(r, number, p, now).0;
            MayPatchIssue(r, number, p) ==>
              ChangesOnly(r, r', number) && r'.issues[number - 1] == PatchedIssue(r.issues[number - 1], p, now)
              && r'.openIssues - r.openIssues == OpenWeight(r'.issues[number - 1]) - OpenWeight(r.issues[number - 1])
  {
    hide TrackerOk, CommentsCounted, Count, MergedPullOf;
    NumbersIn(r, number);
    if 1 <= number <= |r.issues| {
      FindsOf(r, number);
      MergedOne(r, number);
      if MayPatchIssue(r, number, p) {
        PatchedShape(r, number, p, now);
        PatchedOpen(r, number, p, now);
      }
    }
  }

  lemma PatchedShape(r: Repo, number: int, p: IssuePatch, now: int)
    requires TrackerOk(r) && MayPatchIssue(r, number, p)
    ensures var (r', o) := PatchIssue(r, number, p, now);
            var issue := r.issues[number - 1];
            o == Done && ChangesOnly(r, r', number) && r'.issues[number - 1] == PatchedIssue(issue, p, now)
            && r'.openIssues == ClampedSum(r.openIssues, OpenDelta(issue.state, p.state))
  {
    hide TrackerOk, MergedPullOf;
    FindsOf(r, number);
    MergedOne(r, number);
  }

  lemma PatchedOpen(r: Repo, number: int, p: IssuePatch, now: int)
    requires TrackerOk(r) && MayPatchIssue(r, number, p)
    ensures var issue := r.issues[number - 1];
            ClampedSum(r.openIssues, OpenDelta(issue.state, p.state)) - r.openIssues
            == OpenWeight(PatchedIssue(issue, p, now)) - OpenWeight(issue)
  {
    hide TrackerOk, MergedPullOf;
    OpenIsNat(r);
    if r.issues[number - 1].state == Open {
      OpenCounted(r, number - 1);
    }
  }

  ghost predicate MayPatchIssue(r: Repo, number: int, p: IssuePatch) {
    && r.settings.hasIssues && 1 <= number <= |r.issues| && !p.assignees.Unresolved? && !p.labels.Unresolved?
    && !(p.state == Some(Open) && MergedPullOf(r, number))
  }

  lemma NumbersIn(r: Repo, number: int)
    requires TrackerOk(r)
    ensures Find(r.issues, IssueNumber, number).Some? <==> 1 <= number <= |r.issues|
  {
    FindIssue(r.issues, number);
  }

  lemma MergedOne(r: Repo, number: int)
    requires TrackerOk(r) && 1 <= number <= |r.issues|
    ensures MergedPullOf(r, number) <==>
      var f := Find(r.pulls, PullNumber, number); r.issues[number - 1].isPull && f.Some? && r.pulls[f.value].merged
  {
    hide CommentsCounted, Count, Index, Find;
    var f := Find(r.pulls, PullNumber, number);
    if f.Some? {
      assert r.pulls[f.value].number == number;
    }
    if MergedPullOf(r, number) {
      var j :| 0 <= j < |r.pulls| && r.pulls[j].number == number && r.pulls[j].merged;
      PairAt(r.issues, r.pulls, j);
      assert PullNumber(r.pulls[j]) == number;
      IndexAt(r.pulls, PullNumber, j);
      FindIsIndex(r.pulls, PullNumber, number);
    }
  }

  lemma OpenIsNat(r: Repo)
    requires TrackerOk(r)
    ensures r.openIssues >= 0
  {
  }

  function OpenWeight(i: Issue): int {
    if i.state == Open then 1 else 0
  }

  ghost predicate MergedPullOf(r: Repo, number: int) {
    exists j :: 0 <= j < |r.pulls| && r.pulls[j].number == number && r.pulls[j].merged
  }

  /** Only the issue of that number and its pull differ. */
  ghost predicate ChangesOnly(r: Repo, r': Repo, number: int) {
    && |r'.issues| == |r.issues| && |r'.pulls| == |r.pulls| && r'.comments == r.comments && r'.objects == r.objects
    && (forall k :: 0 <= k < |r.issues| && k != number - 1 ==> r'.issues[k] == r.issues[k])
    && (forall j :: 0 <= j < |r.pulls| && r.pulls[j].number != number ==> r'.pulls[j] == r.pulls[j])
  }

  /** A new pull has the next number, starts at the tips of its two branches, and has an issue of its own. */
  lemma CreatePullOutcome(r: Repo, id: int, title: string, body: Option<string>, draft: bool,
                          headRepo: int, headRef: string, head: Option<Branch>, base: string)
    requires TrackerOk(r)
    ensures var (r', o) := CreatePull(r, id, title, body, draft, headRepo, headRef, head, base);
            && (o == Done <==> (title != "" && headRef != "" && base != "" && !(headRef == base && headRepo == id)
                                && head.Some? && HasKey(r.branches, BranchName, base)))
            && (o != Done ==> r' == r)
            && (o == Done ==>
                  var n := |r.issues| + 1;
                  var tip := r.branches[Find(r.branches, BranchName, base).value].sha;
                  r'.issues == r.issues + [Issue(n, title, body, Open, None, [], [], 0, true)]
                  && r'.pulls == r.pulls + [Pull(n, title, body, Open, None, [], [], 0, headRepo, headRef,
                                                 head.value.sha, id, base, tip, false, draft)]
                  && r'.openIssues == r.openIssues + 1)
  {
    hide CommentsCounted, Count;
    NextNumber(r);
    OpenIsNat(r);
  }

  /** Deleting a comment that was just made undoes making it, counters included. */
  lemma DeleteUndoesComment(r: Repo, id: int, number: int, text: string)
    requires TrackerOk(r) && CreateComment(r, id, number, text).1 == Done && !HasKey(r.comments, CommentId, id)
    ensures DeleteComment(CreateComment(r, id, number, text).0, id) == (r, Done)
  {
    hide Count, Paired, CommentsCounted, Uncount, Find;
    var i := number - 1;
    var r' := CreateComment(r, id, number, text).0;
    CommentFrame(r, id, number, text);
    LastComment(r.comments, Comment(id, number, text));
    assert DeleteAt(r'.comments, |r.comments|) == r.comments;
    UncountLaw(r'.(comments := r.comments), number, 0);
    CommentCountIsNat(r.issues, r.comments, i);
    CommentsOfPulls(r);
    assert r'.issues[i := r.issues[i]] == r.issues;
    if r.issues[i].isPull {
      AdjustBack(r, r', number);
    }
  }

  lemma CommentsOfPulls(r: Repo)
    requires TrackerOk(r)
    ensures CommentsOfPullsNat(r)
  {
    hide Count;
    forall j | 0 <= j < |r.pulls|
      ensures r.pulls[j].comments >= 0
    {
      PairAt(r.issues, r.pulls, j);
      CommentCountIsNat(r.issues, r.comments, r.pulls[j].number - 1);
    }
  }

  lemma CommentFrame(r: Repo, id: int, number: int, text: string)
    requires Numbered(r.issues) && CreateComment(r, id, number, text).1 == Done
    ensures 1 <= number <= |r.issues|
    ensures var issue := r.issues[number - 1];
            var r1 := r.(comments := r.comments + [Comment(id, number, text)],
                         issues := r.issues[number - 1 := issue.(comments := issue.comments + 1)]);
            CreateComment(r, id, number, text).0 == (if issue.isPull then AdjustPullComments(r1, number, 1) else r1)
            && Numbered(CreateComment(r, id, number, text).0.issues)
  {
    FindIssue(r.issues, number);
  }

  lemma LastComment(comments: seq<Comment>, c: Comment)
    requires !HasKey(comments, CommentId, c.id)
    ensures Find(comments + [c], CommentId, c.id) == Some(|comments|)
  {
    var all := comments + [c];
    assert forall i :: 0 <= i < |comments| ==> CommentId(all[i]) == CommentId(comments[i]);
    FindFirst(all, CommentId, c.id, |comments|);
  }

  lemma AdjustBack(r: Repo, r': Repo, number: int)
    requires Paired(r.issues, r.pulls) && CommentsOfPullsNat(r)
    requires r'.pulls == AdjustPullComments(r, number, 1).pulls
    ensures AdjustPullComments(r', number, -1).pulls == r.pulls
  {
    var f := Find(r.pulls, PullNumber, number);
    if f.Some? {
      var j := f.value;
      assert r.pulls[j].number == number;
      SameFind(r.pulls, r'.pulls, j);
      assert r'.pulls[j := r.pulls[j]] == r.pulls;
    } else {
      assert r'.pulls == r.pulls;
    }
  }

  ghost predicate CommentsOfPullsNat(r: Repo) {
    forall j :: 0 <= j < |r.pulls| ==> r.pulls[j].comments >= 0
  }
}
