/** Pulls and issues stay one object, and the derived counters stay exact. */
module GitHubTrackerLaws {
  import opened Tables
  import opened GitHubDb

  predicate IsOpen(i: Issue) { i.state == Open }

  function About(n: int): Comment -> bool {
    (c: Comment) => c.issueNumber == n
  }

  /** Issue numbers are exactly 1..n, in the order of creation. */
  ghost predicate Numbered(issues: seq<Issue>) {
    forall k :: 0 <= k < |issues| ==> issues[k].number == k + 1
  }

  ghost predicate Same(q: Pull, i: Issue) {
    && q.title == i.title && q.body == i.body && q.state == i.state && q.closedAt == i.closedAt
    && q.assignees == i.assignees && q.labels == i.labels && q.comments == i.comments
  }

  /** The pull has its issue, marked as a pull and equal to it; a merged pull is closed. */
  ghost predicate PairOk(issues: seq<Issue>, q: Pull) {
    && 1 <= q.number <= |issues|
    && issues[q.number - 1].isPull && Same(q, issues[q.number - 1])
    && (q.merged ==> q.state == Closed)
  }

  ghost predicate Paired(issues: seq<Issue>, pulls: seq<Pull>) {
    && Unique(pulls, PullNumber)
    && (forall j :: 0 <= j < |pulls| ==> PairOk(issues, pulls[j]))
    && (forall k :: 0 <= k < |issues| && issues[k].isPull ==> HasKey(pulls, PullNumber, k + 1))
  }

  /** The closing time is set exactly when the issue is closed. */
  ghost predicate Clocked(issues: seq<Issue>) {
    forall k :: 0 <= k < |issues| ==> (issues[k].closedAt.Some? <==> issues[k].state == Closed)
  }

  ghost predicate CommentsCounted(issues: seq<Issue>, comments: seq<Comment>) {
    && Unique(comments, CommentId)
    && (forall c :: c in comments ==> 1 <= c.issueNumber <= |issues|)
    && (forall k :: 0 <= k < |issues| ==> issues[k].comments == Count(comments, About(k + 1)))
  }

  ghost predicate TrackerOk(r: Repo) {
    && Numbered(r.issues) && Paired(r.issues, r.pulls) && Clocked(r.issues)
    && r.openIssues == Count(r.issues, IsOpen)
    && CommentsCounted(r.issues, r.comments)
  }

  /** Only the tracker's fields change, no pull is lost or renumbered, and merged pulls stay merged. */
  ghost predicate TrackerStep(r: Repo, r': Repo) {
    && r' == r.(issues := r'.issues, pulls := r'.pulls, comments := r'.comments, openIssues := r'.openIssues)
    && |r.issues| <= |r'.issues| && |r.pulls| <= |r'.pulls|
    && forall j :: 0 <= j < |r.pulls| ==>
         r'.pulls[j].number == r.pulls[j].number && r'.pulls[j].baseRepo == r.pulls[j].baseRepo
         && (r.pulls[j].merged ==> r'.pulls[j].merged)
  }

  lemma FindIssue(issues: seq<Issue>, n: int)
    requires Numbered(issues)
    ensures Find(issues, IssueNumber, n) == if 1 <= n <= |issues| then Some(n - 1) else None
  {
    var f := Find(issues, IssueNumber, n);
    if 1 <= n <= |issues| {
      assert IssueNumber(issues[n - 1]) == n;
      assert f.Some? && issues[f.value].number == f.value + 1;
    }
  }

  lemma FindPullIssue(issues: seq<Issue>, n: int)
    requires Numbered(issues)
    ensures PullIssue(issues, n) == if 1 <= n <= |issues| && issues[n - 1].isPull then Some(n - 1) else None
  {
    var f := PullIssue(issues, n);
    if f.Some? {
      assert issues[f.value].number == f.value + 1;
    }
  }

  /** The next number is one more than the number of issues. */
  lemma NextNumber(r: Repo)
    requires Numbered(r.issues) && Paired(r.issues, r.pulls)
    ensures NextIssueNumber(r) == |r.issues| + 1
  {
    var a, b := MaxNumber(r.issues, IssueNumber), MaxNumber(r.pulls, PullNumber);
    assert a == |r.issues| by {
      if |r.issues| > 0 {
        assert IssueNumber(r.issues[|r.issues| - 1]) == |r.issues|;
      }
      if a != 0 {
        var i :| 0 <= i < |r.issues| && IssueNumber(r.issues[i]) == a;
      }
    }
    if b != 0 {
      var j :| 0 <= j < |r.pulls| && PullNumber(r.pulls[j]) == b;
      PairAt(r.issues, r.pulls, j);
    }
  }

  lemma PairAt(issues: seq<Issue>, pulls: seq<Pull>, j: nat)
    requires Paired(issues, pulls) && j < |pulls|
    ensures PairOk(issues, pulls[j])
  {
  }

  /** Only a pull of the issue's own number is concerned by a change of the issue. */
  lemma PairedUpdate(issues: seq<Issue>, pulls: seq<Pull>, i: nat, issue: Issue, j: nat, q: Pull)
    requires Paired(issues, pulls)
    requires i < |issues| && issue.isPull == issues[i].isPull
    requires j < |pulls| && pulls[j].number == i + 1 && q.number == i + 1
    requires issue.isPull && Same(q, issue) && (q.merged ==> q.state == Closed)
    ensures Paired(issues[i := issue], pulls[j := q])
  {
    var pulls', issues' := pulls[j := q], issues[i := issue];
    assert forall k :: 0 <= k < |pulls| ==> PullNumber(pulls'[k]) == PullNumber(pulls[k]);
    forall k | 0 <= k < |pulls'|
      ensures PairOk(issues', pulls'[k])
    {
      assert PairOk(issues, pulls[k]);
      assert k != j ==> PullNumber(pulls[k]) != PullNumber(pulls[j]);
    }
    forall k | 0 <= k < |issues'| && issues'[k].isPull
      ensures HasKey(pulls', PullNumber, k + 1)
    {
      assert HasKey(pulls, PullNumber, k + 1);
      var m :| 0 <= m < |pulls| && PullNumber(pulls[m]) == k + 1;
      assert PullNumber(pulls'[m]) == k + 1;
    }
  }

  lemma PairedIssueOnly(issues: seq<Issue>, pulls: seq<Pull>, i: nat, issue: Issue)
    requires Paired(issues, pulls) && i < |issues| && !issues[i].isPull && !issue.isPull
    ensures Paired(issues[i := issue], pulls)
  {
    forall k | 0 <= k < |pulls|
      ensures PairOk(issues[i := issue], pulls[k])
    {
      assert PairOk(issues, pulls[k]);
    }
  }

  /** The pull of a pull-flagged issue is found, and there is none for any other issue. */
  lemma PullOfIssue(issues: seq<Issue>, pulls: seq<Pull>, i: nat)
    requires Paired(issues, pulls) && i < |issues|
    ensures Find(pulls, PullNumber, i + 1).Some? <==> issues[i].isPull
  {
    var f := Find(pulls, PullNumber, i + 1);
    if f.Some? {
      assert PairOk(issues, pulls[f.value]);
    }
    if issues[i].isPull {
      assert HasKey(pulls, PullNumber, i + 1);
    }
  }

  lemma PairedAppendIssue(issues: seq<Issue>, pulls: seq<Pull>, issue: Issue)
    requires Paired(issues, pulls) && !issue.isPull
    ensures Paired(issues + [issue], pulls)
  {
    forall k | 0 <= k < |pulls|
      ensures PairOk(issues + [issue], pulls[k])
    {
      assert PairOk(issues, pulls[k]);
    }
  }

  lemma PairedAppendBoth(issues: seq<Issue>, pulls: seq<Pull>, issue: Issue, q: Pull)
    requires Paired(issues, pulls) && issue.isPull && q.number == |issues| + 1 && Same(q, issue) && !q.merged
    ensures Paired(issues + [issue], pulls + [q])
  {
    var pulls', issues' := pulls + [q], issues + [issue];
    forall k | 0 <= k < |pulls'|
      ensures PairOk(issues', pulls'[k])
    {
      assert k < |pulls| ==> PairOk(issues, pulls[k]);
    }
    forall a, b | 0 <= a < b < |pulls'|
      ensures PullNumber(pulls'[a]) != PullNumber(pulls'[b])
    {
      assert PairOk(issues, pulls[a]);
      assert b < |pulls| ==> PullNumber(pulls[a]) != PullNumber(pulls[b]);
    }
    forall k | 0 <= k < |issues'| && issues'[k].isPull
      ensures HasKey(pulls', PullNumber, k + 1)
    {
      if k < |issues| {
        assert HasKey(pulls, PullNumber, k + 1);
        var m :| 0 <= m < |pulls| && PullNumber(pulls[m]) == k + 1;
        assert PullNumber(pulls'[m]) == k + 1;
      } else {
        assert PullNumber(pulls'[|pulls|]) == k + 1;
      }
    }
  }

  /** The counter follows the state change, so the clamp at zero never acts. */
  lemma OpenCountUpdate(issues: seq<Issue>, i: nat, issue: Issue, open: int, next: Option<Status>)
    requires i < |issues| && open == Count(issues, IsOpen)
    requires issue.state == Keep(next, issues[i].state)
    ensures ClampedSum(open, OpenDelta(issues[i].state, next)) == Count(issues[i := issue], IsOpen)
    ensures open + OpenDelta(issues[i].state, next) >= 0
  {
    CountUpdate(issues, IsOpen, i, issue);
    if IsOpen(issues[i]) {
      CountPositive(issues, IsOpen, i);
    }
  }

  lemma CommentsUntouched(issues: seq<Issue>, comments: seq<Comment>, i: nat, issue: Issue)
    requires CommentsCounted(issues, comments) && i < |issues| && issue.comments == issues[i].comments
    ensures CommentsCounted(issues[i := issue], comments)
  {
  }

  /** A new issue starts without comments. */
  lemma CommentsAppendIssue(issues: seq<Issue>, comments: seq<Comment>, issue: Issue)
    requires CommentsCounted(issues, comments) && issue.comments == 0
    ensures CommentsCounted(issues + [issue], comments)
  {
    forall i | 0 <= i < |comments|
      ensures !About(|issues| + 1)(comments[i])
    {
      assert comments[i] in comments;
    }
    CountZero(comments, About(|issues| + 1));
  }

  lemma CommentAdded(issues: seq<Issue>, comments: seq<Comment>, i: nat, issue: Issue, c: Comment)
    requires CommentsCounted(issues, comments) && i < |issues|
    requires c.issueNumber == i + 1 && !HasKey(comments, CommentId, c.id)
    requires issue.comments == issues[i].comments + 1
    ensures CommentsCounted(issues[i := issue], comments + [c])
  {
    UniqueAppend(comments, CommentId, c);
    var issues' := issues[i := issue];
    forall k | 0 <= k < |issues'|
      ensures issues'[k].comments == Count(comments + [c], About(k + 1))
    {
      CountAppend(comments, About(k + 1), c);
    }
  }

  lemma CommentRemoved(issues: seq<Issue>, comments: seq<Comment>, at: nat, issue: Issue)
    requires CommentsCounted(issues, comments) && at < |comments|
    requires 1 <= comments[at].issueNumber <= |issues|
    requires issue.comments == ClampedSum(issues[comments[at].issueNumber - 1].comments, -1)
    ensures CommentsCounted(issues[comments[at].issueNumber - 1 := issue], DeleteAt(comments, at))
    ensures issues[comments[at].issueNumber - 1].comments > 0
  {
    hide Index;
    var i := comments[at].issueNumber - 1;
    IndexDelete(comments, CommentId, at);
    CountPositive(comments, About(i + 1), at);
    var issues' := issues[i := issue];
    forall k | 0 <= k < |issues'|
      ensures issues'[k].comments == Count(DeleteAt(comments, at), About(k + 1))
    {
      CountDelete(comments, About(k + 1), at);
    }
  }

  /** Appending one open issue, with its pull when it is one, and counting it. */
  lemma IssueAppended(r: Repo, r': Repo, issue: Issue)
    requires TrackerOk(r)
    requires r'.issues == r.issues + [issue] && r'.comments == r.comments
    requires r'.openIssues == ClampedSum(r.openIssues, 1)
    requires issue.number == |r.issues| + 1 && issue.state == Open && issue.closedAt == None && issue.comments == 0
    requires Paired(r'.issues, r'.pulls)
    ensures TrackerOk(r')
  {
    CountAppend(r.issues, IsOpen, issue);
    CommentsAppendIssue(r.issues, r.comments, issue);
  }

  lemma CreateIssueLaw(r: Repo, title: string, body: Option<string>, assignees: Ids, labels: Ids)
    requires TrackerOk(r)
    ensures TrackerOk(CreateIssue(r, title, body, assignees, labels).0)
            && TrackerStep(r, CreateIssue(r, title, body, assignees, labels).0)
  {
    hide Paired, CommentsCounted;
    if CreateIssue(r, title, body, assignees, labels).1 == Done {
      NextNumber(r);
      var r' := CreateIssue(r, title, body, assignees, labels).0;
      var issue := r'.issues[|r.issues|];
      PairedAppendIssue(r.issues, r.pulls, issue);
      IssueAppended(r, r', issue);
    }
  }

  lemma CreatePullLaw(r: Repo, id: int, title: string, body: Option<string>, draft: bool,
                      headRepo: int, headRef: string, head: Option<Branch>, base: string)
    requires TrackerOk(r)
    ensures var r' := CreatePull(r, id, title, body, draft, headRepo, headRef, head, base).0;
            && TrackerOk(r') && TrackerStep(r, r')
            && forall j :: |r.pulls| <= j < |r'.pulls| ==> r'.pulls[j].baseRepo == id
  {
    hide Paired, CommentsCounted;
    var r' := CreatePull(r, id, title, body, draft, headRepo, headRef, head, base).0;
    if CreatePull(r, id, title, body, draft, headRepo, headRef, head, base).1 == Done {
      NextNumber(r);
      PairedAppendBoth(r.issues, r.pulls, r'.issues[|r.issues|], r'.pulls[|r.pulls|]);
      IssueAppended(r, r', r'.issues[|r.issues|]);
    }
  }

  /** Changing issue `i` to state `next`, with its pull kept equal, and counting the change. */
  lemma IssueChanged(r: Repo, r': Repo, i: nat, issue: Issue, next: Option<Status>)
    requires TrackerOk(r) && i < |r.issues|
    requires r'.issues == r.issues[i := issue] && r'.comments == r.comments
    requires r'.openIssues == ClampedSum(r.openIssues, OpenDelta(r.issues[i].state, next))
    requires issue.state == Keep(next, r.issues[i].state) && (issue.closedAt.Some? <==> issue.state == Closed)
    requires issue.number == i + 1 && issue.comments == r.issues[i].comments
    requires Paired(r'.issues, r'.pulls)
    ensures TrackerOk(r')
  {
    OpenCountUpdate(r.issues, i, issue, r.openIssues, next);
    CommentsUntouched(r.issues, r.comments, i, issue);
  }

  lemma PatchIssueLaw(r: Repo, number: int, p: IssuePatch, now: int)
    requires TrackerOk(r)
    ensures TrackerOk(PatchIssue(r, number, p, now).0)
  {
    hide Paired, CommentsCounted;
    FindIssue(r.issues, number);
    if PatchIssue(r, number, p, now).1 == Done {
      var i := number - 1;
      var issue := PatchedIssue(r.issues[i], p, now);
      var r' := PatchIssue(r, number, p, now).0;
      PullOfIssue(r.issues, r.pulls, i);
      if r.issues[i].isPull {
        var j := Find(r.pulls, PullNumber, number).value;
        PairAt(r.issues, r.pulls, j);
        PairedUpdate(r.issues, r.pulls, i, issue, j, SyncedPull(r.pulls[j], r.issues[i], p, now));
      } else {
        PairedIssueOnly(r.issues, r.pulls, i, issue);
      }
      IssueChanged(r, r', i, issue, p.state);
    }
  }

  lemma PatchIssueStep(r: Repo, number: int, p: IssuePatch, now: int)
    ensures TrackerStep(r, PatchIssue(r, number, p, now).0)
    ensures |PatchIssue(r, number, p, now).0.pulls| == |r.pulls|
  {
  }

  lemma PatchPullLaw(r: Repo, number: int, p: PullPatch, now: int)
    requires TrackerOk(r)
    ensures TrackerOk(PatchPull(r, number, p, now).0)
  {
    hide Paired, CommentsCounted;
    if PatchPull(r, number, p, now).1 == Done {
      var r' := PatchPull(r, number, p, now).0;
      var j := Find(r.pulls, PullNumber, number).value;
      PairAt(r.issues, r.pulls, j);
      var i := number - 1;
      FindPullIssue(r.issues, number);
      PairedUpdate(r.issues, r.pulls, i, r'.issues[i], j, r'.pulls[j]);
      IssueChanged(r, r', i, r'.issues[i], p.state);
    }
  }

  lemma PatchPullStep(r: Repo, number: int, p: PullPatch, now: int)
    ensures TrackerStep(r, PatchPull(r, number, p, now).0)
    ensures |PatchPull(r, number, p, now).0.pulls| == |r.pulls| && PatchPull(r, number, p, now).0.comments == r.comments
  {
    hide ClosedAfter, Keep, OpenDelta, ClampedSum, PullIssue;
  }

  /** Closing a pull by merging it, together with the counter step that goes with it. */
  lemma ClosePullLaw(r: Repo, number: int, now: int)
    requires TrackerOk(r) && HasKey(r.pulls, PullNumber, number)
    requires r.pulls[Find(r.pulls, PullNumber, number).value].state == Open
    ensures TrackerOk(AdjustOpenIssues(ClosePull(r, number, now), -1))
  {
    hide Paired, CommentsCounted;
    var r' := AdjustOpenIssues(ClosePull(r, number, now), -1);
    var j := Find(r.pulls, PullNumber, number).value;
    PairAt(r.issues, r.pulls, j);
    var i := number - 1;
    FindPullIssue(r.issues, number);
    PairedUpdate(r.issues, r.pulls, i, r'.issues[i], j, r'.pulls[j]);
    IssueChanged(r, r', i, r'.issues[i], Some(Closed));
  }

  /** A changed comment count reaches the pull of the issue as well. */
  lemma CommentKeepsPairs(r: Repo, r': Repo, i: nat, issue: Issue, delta: int)
    requires Numbered(r.issues) && Paired(r.issues, r.pulls) && Clocked(r.issues) && i < |r.issues|
    requires issue == r.issues[i].(comments := ClampedSum(r.issues[i].comments, delta))
    requires r'.issues == r.issues[i := issue]
    requires r'.pulls == if issue.isPull then AdjustPullComments(r, i + 1, delta).pulls else r.pulls
    ensures Numbered(r'.issues) && Paired(r'.issues, r'.pulls) && Clocked(r'.issues)
    ensures Count(r'.issues, IsOpen) == Count(r.issues, IsOpen)
  {
    hide Paired, HasKey;
    PullOfIssue(r.issues, r.pulls, i);
    CountUpdate(r.issues, IsOpen, i, issue);
    if issue.isPull {
      var j := Find(r.pulls, PullNumber, i + 1).value;
      PairAt(r.issues, r.pulls, j);
      PairedUpdate(r.issues, r.pulls, i, issue, j, r'.pulls[j]);
    } else {
      PairedIssueOnly(r.issues, r.pulls, i, issue);
    }
  }

  lemma CommentCountIsNat(issues: seq<Issue>, comments: seq<Comment>, i: nat)
    requires CommentsCounted(issues, comments) && i < |issues|
    ensures issues[i].comments >= 0
  {
  }

  lemma CreateCommentLaw(r: Repo, id: int, number: int, text: string)
    requires TrackerOk(r) && !HasKey(r.comments, CommentId, id)
    ensures TrackerOk(CreateComment(r, id, number, text).0)
  {
    hide Paired, Index, CommentsCounted, Count;
    FindIssue(r.issues, number);
    if CreateComment(r, id, number, text).1 == Done {
      var r' := CreateComment(r, id, number, text).0;
      var i := number - 1;
      var issue := r.issues[i].(comments := r.issues[i].comments + 1);
      assert r'.issues == r.issues[i := issue] && r'.comments == r.comments + [Comment(id, number, text)];
      CommentCountIsNat(r.issues, r.comments, i);
      CommentAdded(r.issues, r.comments, i, issue, Comment(id, number, text));
      CommentKeepsPairs(r, r', i, issue, 1);
    }
  }

  lemma CreateCommentStep(r: Repo, id: int, number: int, text: string)
    ensures var r' := CreateComment(r, id, number, text).0;
            && TrackerStep(r, r') && |r'.pulls| == |r.pulls|
            && forall c :: c in r'.comments ==> c in r.comments || c.id == id
  {
  }

  lemma {:induction false} UncountStep(r: Repo, number: int, i: nat)
    requires i <= |r.issues|
    ensures TrackerStep(r, Uncount(r, number, i)) && |Uncount(r, number, i).pulls| == |r.pulls|
    ensures Uncount(r, number, i).comments == r.comments
    decreases |r.issues| - i
  {
    if i < |r.issues| {
      if r.issues[i].number != number {
        UncountStep(r, number, i + 1);
      } else {
        var issue := r.issues[i];
        var r1 := r.(issues := r.issues[i := issue.(comments := ClampedSum(issue.comments, -1))]);
        UncountStep(if issue.isPull then AdjustPullComments(r1, number, -1) else r1, number, i + 1);
      }
    }
  }

  lemma {:induction false} UncountSkips(r: Repo, number: int, i: nat)
    requires Numbered(r.issues) && i <= |r.issues| && (number < i + 1 || number > |r.issues|)
    ensures Uncount(r, number, i) == r
    decreases |r.issues| - i
  {
    if i < |r.issues| {
      UncountSkips(r, number, i + 1);
    }
  }

  /** The loop over all issues changes exactly the one issue with that number. */
  lemma {:induction false} UncountLaw(r: Repo, number: int, i: nat)
    requires Numbered(r.issues) && i + 1 <= number <= |r.issues|
    ensures var issue := r.issues[number - 1];
            var r1 := r.(issues := r.issues[number - 1 := issue.(comments := ClampedSum(issue.comments, -1))]);
            Uncount(r, number, i) == if issue.isPull then AdjustPullComments(r1, number, -1) else r1
    decreases number - i
  {
    if i + 1 < number {
      UncountLaw(r, number, i + 1);
    } else {
      var issue := r.issues[i];
      var r1 := r.(issues := r.issues[i := issue.(comments := ClampedSum(issue.comments, -1))]);
      UncountSkips(if issue.isPull then AdjustPullComments(r1, number, -1) else r1, number, i + 1);
    }
  }

  lemma CommentInRange(issues: seq<Issue>, comments: seq<Comment>, at: nat)
    requires CommentsCounted(issues, comments) && at < |comments|
    ensures 1 <= comments[at].issueNumber <= |issues|
  {
    assert comments[at] in comments;
  }

  lemma DeleteCommentLaw(r: Repo, id: int)
    requires TrackerOk(r)
    ensures TrackerOk(DeleteComment(r, id).0)
  {
    hide Paired, Index, TrackerStep, Uncount, CommentsCounted, Count;
    if DeleteComment(r, id).1 == Done {
      var at := Find(r.comments, CommentId, id).value;
      CommentInRange(r.issues, r.comments, at);
      var i := r.comments[at].issueNumber - 1;
      UncountLaw(r.(comments := DeleteAt(r.comments, at)), i + 1, 0);
      var r' := DeleteComment(r, id).0;
      var issue := r.issues[i].(comments := ClampedSum(r.issues[i].comments, -1));
      assert r'.issues == r.issues[i := issue] && r'.comments == DeleteAt(r.comments, at);
      CommentRemoved(r.issues, r.comments, at, issue);
      CommentKeepsPairs(r, r', i, issue, -1);
    }
  }

  lemma DeleteCommentStep(r: Repo, id: int)
    ensures var r' := DeleteComment(r, id).0;
            && TrackerStep(r, r') && |r'.pulls| == |r.pulls|
            && forall c :: c in r'.comments ==> c in r.comments
  {
    if DeleteComment(r, id).1 == Done {
      var at := Find(r.comments, CommentId, id).value;
      UncountStep(r.(comments := DeleteAt(r.comments, at)), r.comments[at].issueNumber, 0);
    }
  }

  lemma OnePull(pulls: seq<Pull>, j: nat)
    requires Unique(pulls, PullNumber) && j < |pulls|
    ensures forall k :: 0 <= k < |pulls| && pulls[k].number == pulls[j].number ==> k == j
  {
    forall k | 0 <= k < |pulls| && k != j
      ensures pulls[k].number != pulls[j].number
    {
      assert k < j ==> PullNumber(pulls[k]) != PullNumber(pulls[j]);
      assert j < k ==> PullNumber(pulls[j]) != PullNumber(pulls[k]);
    }
  }
}
