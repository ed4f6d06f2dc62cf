/** The GitHub service's collections and what each request does to them.
    Every collection is reached through its repository index, so rows are grouped by repository,
    in id order. Requests arrive decoded, trimmed and past the permission checks. */
module GitHubDb {
  import opened Tables
  import opened GitGraph
  import opened GitCopy

  const HEADS := "refs/heads/"

  datatype Ref = Ref(name: string, sha: string)
  datatype Branch = Branch(name: string, sha: string)
  datatype Status = Open | Closed
  datatype Issue = Issue(number: int, title: string, body: Option<string>, state: Status, closedAt: Option<int>,
                         assignees: seq<int>, labels: seq<int>, comments: int, isPull: bool)
  datatype Pull = Pull(number: int, title: string, body: Option<string>, state: Status, closedAt: Option<int>,
                       assignees: seq<int>, labels: seq<int>, comments: int,
                       headRepo: int, headRef: string, headSha: string,
                       baseRepo: int, baseRef: string, baseSha: string, merged: bool, draft: bool)
  datatype Comment = Comment(id: int, issueNumber: int, body: string)
  datatype Owner = User(id: int) | Organization(id: int)
  datatype Settings = Settings(hasIssues: bool, allowMerge: bool, allowSquash: bool, allowRebase: bool,
                               deleteOnMerge: bool)
  datatype Repo = Repo(fullName: string, owner: Owner, isPrivate: bool, defaultBranch: string, settings: Settings,
                       openIssues: int, objects: Objects, branches: seq<Branch>, refs: seq<Ref>,
                       issues: seq<Issue>, pulls: seq<Pull>, comments: seq<Comment>)
  datatype Db = Db(repos: map<int, Repo>, nextRepo: int, nextComment: int, publicRepos: map<Owner, int>)

  datatype Outcome = Done | NotFound | Invalid

  function BranchName(b: Branch): string { b.name }
  function RefName(r: Ref): string { r.name }
  function IssueNumber(i: Issue): int { i.number }
  function PullNumber(p: Pull): int { p.number }
  function CommentId(c: Comment): int { c.id }

  function FullRef(param: string): string {
    if "refs/" <= param then param else "refs/" + param
  }

  function ClampedSum(count: int, delta: int): int {
    if count + delta < 0 then 0 else count + delta
  }

  // ---------------------------------------------------------------- branches and refs

  function CreateBranch(r: Repo, name: string, sha: string): Repo {
    var r1 := r.(branches := r.branches + [Branch(name, sha)]);
    if Find(r1.refs, RefName, HEADS + name).None? then r1.(refs := r1.refs + [Ref(HEADS + name, sha)]) else r1
  }

  function SyncBranch(r: Repo, fullRef: string, sha: string): Repo {
    if !(HEADS <= fullRef) then r
    else match Find(r.branches, BranchName, fullRef[|HEADS|..])
      case Some(i) => r.(branches := r.branches[i := r.branches[i].(sha := sha)])
      case None => CreateBranch(r, fullRef[|HEADS|..], sha)
  }

  function MoveBranch(r: Repo, name: string, sha: string): Repo {
    var r1 := match Find(r.branches, BranchName, name)
      case Some(i) => r.(branches := r.branches[i := r.branches[i].(sha := sha)])
      case None => r;
    match Find(r1.refs, RefName, HEADS + name)
    case Some(i) => r1.(refs := r1.refs[i := r1.refs[i].(sha := sha)])
    case None => r1
  }

  function DropBranch(r: Repo, name: string): Repo {
    r.(branches := Without(r.branches, BranchName, name), refs := Without(r.refs, RefName, HEADS + name))
  }

  function CreateRef(r: Repo, fullRef: string, sha: string): (Repo, Outcome) {
    if !("refs/" <= fullRef) || sha == "" || Find(r.objects.commits, CommitSha, sha).None?
       || Find(r.refs, RefName, fullRef).Some? then (r, Invalid)
    else (SyncBranch(r.(refs := r.refs + [Ref(fullRef, sha)]), fullRef, sha), Done)
  }

  ghost function PatchRef(r: Repo, param: string, sha: string, force: bool): (Repo, Outcome) {
    match Find(r.refs, RefName, FullRef(param))
    case None => (r, NotFound)
    case Some(i) =>
      if sha == "" || Find(r.objects.commits, CommitSha, sha).None? then (r, Invalid)
      else if !force && (Find(r.objects.commits, CommitSha, r.refs[i].sha).None?
                         || !Reaches(Commits(r.objects.commits), sha, r.refs[i].sha)) then (r, Invalid)
      else (SyncBranch(r.(refs := r.refs[i := r.refs[i].(sha := sha)]), r.refs[i].name, sha), Done)
  }

  function DeleteRef(r: Repo, param: string): (Repo, Outcome) {
    var n := FullRef(param);
    if Find(r.refs, RefName, n).None? then (r, NotFound)
    else
      (r.(refs := Without(r.refs, RefName, n),
          branches := if HEADS <= n then Without(r.branches, BranchName, n[|HEADS|..]) else r.branches), Done)
  }

  // ---------------------------------------------------------------- issues, pulls and comments

  /** The body of an issue patch: absent fields stay; `Unresolved` names an unknown login or label. */
  datatype Ids = Absent | Unresolved | Resolved(ids: seq<int>)
  datatype IssuePatch = IssuePatch(title: Option<string>, body: Option<Option<string>>, state: Option<Status>,
                                   assignees: Ids, labels: Ids)
  datatype PullPatch = PullPatch(title: Option<string>, body: Option<Option<string>>, state: Option<Status>,
                                 draft: Option<bool>, base: string)

  function MaxNumber<T>(rows: seq<T>, number: T -> int): (m: int)
    ensures 0 <= m
    ensures forall i :: 0 <= i < |rows| ==> number(rows[i]) <= m
    ensures m == 0 || exists i :: 0 <= i < |rows| && number(rows[i]) == m
  {
    if rows == [] then 0
    else
      var m := MaxNumber(rows[..|rows| - 1], number);
      var n := number(rows[|rows| - 1]);
      assert forall i :: 0 <= i < |rows| - 1 ==> rows[i] == rows[..|rows| - 1][i];
      if n > m then n else m
  }

  function NextIssueNumber(r: Repo): int {
    var a, b := MaxNumber(r.issues, IssueNumber), MaxNumber(r.pulls, PullNumber);
    (if a < b then b else a) + 1
  }

  function AdjustOpenIssues(r: Repo, delta: int): Repo {
    r.(openIssues := ClampedSum(r.openIssues, delta))
  }

  function CreateIssue(r: Repo, title: string, body: Option<string>, assignees: Ids, labels: Ids): (Repo, Outcome) {
    if !r.settings.hasIssues then (r, NotFound)
    else if title == "" || assignees.Unresolved? || labels.Unresolved? then (r, Invalid)
    else
      var issue := Issue(NextIssueNumber(r), title, body, Open, None,
                         if assignees.Resolved? then assignees.ids else [],
                         if labels.Resolved? then labels.ids else [], 0, false);
      (AdjustOpenIssues(r.(issues := r.issues + [issue]), 1), Done)
  }

  /** The clock value stored when `state` moves from `old` to `next`. */
  function ClosedAfter(was: Status, next: Option<Status>, closedAt: Option<int>, now: int): Option<int> {
    if next == Some(Closed) && was == Open then Some(now)
    else if next == Some(Open) && was == Closed then None
    else closedAt
  }

  function OpenDelta(was: Status, next: Option<Status>): int {
    if next == Some(Closed) && was == Open then -1
    else if next == Some(Open) && was == Closed then 1
    else 0
  }

  function Keep<T>(patch: Option<T>, current: T): T {
    if patch.Some? then patch.value else current
  }

  function KeepIds(patch: Ids, current: seq<int>): seq<int> {
    if patch.Resolved? then patch.ids else current
  }

  function PatchedIssue(i: Issue, p: IssuePatch, now: int): Issue {
    i.(title := Keep(p.title, i.title), body := Keep(p.body, i.body), state := Keep(p.state, i.state),
       closedAt := ClosedAfter(i.state, p.state, i.closedAt, now),
       assignees := KeepIds(p.assignees, i.assignees), labels := KeepIds(p.labels, i.labels))
  }

  /** The pull takes over exactly the fields the issue patch wrote; the closing time is written
      only when the issue changed state. */
  function SyncedPull(q: Pull, was: Issue, p: IssuePatch, now: int): Pull {
    q.(title := Keep(p.title, q.title), body := Keep(p.body, q.body), state := Keep(p.state, q.state),
       closedAt := ClosedAfter(was.state, p.state, q.closedAt, now),
       assignees := KeepIds(p.assignees, q.assignees), labels := KeepIds(p.labels, q.labels))
  }

  function PatchIssue(r: Repo, number: int, p: IssuePatch, now: int): (Repo, Outcome) {
    if !r.settings.hasIssues then (r, NotFound)
    else match Find(r.issues, IssueNumber, number)
      case None => (r, NotFound)
      case Some(i) =>
        var issue := r.issues[i];
        var pull := Find(r.pulls, PullNumber, number);
        if p.state == Some(Open) && issue.isPull && pull.Some? && r.pulls[pull.value].merged then (r, Invalid)
        else if p.assignees.Unresolved? || p.labels.Unresolved? then (r, Invalid)
        else
          var r1 := r.(issues := r.issues[i := PatchedIssue(issue, p, now)]);
          var r2 := if issue.isPull && pull.Some?
                    then r1.(pulls := r1.pulls[pull.value := SyncedPull(r1.pulls[pull.value], issue, p, now)])
                    else r1;
          (AdjustOpenIssues(r2, OpenDelta(issue.state, p.state)), Done)
  }

  /** `base` and `head` are the branches as found, `None` when missing. */
  function CreatePull(r: Repo, id: int, title: string, body: Option<string>, draft: bool,
                      headRepo: int, headRef: string, head: Option<Branch>, base: string): (Repo, Outcome) {
    var found := Find(r.branches, BranchName, base);
    if title == "" || headRef == "" || base == "" || (headRef == base && headRepo == id)
       || head.None? || found.None? then (r, Invalid)
    else
      var n := NextIssueNumber(r);
      var issue := Issue(n, title, body, Open, None, [], [], 0, true);
      var pull := Pull(n, title, body, Open, None, [], [], 0, headRepo, headRef, head.value.sha,
                       id, base, r.branches[found.value].sha, false, draft);
      (AdjustOpenIssues(r.(issues := r.issues + [issue], pulls := r.pulls + [pull]), 1), Done)
  }

  function PatchedPull(q: Pull, p: PullPatch, base: Option<Branch>, now: int): Pull {
    q.(title := Keep(p.title, q.title), body := Keep(p.body, q.body), state := Keep(p.state, q.state),
       closedAt := ClosedAfter(q.state, p.state, q.closedAt, now), draft := Keep(p.draft, q.draft),
       baseRef := if base.Some? then p.base else q.baseRef, baseSha := if base.Some? then base.value.sha else q.baseSha)
  }

  function PullIssue(issues: seq<Issue>, number: int): (r: Option<nat>)
    ensures r.Some? ==> r.value < |issues| && issues[r.value].number == number && issues[r.value].isPull
    ensures r.None? ==> forall j :: 0 <= j < |issues| ==> !(issues[j].number == number && issues[j].isPull)
  {
    if issues == [] then None
    else if issues[0].number == number && issues[0].isPull then Some(0)
    else match PullIssue(issues[1..], number)
      case None => assert forall j :: 1 <= j < |issues| ==> issues[j] == issues[1..][j - 1]; None
      case Some(i) => Some(i + 1)
  }

  function PatchPull(r: Repo, number: int, p: PullPatch, now: int): (Repo, Outcome) {
    match Find(r.pulls, PullNumber, number)
    case None => (r, NotFound)
    case Some(j) =>
      var q := r.pulls[j];
      var found := Find(r.branches, BranchName, p.base);
      if p.state == Some(Open) && q.merged then (r, Invalid)
      else if p.base != "" && found.None? then (r, Invalid)
      else
        var base := if p.base == "" then None else Some(r.branches[found.value]);
        var r1 := r.(pulls := r.pulls[j := PatchedPull(q, p, base, now)]);
        var r2 := match PullIssue(r1.issues, q.number)
          case None => r1
          case Some(i) =>
            var issue := r1.issues[i];
            r1.(issues := r1.issues[i := issue.(title := Keep(p.title, issue.title), body := Keep(p.body, issue.body),
                                                 state := Keep(p.state, issue.state),
                                                 closedAt := ClosedAfter(q.state, p.state, issue.closedAt, now))]);
        (AdjustOpenIssues(r2, OpenDelta(q.state, p.state)), Done)
  }

  function AdjustPullComments(r: Repo, number: int, delta: int): Repo {
    match Find(r.pulls, PullNumber, number)
    case None => r
    case Some(j) => r.(pulls := r.pulls[j := r.pulls[j].(comments := ClampedSum(r.pulls[j].comments, delta))])
  }

  function CreateComment(r: Repo, id: int, number: int, text: string): (Repo, Outcome) {
    if !r.settings.hasIssues then (r, NotFound)
    else match Find(r.issues, IssueNumber, number)
      case None => (r, NotFound)
      case Some(i) =>
        if text == "" then (r, Invalid)
        else
          var issue := r.issues[i];
          var r1 := r.(comments := r.comments + [Comment(id, issue.number, text)],
                       issues := r.issues[i := issue.(comments := issue.comments + 1)]);
          (if issue.isPull then AdjustPullComments(r1, issue.number, 1) else r1, Done)
  }

  /** Every issue of the given number loses one comment, from position `i` on. */
  function Uncount(r: Repo, number: int, i: nat): Repo
    requires i <= |r.issues|
    decreases |r.issues| - i
  {
    if i == |r.issues| then r
    else if r.issues[i].number != number then Uncount(r, number, i + 1)
    else
      var issue := r.issues[i];
      var r1 := r.(issues := r.issues[i := issue.(comments := ClampedSum(issue.comments, -1))]);
      Uncount(if issue.isPull then AdjustPullComments(r1, number, -1) else r1, number, i + 1)
  }

  function DeleteComment(r: Repo, id: int): (Repo, Outcome) {
    match Find(r.comments, CommentId, id)
    case None => (r, NotFound)
    case Some(i) => (Uncount(r.(comments := DeleteAt(r.comments, i)), r.comments[i].issueNumber, 0), Done)
  }

  // ---------------------------------------------------------------- merging

  datatype Method = MergeCommit | Squash | Rebase
  datatype MergeRequest = MergeRequest(number: int, sha: string, mergeMethod: Method, mergeSha: string,
                                       message: string, now: int)

  function MethodAllowed(s: Settings, m: Method): bool {
    match m
    case MergeCommit => s.allowMerge
    case Squash => s.allowSquash
    case Rebase => s.allowRebase
  }

  /** All checks of the merge handler that come before it writes anything. */
  function MergeGuard(db: Db, repo: int, m: MergeRequest): (o: Outcome) {
    if repo !in db.repos then NotFound
    else match Find(db.repos[repo].pulls, PullNumber, m.number)
      case None => NotFound
      case Some(j) =>
        var r, q := db.repos[repo], db.repos[repo].pulls[j];
        if q.merged || q.state == Closed || q.draft then Invalid
        else if m.sha != "" && m.sha != q.headSha then Invalid
        else if !MethodAllowed(r.settings, m.mergeMethod) then Invalid
        else if q.baseRepo !in db.repos || q.headRepo !in db.repos then Invalid
        else if Find(db.repos[q.baseRepo].objects.commits, CommitSha, q.baseSha).None?
                || Find(db.repos[q.headRepo].objects.commits, CommitSha, q.headSha).None? then Invalid
        else Done
  }

  /** The pull a merge request names. */
  function MergedPull(db: Db, repo: int, m: MergeRequest): (q: Pull)
    requires MergeGuard(db, repo, m) == Done
  {
    db.repos[repo].pulls[Find(db.repos[repo].pulls, PullNumber, m.number).value]
  }

  function MergeParents(q: Pull, m: Method): seq<string> {
    if m == MergeCommit then [q.baseSha, q.headSha] else [q.baseSha]
  }

  /** The merge commit takes the tree of the head commit. */
  function NewCommit(db: Db, repo: int, m: MergeRequest): Commit
    requires MergeGuard(db, repo, m) == Done
  {
    var q := MergedPull(db, repo, m);
    var heads := db.repos[q.headRepo].objects.commits;
    Commit(m.mergeSha, heads[Find(heads, CommitSha, q.headSha).value].tree, MergeParents(q, m.mergeMethod), m.message)
  }

  function ClosePull(r: Repo, number: int, now: int): Repo {
    var r1 := match Find(r.pulls, PullNumber, number)
      case None => r
      case Some(j) => r.(pulls := r.pulls[j := r.pulls[j].(merged := true, state := Closed, closedAt := Some(now))]);
    match PullIssue(r1.issues, number)
    case None => r1
    case Some(i) => r1.(issues := r1.issues[i := r1.issues[i].(state := Closed, closedAt := Some(now))])
  }

  /** Everything the merge handler does once the head's objects are in the base repository;
      `copied` are the base repository's objects at that point. */
  function MergeInto(db: Db, repo: int, m: MergeRequest, copied: Objects): Db
    requires MergeGuard(db, repo, m) == Done
  {
    var q := MergedPull(db, repo, m);
    var base := db.repos[q.baseRepo];
    var objects := copied.(commits := copied.commits + [NewCommit(db, repo, m)]);
    var db1 := db.(repos := db.repos[q.baseRepo := base.(objects := objects)]);
    var db2 := db1.(repos := db1.repos[repo := ClosePull(db1.repos[repo], m.number, m.now)]);
    var db3 := db2.(repos := db2.repos[q.baseRepo := MoveBranch(db2.repos[q.baseRepo], q.baseRef, m.mergeSha)]);
    var db4 := if db.repos[repo].settings.deleteOnMerge && q.headRef != q.baseRef
               then db3.(repos := db3.repos[q.headRepo := DropBranch(db3.repos[q.headRepo], q.headRef)]) else db3;
    db4.(repos := db4.repos[repo := AdjustOpenIssues(db4.repos[repo], -1)])
  }

  // ---------------------------------------------------------------- repositories

  function BumpPublicRepos(db: Db, owner: Owner, delta: int): Db {
    if owner in db.publicRepos
    then db.(publicRepos := db.publicRepos[owner := ClampedSum(db.publicRepos[owner], delta)]) else db
  }

  datatype NewRepo = NewRepo(fullName: string, owner: Owner, isPrivate: bool, defaultBranch: string, settings: Settings)

  /** The shas drawn for the README blob, its tree and the initial commit. */
  datatype InitialShas = InitialShas(blob: string, tree: string, commit: string)

  function EmptyRepo(n: NewRepo): Repo {
    Repo(n.fullName, n.owner, n.isPrivate, n.defaultBranch, n.settings, 0, Objects([], [], []), [], [], [], [], [])
  }

  function SeedInitialGit(r: Repo, shas: InitialShas, readme: string): Repo {
    r.(objects := Objects(r.objects.commits + [Commit(shas.commit, shas.tree, [], "Initial commit")],
                          r.objects.trees + [Tree(shas.tree, [Entry("README.md", BlobEntry, shas.blob)])],
                          r.objects.blobs + [Blob(shas.blob, readme)]),
       branches := r.branches + [Branch(r.defaultBranch, shas.commit)],
       refs := r.refs + [Ref(HEADS + r.defaultBranch, shas.commit)])
  }

  ghost predicate NameTaken(db: Db, fullName: string) {
    exists id :: id in db.repos && db.repos[id].fullName == fullName
  }

  ghost function CreateRepo(db: Db, n: NewRepo, init: Option<InitialShas>, readme: string): (Db, Outcome) {
    if NameTaken(db, n.fullName) then (db, Invalid)
    else
      var r := if init.Some? then SeedInitialGit(EmptyRepo(n), init.value, readme) else EmptyRepo(n);
      var db1 := db.(repos := db.repos[db.nextRepo := r], nextRepo := db.nextRepo + 1);
      (if n.isPrivate then db1 else BumpPublicRepos(db1, n.owner, 1), Done)
  }

  datatype Visibility = Public | Private | Internal
  datatype RepoPatch = RepoPatch(fullName: Option<string>, isPrivate: Option<bool>, visibility: Option<Visibility>,
                                 defaultBranch: Option<string>, settings: Settings)

  ghost function PatchRepo(db: Db, repo: int, p: RepoPatch): (Db, Outcome) {
    if repo !in db.repos then (db, NotFound)
    else if p.fullName.Some? && exists id :: id in db.repos && id != repo && db.repos[id].fullName == p.fullName.value
    then (db, Invalid)
    else
      var r := db.repos[repo];
      var nowPrivate := if p.visibility.Some? then p.visibility.value != Public else Keep(p.isPrivate, r.isPrivate);
      var r1 := r.(fullName := Keep(p.fullName, r.fullName), isPrivate := nowPrivate,
                   defaultBranch := Keep(p.defaultBranch, r.defaultBranch), settings := p.settings);
      var db1 := db.(repos := db.repos[repo := r1]);
      (if nowPrivate == r.isPrivate then db1 else BumpPublicRepos(db1, r.owner, if nowPrivate then -1 else 1), Done)
  }

  function DeleteRepo(db: Db, repo: int): (Db, Outcome) {
    if repo !in db.repos then (db, NotFound)
    else
      var r := db.repos[repo];
      var db1 := db.(repos := db.repos - {repo});
      (if r.isPrivate then db1 else BumpPublicRepos(db1, r.owner, -1), Done)
  }

  // ---------------------------------------------------------------- requests

  /** One request, with the values drawn for it: fresh shas, the clock, and for a merge across
      repositories the base repository's objects after the copy. */
  datatype Event =
    | CreateRepoEvent(newRepo: NewRepo, init: Option<InitialShas>, readme: string)
    | PatchRepoEvent(repo: int, repoPatch: RepoPatch)
    | DeleteRepoEvent(repo: int)
    | CreateRefEvent(repo: int, ref: string, sha: string)
    | PatchRefEvent(repo: int, ref: string, sha: string, force: bool)
    | DeleteRefEvent(repo: int, ref: string)
    | CreateIssueEvent(repo: int, title: string, body: Option<string>, assignees: Ids, labels: Ids)
    | PatchIssueEvent(repo: int, number: int, issuePatch: IssuePatch, now: int)
    | CreatePullEvent(repo: int, title: string, body: Option<string>, draft: bool,
                      headRepo: Option<int>, headRef: string, base: string)
    | PatchPullEvent(repo: int, number: int, pullPatch: PullPatch, now: int)
    | MergePullEvent(repo: int, request: MergeRequest, copied: Objects)
    | CreateCommentEvent(repo: int, number: int, text: string)
    | DeleteCommentEvent(repo: int, comment: int)

  function Store(db: Db, repo: int, result: (Repo, Outcome)): (Db, Outcome) {
    (db.(repos := db.repos[repo := result.0]), result.1)
  }

  /** The head branch of a new pull, looked up in the head repository. */
  function HeadBranch(db: Db, headRepo: Option<int>, headRef: string): Option<Branch> {
    if headRepo.None? || headRepo.value !in db.repos then None
    else
      var branches := db.repos[headRepo.value].branches;
      match Find(branches, BranchName, headRef)
      case None => None
      case Some(i) => Some(branches[i])
  }

  function AddComment(db: Db, id: int, number: int, text: string): (Db, Outcome)
    requires id in db.repos
  {
    var (db', o) := Store(db, id, CreateComment(db.repos[id], db.nextComment, number, text));
    (if o == Done then db'.(nextComment := db.nextComment + 1) else db', o)
  }

  function MergePull(db: Db, id: int, m: MergeRequest, copied: Objects): (Db, Outcome) {
    if MergeGuard(db, id, m) != Done then (db, MergeGuard(db, id, m))
    else
      var q := MergedPull(db, id, m);
      (MergeInto(db, id, m, if q.baseRepo == q.headRepo then db.repos[q.baseRepo].objects else copied), Done)
  }

  ghost function Apply(db: Db, e: Event): (Db, Outcome) {
    match e
    case CreateRepoEvent(n, init, readme) => CreateRepo(db, n, init, readme)
    case PatchRepoEvent(id, p) => PatchRepo(db, id, p)
    case DeleteRepoEvent(id) => DeleteRepo(db, id)
    case MergePullEvent(id, m, copied) => MergePull(db, id, m, copied)
    case CreateRefEvent(id, ref, sha) =>
      if id !in db.repos then (db, NotFound)
      else Store(db, id, CreateRef(db.repos[id], ref, sha))
    case PatchRefEvent(id, ref, sha, force) =>
      if id !in db.repos then (db, NotFound)
      else Store(db, id, PatchRef(db.repos[id], ref, sha, force))
    case DeleteRefEvent(id, ref) =>
      if id !in db.repos then (db, NotFound)
      else Store(db, id, DeleteRef(db.repos[id], ref))
    case CreateIssueEvent(id, title, body, assignees, labels) =>
      if id !in db.repos then (db, NotFound)
      else Store(db, id, CreateIssue(db.repos[id], title, body, assignees, labels))
    case PatchIssueEvent(id, number, p, now) =>
      if id !in db.repos then (db, NotFound)
      else Store(db, id, PatchIssue(db.repos[id], number, p, now))
    case CreatePullEvent(id, title, body, draft, headRepo, headRef, base) =>
      if id !in db.repos then (db, NotFound)
      else if headRepo.None? then (db, Invalid)
      else Store(db, id, CreatePull(db.repos[id], id, title, body, draft, headRepo.value, headRef,
                                    HeadBranch(db, headRepo, headRef), base))
    case PatchPullEvent(id, number, p, now) =>
      if id !in db.repos then (db, NotFound)
      else Store(db, id, PatchPull(db.repos[id], number, p, now))
    case CreateCommentEvent(id, number, text) =>
      if id !in db.repos then (db, NotFound)
      else AddComment(db, id, number, text)
    case DeleteCommentEvent(id, comment) =>
      if id !in db.repos then (db, NotFound)
      else Store(db, id, DeleteComment(db.repos[id], comment))
  }
}
