/** A run that loses history: two pulls are opened at the same commits, and the second one is merged after the first. */
module GitHubStalePull {
  import opened Tables
  import opened GitGraph
  import opened GitCopy
  import opened GitHubDb
  import opened GitHubRefLaws
  import opened GitHubTrackerEffects
  import opened GitHubRuns
  import opened GitHubMerges
  import opened GitHubHistory

  const FIRST := Commit("c1", "t", [], "Initial commit")
  const SECOND := Commit("c2", "t", ["c1"], "squashed")
  const README := Tree("t", [Entry("README.md", BlobEntry, "b")])
  const SETTINGS := Settings(true, true, true, true, false)
  const MAIN := "refs/heads/main"
  const SIDE := "refs/heads/side"

  // The requests.
  const NEW_REPO := CreateRepoEvent(NewRepo("octo/repo", User(1), false, "main", SETTINGS),
                                    Some(InitialShas("b", "t", "c1")), "# repo")
  const NEW_SIDE := CreateRefEvent(1, SIDE, "c1")
  const NEW_PULL := CreatePullEvent(1, "fix", None, false, Some(1), "side", "main")
  const SQUASH := MergeRequest(1, "", Squash, "c2", "squashed", 0)
  const MERGE := MergeRequest(2, "", MergeCommit, "c3", "merge", 0)
  const NOTHING := Objects([], [], [])
  const BEFORE := [NEW_REPO, NEW_SIDE, NEW_PULL, NEW_PULL, MergePullEvent(1, SQUASH, NOTHING)]
  const STALE := MergePullEvent(1, MERGE, NOTHING)

  // The states they lead through.
  const SEEDED := Repo("octo/repo", User(1), false, "main", SETTINGS, 0,
                       Objects([FIRST], [README], [Blob("b", "# repo")]),
                       [Branch("main", "c1")], [Ref(MAIN, "c1")], [], [], [])
  const FORKED := SEEDED.(branches := [Branch("main", "c1"), Branch("side", "c1")],
                          refs := [Ref(MAIN, "c1"), Ref(SIDE, "c1")])
  const ONE_PULL := FORKED.(issues := [OpenIssue(1)], pulls := [OpenPull(1)], openIssues := 1)
  const TWO_PULLS := FORKED.(issues := [OpenIssue(1), OpenIssue(2)], pulls := [OpenPull(1), OpenPull(2)],
                             openIssues := 2)
  const SQUASHED := TWO_PULLS.(objects := TWO_PULLS.objects.(commits := [FIRST, SECOND]),
                               branches := [Branch("main", "c2"), Branch("side", "c1")],
                               refs := [Ref(MAIN, "c2"), Ref(SIDE, "c1")],
                               issues := [OpenIssue(1).(state := Closed, closedAt := Some(0)), OpenIssue(2)],
                               pulls := [OpenPull(1).(merged := true, state := Closed, closedAt := Some(0)),
                                         OpenPull(2)],
                               openIssues := 1)
  const EMPTY := Db(map[], 1, 1, map[])

  function OpenIssue(n: int): Issue {
    Issue(n, "fix", None, Open, None, [], [], 0, true)
  }

  function OpenPull(n: int): Pull {
    Pull(n, "fix", None, Open, None, [], [], 0, 1, "side", "c1", 1, "main", "c1", false, false)
  }

  function With(r: Repo): Db {
    Db(map[1 := r], 2, 1, map[])
  }

  lemma NothingTaken()
    ensures !NameTaken(EMPTY, "octo/repo") && FreshSha(EMPTY, "b") && FreshSha(EMPTY, "t") && FreshSha(EMPTY, "c1")
  {
  }

  lemma RepoMade()
    ensures Supplied(EMPTY, NEW_REPO) && Apply(EMPTY, NEW_REPO).0 == With(SEEDED)
  {
    hide Index, NameTaken, FreshSha;
    NothingTaken();
    assert HEADS + "main" == MAIN;
    assert [] + [FIRST] == [FIRST] && [] + [README] == [README] && [] + [Blob("b", "# repo")] == [Blob("b", "# repo")];
    assert [] + [Branch("main", "c1")] == [Branch("main", "c1")] && [] + [Ref(MAIN, "c1")] == [Ref(MAIN, "c1")];
  }

  lemma SideMade()
    ensures Supplied(With(SEEDED), NEW_SIDE) && Apply(With(SEEDED), NEW_SIDE).0 == With(FORKED)
  {
    hide Index;
    assert "refs/" <= SIDE && HEADS <= SIDE && SIDE[|HEADS|..] == "side" && HEADS + "side" == SIDE;
    FindFirst(SEEDED.objects.commits, CommitSha, "c1", 0);
    var refs := SEEDED.refs + [Ref(SIDE, "c1")];
    FindFirst(refs, RefName, SIDE, 1);
    assert MAIN[11] == 'm' && SIDE[11] == 's';
    assert refs == FORKED.refs && SEEDED.branches + [Branch("side", "c1")] == FORKED.branches;
  }

  lemma PullMade(r: Repo)
    requires r.branches == FORKED.branches && NextIssueNumber(r) > 0 && r.openIssues >= 0
    ensures Supplied(With(r), NEW_PULL)
    ensures var n := NextIssueNumber(r);
            Apply(With(r), NEW_PULL).0 ==
              With(r.(issues := r.issues + [OpenIssue(n)], pulls := r.pulls + [OpenPull(n)],
                      openIssues := r.openIssues + 1))
  {
    hide NextIssueNumber;
    assert BranchName(r.branches[0]) == "main" && BranchName(r.branches[1]) == "side";
    FindFirst(r.branches, BranchName, "main", 0);
    FindFirst(r.branches, BranchName, "side", 1);
  }

  lemma Numbers()
    ensures NextIssueNumber(FORKED) == 1 && NextIssueNumber(ONE_PULL) == 2
  {
  }

  lemma PullsMade()
    ensures Supplied(With(FORKED), NEW_PULL) && Apply(With(FORKED), NEW_PULL).0 == With(ONE_PULL)
    ensures Supplied(With(ONE_PULL), NEW_PULL) && Apply(With(ONE_PULL), NEW_PULL).0 == With(TWO_PULLS)
  {
    hide NextIssueNumber, Apply, Supplied;
    Numbers();
    PullMade(FORKED);
    PullMade(ONE_PULL);
    assert [] + [OpenIssue(1)] == [OpenIssue(1)] && [] + [OpenPull(1)] == [OpenPull(1)];
    assert [OpenIssue(1)] + [OpenIssue(2)] == [OpenIssue(1), OpenIssue(2)];
    assert [OpenPull(1)] + [OpenPull(2)] == [OpenPull(1), OpenPull(2)];
  }

  /** Either pull may be merged while it is open: its commits are there. */
  lemma GuardPasses(r: Repo, m: MergeRequest, j: nat)
    requires |r.pulls| == 2 && j < 2 && r.pulls[j] == OpenPull(m.number) && (j == 1 ==> r.pulls[0].number != m.number)
    requires m.sha == "" && r.settings == SETTINGS && |r.objects.commits| > 0 && r.objects.commits[0] == FIRST
    ensures MergeGuard(With(r), 1, m) == Done && MergedPull(With(r), 1, m) == OpenPull(m.number)
    ensures NewCommit(With(r), 1, m)
            == Commit(m.mergeSha, "t", MergeParents(OpenPull(m.number), m.mergeMethod), m.message)
  {
    FindFirst(r.pulls, PullNumber, m.number, j);
    FindFirst(r.objects.commits, CommitSha, "c1", 0);
  }

  /** The shas in use while `main` has the given commits. */
  lemma ShasInUse(r: Repo, sha: string)
    requires r.objects.trees == [README] && r.objects.blobs == [Blob("b", "# repo")]
    requires sha != "" && sha != "t" && sha != "b"
    requires forall i :: 0 <= i < |r.objects.commits| ==> r.objects.commits[i].sha != sha
    ensures FreshSha(With(r), sha)
  {
    SingleRow(README, TreeSha);
    SingleRow(Blob("b", "# repo"), BlobSha);
    assert !HasKey(r.objects.commits, CommitSha, sha);
  }

  /** The squash merge closes the first pull and its issue, and moves `main` to its commit. */
  lemma FirstMergedRepo(o: Objects)
    requires o == SQUASHED.objects
    ensures MergedRepo(TWO_PULLS, SQUASH, OpenPull(1), o) == SQUASHED
  {
    var r := TWO_PULLS.(objects := o);
    FindFirst(r.pulls, PullNumber, 1, 0);
    var closed := ClosePull(r, 1, 0);
    assert closed == r.(issues := SQUASHED.issues, pulls := SQUASHED.pulls);
    FindFirst(closed.branches, BranchName, "main", 0);
    assert HEADS + "main" == MAIN;
    FindFirst(closed.refs, RefName, MAIN, 0);
  }

  lemma FirstMerged()
    ensures Supplied(With(TWO_PULLS), MergePullEvent(1, SQUASH, NOTHING))
    ensures Apply(With(TWO_PULLS), MergePullEvent(1, SQUASH, NOTHING)).0 == With(SQUASHED)
  {
    hide MergeGuard, Index, FreshSha, NewCommit, MergeInto, MergedRepo;
    GuardPasses(TWO_PULLS, SQUASH, 0);
    ShasInUse(TWO_PULLS, "c2");
    MergeShape(With(TWO_PULLS), 1, SQUASH, TWO_PULLS.objects);
    assert [FIRST] + [SECOND] == [FIRST, SECOND];
    FirstMergedRepo(WithCommit(TWO_PULLS.objects, SECOND));
  }

  lemma RunFrom(db: Db, e: Event, rest: seq<Event>)
    ensures Run(db, [e] + rest) == Run(Apply(db, e).0, rest)
    ensures RunSupplied(db, [e] + rest) <==> Supplied(db, e) && RunSupplied(Apply(db, e).0, rest)
  {
    hide Apply, Supplied;
    assert ([e] + rest)[1..] == rest;
  }

  lemma BeforeIsSupplied()
    ensures RunSupplied(EMPTY, BEFORE) && Run(EMPTY, BEFORE) == With(SQUASHED)
  {
    hide Supplied, Apply, Run, RunSupplied;
    RepoMade();
    SideMade();
    PullsMade();
    FirstMerged();
    RunFrom(EMPTY, NEW_REPO, BEFORE[1..]);
    RunFrom(With(SEEDED), NEW_SIDE, BEFORE[2..]);
    RunFrom(With(FORKED), NEW_PULL, BEFORE[3..]);
    RunFrom(With(ONE_PULL), NEW_PULL, BEFORE[4..]);
    RunFrom(With(TWO_PULLS), BEFORE[4], []);
    RunEnds(With(SQUASHED));
    forall i | 0 <= i < 5
      ensures BEFORE[i..] == [BEFORE[i]] + BEFORE[i + 1..]
    {
    }
    assert BEFORE[0..] == BEFORE && BEFORE[5..] == [];
  }

  lemma RunEnds(db: Db)
    ensures Run(db, []) == db && RunSupplied(db, [])
  {
  }

  lemma TwoRows<T>(a: T, b: T, key: T -> string)
    requires key(a) != key(b)
    ensures Index([a, b], key) == map[key(a) := a, key(b) := b]
  {
    SingleRow(a, key);
    IndexAppend([a], key, b);
    assert [a] + [b] == [a, b];
  }

  lemma SecondNotBehindFirst(g: CommitMap)
    requires g == map["c1" := FIRST, "c2" := SECOND]
    ensures !Reaches(g, "c1", "c2")
  {
    if Reaches(g, "c1", "c2") {
      ReachStaysInside(g, "c1", "c2", {"c1"});
    }
  }

  /** After the run `main` is at c2, and the open pull still records c1 as its base. The requests are all as a client
      may send them, and the last one, a merge that succeeds, drops c2 from the history of `main`. */
  lemma StalePullLosesHistory()
    ensures Initial(EMPTY) && RunSupplied(EMPTY, BEFORE) && Supplied(Run(EMPTY, BEFORE), STALE)
    ensures var db, (db', o) := Run(EMPTY, BEFORE), Apply(Run(EMPTY, BEFORE), STALE);
            && o == Done && 1 in db.repos && MAIN in RefTable(db.repos[1]) && 1 in db'.repos
              && MAIN in RefTable(db'.repos[1])
            && RefTable(db.repos[1])[MAIN].sha == "c2"
            && !HistoryKept(db.repos[1], db'.repos[1], MAIN)
  {
    hide DbOk, MergeGuard, MergeInto, Index, HistoryKept, Reaches, RunSupplied, Run, FreshSha, NewCommit, Copied,
         CreateRepo, PatchRepo, CreateRef, PatchRef, DeleteRef, CreatePull, AddComment;
    BeforeIsSupplied();
    ReachableIsOk(EMPTY, BEFORE);
    var db := With(SQUASHED);
    GuardPasses(SQUASHED, MERGE, 1);
    ShasInUse(SQUASHED, "c3");
    TwoRows(FIRST, SECOND, CommitSha);
    TwoRows(SQUASHED.refs[0], SQUASHED.refs[1], RefName);
    assert HEADS + "main" == MAIN;
    MergeIsForwardIff(db, 1, MERGE, NOTHING);
    SecondNotBehindFirst(Commits(SQUASHED.objects.commits));
  }
}
