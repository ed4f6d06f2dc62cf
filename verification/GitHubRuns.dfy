/** What every request keeps, and so every run. */
module GitHubRuns {
  import opened Tables
  import opened GitGraph
  import opened GitCopy
  import opened GitCopyLaws
  import opened GitHubDb
  import opened GitHubRefLaws
  import opened GitHubTrackerLaws

  ghost predicate ObjectsOk(o: Objects) {
    NoDuplicates(o) && SelfContained(View(o)) && NoEmptySha(View(o))
  }

  ghost predicate RepoOk(r: Repo, id: int) {
    && ObjectsOk(r.objects) && RefsOk(r) && TrackerOk(r)
    && forall j :: 0 <= j < |r.pulls| ==> r.pulls[j].baseRepo == id
  }

  ghost predicate AllAgree(db: Db) {
    forall a, b :: a in db.repos && b in db.repos ==> Agree(View(db.repos[a].objects), View(db.repos[b].objects))
  }

  ghost function PublicOf(db: Db, o: Owner): set<int> {
    set id | id in db.repos && db.repos[id].owner == o && !db.repos[id].isPrivate
  }

  ghost predicate OwnersCounted(db: Db) {
    forall o :: o in db.publicRepos ==> db.publicRepos[o] == |PublicOf(db, o)|
  }

  ghost predicate IdsBelow(db: Db) {
    && (forall id :: id in db.repos ==> id < db.nextRepo)
    && (forall id, c :: id in db.repos && c in db.repos[id].comments ==> c.id < db.nextComment)
  }

  ghost predicate TablesOk(db: Db) {
    (forall id :: id in db.repos ==> RepoOk(db.repos[id], id)) && AllAgree(db) && IdsBelow(db)
  }

  /** The invariant of the service. */
  ghost predicate DbOk(db: Db) {
    TablesOk(db) && OwnersCounted(db)
  }

  ghost predicate FreshSha(db: Db, sha: string) {
    sha != "" && forall id :: id in db.repos ==>
      sha !in View(db.repos[id].objects).commits && sha !in View(db.repos[id].objects).trees
      && sha !in View(db.repos[id].objects).blobs
  }

  /** `t'` is what copying `head` from `s` into `t`, starting with nothing marked, leaves behind. */
  ghost predicate Copied(s: Objects, t: Objects, t': Objects, head: string) {
    && NoDuplicates(t') && (head in View(s).commits && head != "" ==> head in View(t').commits)
    && exists c, seen :: CommitsCopied(View(s), View(t), View(t'), {}, c, {}, seen)
  }

  /** The values drawn for a request are as their sources provide them. */
  ghost predicate Supplied(db: Db, e: Event) {
    match e
    case CreateRepoEvent(n, init, readme) =>
      init.Some? ==> FreshSha(db, init.value.blob) && FreshSha(db, init.value.tree) && FreshSha(db, init.value.commit)
    case MergePullEvent(id, m, copied) =>
      MergeGuard(db, id, m) == Done ==>
        FreshSha(db, m.mergeSha) &&
        var q := MergedPull(db, id, m);
        q.baseRepo != q.headRepo ==>
          Copied(db.repos[q.headRepo].objects, db.repos[q.baseRepo].objects, copied, q.headSha)
    case _ => true
  }

  ghost predicate Initial(db: Db) {
    db.repos == map[] && forall o :: o in db.publicRepos ==> db.publicRepos[o] == 0
  }

  // ---------------------------------------------------------------- requests inside one repository

  /** What a request inside one repository leaves alone. */
  ghost predicate SameOutside(r: Repo, r': Repo) {
    r'.objects == r.objects && r'.owner == r.owner && r'.isPrivate == r.isPrivate
  }

  lemma OwnersSame(db: Db, id: int, r': Repo)
    requires OwnersCounted(db) && id in db.repos
    requires r'.owner == db.repos[id].owner && r'.isPrivate == db.repos[id].isPrivate
    ensures OwnersCounted(db.(repos := db.repos[id := r']))
  {
    forall o | o in db.publicRepos
      ensures db.publicRepos[o] == |PublicOf(db.(repos := db.repos[id := r']), o)|
    {
      assert PublicOf(db.(repos := db.repos[id := r']), o) == PublicOf(db, o);
    }
  }

  lemma AgreeSame(db: Db, id: int, r': Repo)
    requires AllAgree(db) && id in db.repos && r'.objects == db.repos[id].objects
    ensures AllAgree(db.(repos := db.repos[id := r']))
  {
    hide Agree;
    var db' := db.(repos := db.repos[id := r']);
    assert forall a :: a in db'.repos ==> db'.repos[a].objects == db.repos[a].objects;
  }

  lemma AgreeRebuilt(db: Db, id: int, r': Repo)
    requires AllAgree(db) && id in db.repos
    requires forall a :: a in db.repos ==>
      Agree(View(r'.objects), View(db.repos[a].objects)) && Agree(View(db.repos[a].objects), View(r'.objects))
    ensures AllAgree(db.(repos := db.repos[id := r']))
  {
    hide Agree;
    AgreesWithItself(r'.objects);
  }

  lemma RepoReplaced(db: Db, id: int, r': Repo, nextComment: int)
    requires DbOk(db) && id in db.repos && RepoOk(r', id) && SameOutside(db.repos[id], r')
    requires nextComment >= db.nextComment && forall c :: c in r'.comments ==> c.id < nextComment
    ensures DbOk(db.(repos := db.repos[id := r'], nextComment := nextComment))
  {
    hide RepoOk, OwnersCounted, AllAgree;
    OwnersSame(db, id, r');
    AgreeSame(db, id, r');
    NextCommentFree(db.(repos := db.repos[id := r']), nextComment);
  }

  lemma NextCommentFree(db: Db, nextComment: int)
    ensures AllAgree(db) ==> AllAgree(db.(nextComment := nextComment))
    ensures OwnersCounted(db) ==> OwnersCounted(db.(nextComment := nextComment))
  {
    assert forall o :: PublicOf(db.(nextComment := nextComment), o) == PublicOf(db, o);
  }

  lemma RefsOkFrame(r: Repo, r': Repo)
    requires RefsOk(r) && r'.refs == r.refs && r'.branches == r.branches
    requires Extends(Commits(r.objects.commits), Commits(r'.objects.commits))
    ensures RefsOk(r')
  {
  }

  lemma TrackerOkFrame(r: Repo, r': Repo)
    requires TrackerOk(r) && r'.issues == r.issues && r'.pulls == r.pulls && r'.comments == r.comments
    requires r'.openIssues == r.openIssues
    ensures TrackerOk(r')
  {
  }

  lemma RefRequestOk(r: Repo, r': Repo, id: int)
    requires RepoOk(r, id) && RefsOk(r') && r' == r.(refs := r'.refs, branches := r'.branches)
    ensures RepoOk(r', id) && SameOutside(r, r')
  {
    TrackerOkFrame(r, r');
  }

  lemma TrackerRequestOk(r: Repo, r': Repo, id: int)
    requires RepoOk(r, id) && TrackerOk(r') && TrackerStep(r, r')
    requires forall j :: |r.pulls| <= j < |r'.pulls| ==> r'.pulls[j].baseRepo == id
    ensures RepoOk(r', id) && SameOutside(r, r')
  {
    RefsOkFrame(r, r');
  }

  lemma RefEventOk(db: Db, e: Event)
    requires DbOk(db) && (e.CreateRefEvent? || e.PatchRefEvent? || e.DeleteRefEvent?)
    ensures DbOk(Apply(db, e).0)
  {
    hide RefsOk, TrackerOk, ObjectsOk, AllAgree, OwnersCounted;
    if e.repo in db.repos {
      var r := db.repos[e.repo];
      var r' := Apply(db, e).0.repos[e.repo];
      match e {
        case CreateRefEvent(id, ref, sha) => CreateRefLaw(r, ref, sha);
        case PatchRefEvent(id, ref, sha, force) => PatchRefLaw(r, ref, sha, force);
        case DeleteRefEvent(id, ref) => DeleteRefLaw(r, ref);
      }
      RefRequestOk(r, r', e.repo);
      RepoReplaced(db, e.repo, r', db.nextComment);
    }
  }

  lemma IssueEventOk(db: Db, e: Event)
    requires DbOk(db) && (e.CreateIssueEvent? || e.PatchIssueEvent?)
    ensures DbOk(Apply(db, e).0)
  {
    hide RefsOk, TrackerOk, ObjectsOk, AllAgree, OwnersCounted;
    if e.repo in db.repos {
      var r := db.repos[e.repo];
      var r' := Apply(db, e).0.repos[e.repo];
      match e {
        case CreateIssueEvent(id, title, body, assignees, labels) => CreateIssueLaw(r, title, body, assignees, labels);
        case PatchIssueEvent(id, number, p, now) =>
          PatchIssueLaw(r, number, p, now);
          PatchIssueStep(r, number, p, now);
      }
      TrackerRequestOk(r, r', e.repo);
      RepoReplaced(db, e.repo, r', db.nextComment);
    }
  }

  lemma CreatePullEventOk(db: Db, e: Event)
    requires DbOk(db) && e.CreatePullEvent?
    ensures DbOk(Apply(db, e).0)
  {
    hide RefsOk, TrackerOk, ObjectsOk, AllAgree, OwnersCounted;
    if e.repo in db.repos && e.headRepo.Some? {
      var r := db.repos[e.repo];
      var head := HeadBranch(db, e.headRepo, e.headRef);
      var r' := CreatePull(r, e.repo, e.title, e.body, e.draft, e.headRepo.value, e.headRef, head, e.base).0;
      CreatePullLaw(r, e.repo, e.title, e.body, e.draft, e.headRepo.value, e.headRef, head, e.base);
      TrackerRequestOk(r, r', e.repo);
      assert r'.comments == r.comments;
      RepoReplaced(db, e.repo, r', db.nextComment);
    }
  }

  lemma PatchPullEventOk(db: Db, e: Event)
    requires DbOk(db) && e.PatchPullEvent?
    ensures DbOk(Apply(db, e).0)
  {
    hide RefsOk, TrackerOk, ObjectsOk, AllAgree, OwnersCounted;
    if e.repo in db.repos {
      var r := db.repos[e.repo];
      var r' := PatchPull(r, e.number, e.pullPatch, e.now).0;
      PatchPullLaw(r, e.number, e.pullPatch, e.now);
      PatchPullStep(r, e.number, e.pullPatch, e.now);
      TrackerRequestOk(r, r', e.repo);
      RepoReplaced(db, e.repo, r', db.nextComment);
    }
  }

  lemma CreateCommentEventOk(db: Db, e: Event)
    requires DbOk(db) && e.CreateCommentEvent?
    ensures DbOk(Apply(db, e).0)
  {
    hide RefsOk, TrackerOk, ObjectsOk, AllAgree, OwnersCounted;
    if e.repo in db.repos {
      var r := db.repos[e.repo];
      forall i | 0 <= i < |r.comments|
        ensures CommentId(r.comments[i]) != db.nextComment
      {
        assert r.comments[i] in r.comments;
      }
      var (r', o) := CreateComment(r, db.nextComment, e.number, e.text);
      CreateCommentLaw(r, db.nextComment, e.number, e.text);
      CreateCommentStep(r, db.nextComment, e.number, e.text);
      TrackerRequestOk(r, r', e.repo);
      if o == Done {
        RepoReplaced(db, e.repo, r', db.nextComment + 1);
      } else {
        RepoReplaced(db, e.repo, r', db.nextComment);
      }
    }
  }

  lemma DeleteCommentEventOk(db: Db, e: Event)
    requires DbOk(db) && e.DeleteCommentEvent?
    ensures DbOk(Apply(db, e).0)
  {
    hide RefsOk, TrackerOk, ObjectsOk, AllAgree, OwnersCounted;
    if e.repo in db.repos {
      var r := db.repos[e.repo];
      var r' := Apply(db, e).0.repos[e.repo];
      DeleteCommentLaw(r, e.comment);
      DeleteCommentStep(r, e.comment);
      TrackerRequestOk(r, r', e.repo);
      RepoReplaced(db, e.repo, r', db.nextComment);
    }
  }

  // ---------------------------------------------------------------- repositories come and go

  lemma BumpKeepsTables(db: Db, owner: Owner, delta: int)
    requires TablesOk(db)
    ensures TablesOk(BumpPublicRepos(db, owner, delta))
  {
    hide RepoOk, Agree;
  }

  lemma OwnerGains(db: Db, db1: Db, id: int, owner: Owner)
    requires OwnersCounted(db) && db1.publicRepos == db.publicRepos
    requires id !in PublicOf(db, owner)
    requires forall o :: PublicOf(db1, o) == if o == owner then PublicOf(db, o) + {id} else PublicOf(db, o)
    ensures OwnersCounted(BumpPublicRepos(db1, owner, 1))
  {
    var db2 := BumpPublicRepos(db1, owner, 1);
    assert forall o :: PublicOf(db2, o) == PublicOf(db1, o);
  }

  /** The decrement never meets the clamp: the repository itself was counted. */
  lemma OwnerLoses(db: Db, db1: Db, id: int, owner: Owner)
    requires OwnersCounted(db) && db1.publicRepos == db.publicRepos
    requires id in PublicOf(db, owner)
    requires forall o :: PublicOf(db1, o) == if o == owner then PublicOf(db, o) - {id} else PublicOf(db, o)
    ensures OwnersCounted(BumpPublicRepos(db1, owner, -1))
    ensures owner in db.publicRepos ==> db.publicRepos[owner] - 1 >= 0
  {
    var db2 := BumpPublicRepos(db1, owner, -1);
    assert forall o :: PublicOf(db2, o) == PublicOf(db1, o);
  }

  lemma DeleteRepoOk(db: Db, id: int)
    requires DbOk(db)
    ensures DbOk(DeleteRepo(db, id).0)
  {
    hide RepoOk, Agree;
    if id in db.repos {
      var r := db.repos[id];
      var db1 := db.(repos := db.repos - {id});
      assert TablesOk(db1);
      if r.isPrivate {
        assert forall o :: PublicOf(db1, o) == PublicOf(db, o);
      } else {
        OwnerLoses(db, db1, id, r.owner);
        BumpKeepsTables(db1, r.owner, -1);
      }
    }
  }

  lemma PatchedRepoOk(r: Repo, id: int, r': Repo)
    requires RepoOk(r, id)
    requires r' == r.(fullName := r'.fullName, isPrivate := r'.isPrivate, defaultBranch := r'.defaultBranch,
                      settings := r'.settings)
    ensures RepoOk(r', id)
  {
    RefsOkFrame(r, r');
    TrackerOkFrame(r, r');
  }

  lemma PatchRepoOk(db: Db, id: int, p: RepoPatch)
    requires DbOk(db)
    ensures DbOk(PatchRepo(db, id, p).0)
  {
    hide RepoOk, Agree, AllAgree, OwnersCounted;
    if PatchRepo(db, id, p).1 == Done {
      var r := db.repos[id];
      var r' := PatchRepo(db, id, p).0.repos[id];
      PatchedRepoOk(r, id, r');
      var db1 := db.(repos := db.repos[id := r']);
      AgreeSame(db, id, r');
      assert TablesOk(db1);
      if r'.isPrivate == r.isPrivate {
        OwnersSame(db, id, r');
      } else {
        VisibilityCounted(db, id, r');
        BumpKeepsTables(db1, r.owner, if r'.isPrivate then -1 else 1);
      }
    }
  }

  /** The owner's count follows one change of visibility. */
  lemma VisibilityCounted(db: Db, id: int, r': Repo)
    requires OwnersCounted(db) && id in db.repos && r'.owner == db.repos[id].owner
             && r'.isPrivate != db.repos[id].isPrivate
    ensures OwnersCounted(BumpPublicRepos(db.(repos := db.repos[id := r']), r'.owner, if r'.isPrivate then -1 else 1))
  {
    var db1 := db.(repos := db.repos[id := r']);
    if r'.isPrivate {
      OwnerLoses(db, db1, id, r'.owner);
    } else {
      OwnerGains(db, db1, id, r'.owner);
    }
  }

  lemma SingleRow<T>(row: T, key: T -> string)
    ensures Unique([row], key) && Index([row], key) == map[key(row) := row]
  {
    IndexAppend([], key, row);
    assert [] + [row] == [row];
  }

  lemma SeededObjects(shas: InitialShas, r: Repo, readme: string)
    requires r.objects == Objects([], [], [])
    ensures View(SeedInitialGit(r, shas, readme).objects) ==
            Graph(map[shas.commit := Commit(shas.commit, shas.tree, [], "Initial commit")],
                  map[shas.tree := Tree(shas.tree, [Entry("README.md", BlobEntry, shas.blob)])],
                  map[shas.blob := Blob(shas.blob, readme)])
    ensures NoDuplicates(SeedInitialGit(r, shas, readme).objects)
  {
    var o := SeedInitialGit(r, shas, readme).objects;
    SingleRow(o.commits[0], CommitSha);
    SingleRow(o.trees[0], TreeSha);
    SingleRow(o.blobs[0], BlobSha);
    assert o.commits == [o.commits[0]] && o.trees == [o.trees[0]] && o.blobs == [o.blobs[0]];
  }

  lemma SeededObjectsOk(shas: InitialShas, r: Repo, readme: string)
    requires r.objects == Objects([], [], [])
    requires shas.blob != "" && shas.tree != "" && shas.commit != ""
    ensures ObjectsOk(SeedInitialGit(r, shas, readme).objects)
  {
    hide Index, View, NoDuplicates, SeedInitialGit;
    SeededObjects(shas, r, readme);
    ReadmeGraph(shas, readme);
  }

  lemma ReadmeGraph(shas: InitialShas, readme: string)
    requires shas.blob != "" && shas.tree != "" && shas.commit != ""
    ensures var g := Graph(map[shas.commit := Commit(shas.commit, shas.tree, [], "Initial commit")],
                           map[shas.tree := Tree(shas.tree, [Entry("README.md", BlobEntry, shas.blob)])],
                           map[shas.blob := Blob(shas.blob, readme)]);
            SelfContained(g) && NoEmptySha(g)
  {
    var t := Tree(shas.tree, [Entry("README.md", BlobEntry, shas.blob)]);
    assert forall b :: NeedsBlob(t, b) ==> b == shas.blob;
    assert forall d :: !NeedsTree(t, d);
  }

  lemma SeededRefsOk(shas: InitialShas, r: Repo, readme: string)
    requires r.objects == Objects([], [], []) && r.refs == [] && r.branches == []
    ensures RefsOk(SeedInitialGit(r, shas, readme))
  {
    hide Index, Mirror, SelfContained, ObjectsOk, NoDuplicates;
    var b := r.defaultBranch;
    SeededObjects(shas, r, readme);
    SeededTables(shas, r, readme);
    EmptyMirror();
    MirrorSet(map[], map[], b, shas.commit);
    var bs, fs := map[b := Branch(b, shas.commit)], map[HEADS + b := Ref(HEADS + b, shas.commit)];
    assert bs == map[][b := Branch(b, shas.commit)] && fs == map[][HEADS + b := Ref(HEADS + b, shas.commit)];
  }

  lemma SeededTables(shas: InitialShas, r: Repo, readme: string)
    requires r.refs == [] && r.branches == []
    ensures var r', b := SeedInitialGit(r, shas, readme), r.defaultBranch;
            BranchTable(r') == map[b := Branch(b, shas.commit)]
              && RefTable(r') == map[HEADS + b := Ref(HEADS + b, shas.commit)]
            && Unique(r'.branches, BranchName) && Unique(r'.refs, RefName)
  {
    hide Index;
    var r', b := SeedInitialGit(r, shas, readme), r.defaultBranch;
    SingleRow(Branch(b, shas.commit), BranchName);
    SingleRow(Ref(HEADS + b, shas.commit), RefName);
    assert r'.branches == [Branch(b, shas.commit)] && r'.refs == [Ref(HEADS + b, shas.commit)];
  }

  lemma EmptyMirror()
    ensures Mirror(map[], map[])
  {
  }

  lemma NewRepoOk(n: NewRepo, init: Option<InitialShas>, readme: string, id: int)
    requires init.Some? ==> init.value.blob != "" && init.value.tree != "" && init.value.commit != ""
    ensures RepoOk(if init.Some? then SeedInitialGit(EmptyRepo(n), init.value, readme) else EmptyRepo(n), id)
  {
    hide ObjectsOk, RefsOk;
    if init.Some? {
      SeededObjectsOk(init.value, EmptyRepo(n), readme);
      SeededRefsOk(init.value, EmptyRepo(n), readme);
    } else {
      EmptyObjectsOk(EmptyRepo(n));
    }
  }

  lemma EmptyObjectsOk(r: Repo)
    requires r.objects == Objects([], [], []) && r.refs == [] && r.branches == []
    ensures ObjectsOk(r.objects) && RefsOk(r)
  {
  }

  lemma NewRepoAgrees(db: Db, n: NewRepo, init: Option<InitialShas>, readme: string, other: int)
    requires other in db.repos
    requires init.Some? ==>
      FreshSha(db, init.value.blob) && FreshSha(db, init.value.tree) && FreshSha(db, init.value.commit)
    ensures var r := if init.Some? then SeedInitialGit(EmptyRepo(n), init.value, readme) else EmptyRepo(n);
            Agree(View(r.objects), View(db.repos[other].objects))
              && Agree(View(db.repos[other].objects), View(r.objects))
  {
    if init.Some? {
      SeededObjects(init.value, EmptyRepo(n), readme);
    }
  }

  lemma RepoAdded(db: Db, r: Repo)
    requires TablesOk(db) && RepoOk(r, db.nextRepo) && r.comments == []
    requires forall a :: a in db.repos ==>
      Agree(View(r.objects), View(db.repos[a].objects)) && Agree(View(db.repos[a].objects), View(r.objects))
    ensures TablesOk(db.(repos := db.repos[db.nextRepo := r], nextRepo := db.nextRepo + 1))
  {
    hide RepoOk, Agree;
    AgreesWithItself(r.objects);
  }

  lemma PrivateAdded(db: Db, db1: Db, id: int, r: Repo, o: Owner)
    requires id !in db.repos && db1.repos == db.repos[id := r] && r.isPrivate
    ensures PublicOf(db1, o) == PublicOf(db, o)
  {
  }

  lemma OwnersAdd(db: Db, db1: Db, id: int, r: Repo)
    requires OwnersCounted(db) && id !in db.repos && db1.repos == db.repos[id := r] && db1.publicRepos == db.publicRepos
    ensures OwnersCounted(if r.isPrivate then db1 else BumpPublicRepos(db1, r.owner, 1))
  {
    if r.isPrivate {
      hide PublicOf;
      forall o | o in db1.publicRepos
        ensures PublicOf(db1, o) == PublicOf(db, o)
      {
        PrivateAdded(db, db1, id, r, o);
      }
    } else {
      OwnerGains(db, db1, id, r.owner);
    }
  }

  lemma CreateRepoOk(db: Db, n: NewRepo, init: Option<InitialShas>, readme: string)
    requires DbOk(db) && Supplied(db, CreateRepoEvent(n, init, readme))
    ensures DbOk(CreateRepo(db, n, init, readme).0)
  {
    hide RepoOk, Agree, SeedInitialGit, OwnersCounted, TablesOk;
    if CreateRepo(db, n, init, readme).1 == Done {
      var r := if init.Some? then SeedInitialGit(EmptyRepo(n), init.value, readme) else EmptyRepo(n);
      SeedFrame(n, init, readme);
      NewRepoOk(n, init, readme, db.nextRepo);
      forall a | a in db.repos
        ensures Agree(View(r.objects), View(db.repos[a].objects)) && Agree(View(db.repos[a].objects), View(r.objects))
      {
        NewRepoAgrees(db, n, init, readme, a);
      }
      RepoAdded(db, r);
      var db1 := db.(repos := db.repos[db.nextRepo := r], nextRepo := db.nextRepo + 1);
      NextRepoUnused(db);
      OwnersAdd(db, db1, db.nextRepo, r);
      BumpKeepsTables(db1, n.owner, 1);
    }
  }

  lemma NextRepoUnused(db: Db)
    requires TablesOk(db)
    ensures db.nextRepo !in db.repos
  {
    hide RepoOk, AllAgree;
  }

  lemma SeedFrame(n: NewRepo, init: Option<InitialShas>, readme: string)
    ensures var r := if init.Some? then SeedInitialGit(EmptyRepo(n), init.value, readme) else EmptyRepo(n);
            r.comments == [] && r.owner == n.owner && r.isPrivate == n.isPrivate
  {
  }

  lemma AgreesWithItself(o: Objects)
    ensures Agree(View(o), View(o))
  {
  }
}
