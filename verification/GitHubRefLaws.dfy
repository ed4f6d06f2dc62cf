/** Branches and `refs/heads/` refs are one table, and every ref names a stored commit. */
module GitHubRefLaws {
  import opened Tables
  import opened GitGraph
  import opened GitHubDb

  ghost function RefTable(r: Repo): map<string, Ref> { Index(r.refs, RefName) }
  ghost function BranchTable(r: Repo): map<string, Branch> { Index(r.branches, BranchName) }

  /** A branch b with sha s exists exactly when the ref refs/heads/b with sha s exists. */
  ghost predicate Mirror(b: map<string, Branch>, f: map<string, Ref>) {
    && (forall n :: n in b ==> HEADS + n in f && f[HEADS + n].sha == b[n].sha)
    && (forall n :: n in f && HEADS <= n ==> n[|HEADS|..] in b)
  }

  ghost predicate RefsOk(r: Repo) {
    && Unique(r.refs, RefName) && Unique(r.branches, BranchName)
    && Mirror(BranchTable(r), RefTable(r))
    && forall n :: n in RefTable(r) ==> RefTable(r)[n].sha in Commits(r.objects.commits)
  }

  lemma HeadNames(n: string, m: string)
    ensures HEADS <= HEADS + n && (HEADS + n)[|HEADS|..] == n
    ensures HEADS + n == HEADS + m ==> n == m
    ensures HEADS <= m ==> HEADS + m[|HEADS|..] == m
  {
    assert (HEADS + n)[|HEADS|..] == n;
    assert (HEADS + m)[|HEADS|..] == m;
  }

  /** Setting branch `n` and its ref to one sha keeps the two tables in step. */
  lemma MirrorSet(b: map<string, Branch>, f: map<string, Ref>, n: string, sha: string)
    requires Mirror(b, f)
    ensures Mirror(b[n := Branch(n, sha)], f[HEADS + n := Ref(HEADS + n, sha)])
  {
    forall m: string
      ensures HEADS + n == HEADS + m ==> n == m
    {
      HeadNames(n, m);
    }
    forall m: string | HEADS <= m
      ensures HEADS + m[|HEADS|..] == m
    {
      HeadNames(n, m);
    }
  }

  lemma MirrorDrop(b: map<string, Branch>, f: map<string, Ref>, n: string)
    requires Mirror(b, f)
    ensures Mirror(b - {n}, f - {HEADS + n})
  {
    forall m: string
      ensures HEADS + n == HEADS + m ==> n == m
    {
      HeadNames(n, m);
    }
    forall m: string | HEADS <= m
      ensures HEADS + m[|HEADS|..] == m
    {
      HeadNames(n, m);
    }
  }

  lemma MirrorOther(b: map<string, Branch>, f: map<string, Ref>, n: string)
    requires Mirror(b, f) && !(HEADS <= n)
    ensures forall sha :: Mirror(b, f[n := Ref(n, sha)])
    ensures Mirror(b, f - {n})
  {
    forall m: string
      ensures HEADS <= HEADS + m
    {
      HeadNames(m, m);
    }
  }

  /** What creating ref `n` (or moving it) leaves behind in both tables. */
  ghost predicate SetRefTables(r: Repo, r': Repo, n: string, sha: string) {
    && RefTable(r') == RefTable(r)[n := Ref(n, sha)]
    && BranchTable(r') == (if HEADS <= n then BranchTable(r)[n[|HEADS|..] := Branch(n[|HEADS|..], sha)]
                           else BranchTable(r))
    && r' == r.(refs := r'.refs, branches := r'.branches)
  }

  lemma SetKeepsRefsOk(r: Repo, r': Repo, n: string, sha: string)
    requires RefsOk(r) && SetRefTables(r, r', n, sha) && sha in Commits(r.objects.commits)
    requires Unique(r'.refs, RefName) && Unique(r'.branches, BranchName)
    ensures RefsOk(r')
  {
    if HEADS <= n {
      HeadNames(n[|HEADS|..], n);
      MirrorSet(BranchTable(r), RefTable(r), n[|HEADS|..], sha);
    } else {
      MirrorOther(BranchTable(r), RefTable(r), n);
    }
  }

  /** Once a ref is in place, syncing its branch sets exactly that branch and adds no second ref. */
  lemma SyncBranchLaw(r: Repo, n: string, sha: string)
    requires Unique(r.refs, RefName) && Unique(r.branches, BranchName) && n in RefTable(r)
    ensures var r' := SyncBranch(r, n, sha);
      && r' == r.(branches := r'.branches)
      && Unique(r'.branches, BranchName)
      && BranchTable(r') == (if HEADS <= n then BranchTable(r)[n[|HEADS|..] := Branch(n[|HEADS|..], sha)]
                             else BranchTable(r))
  {
    if HEADS <= n {
      var b := n[|HEADS|..];
      HeadNames(b, n);
      FindIsIndex(r.branches, BranchName, b);
      FindIsIndex(r.refs, RefName, n);
      match Find(r.branches, BranchName, b)
      case Some(i) => IndexUpdate(r.branches, BranchName, i, r.branches[i].(sha := sha));
      case None =>
        IndexAppend(r.branches, BranchName, Branch(b, sha));
        UniqueAppend(r.branches, BranchName, Branch(b, sha));
    }
  }

  lemma CreateRefLaw(r: Repo, n: string, sha: string)
    requires RefsOk(r)
    ensures CreateRef(r, n, sha).1 == Done <==>
            "refs/" <= n && sha != "" && sha in Commits(r.objects.commits) && n !in RefTable(r)
    ensures CreateRef(r, n, sha).1 != Done ==> CreateRef(r, n, sha).0 == r
    ensures CreateRef(r, n, sha).1 == Done ==> SetRefTables(r, CreateRef(r, n, sha).0, n, sha)
    ensures RefsOk(CreateRef(r, n, sha).0)
  {
    FindIsIndex(r.objects.commits, CommitSha, sha);
    FindIsIndex(r.refs, RefName, n);
    if CreateRef(r, n, sha).1 == Done {
      IndexAppend(r.refs, RefName, Ref(n, sha));
      UniqueAppend(r.refs, RefName, Ref(n, sha));
      SyncBranchLaw(r.(refs := r.refs + [Ref(n, sha)]), n, sha);
      SetKeepsRefsOk(r, CreateRef(r, n, sha).0, n, sha);
    }
  }

  /** A ref is moved exactly when it exists, the new commit exists, and the move is forced or forward. */
  lemma PatchRefLaw(r: Repo, param: string, sha: string, force: bool)
    requires RefsOk(r)
    ensures var n := FullRef(param);
      && (PatchRef(r, param, sha, force).1 == Done <==>
            n in RefTable(r) && sha != "" && sha in Commits(r.objects.commits)
            && (force || Reaches(Commits(r.objects.commits), sha, RefTable(r)[n].sha)))
      && (PatchRef(r, param, sha, force).1 != Done ==> PatchRef(r, param, sha, force).0 == r)
      && (PatchRef(r, param, sha, force).1 == Done ==> SetRefTables(r, PatchRef(r, param, sha, force).0, n, sha))
    ensures RefsOk(PatchRef(r, param, sha, force).0)
  {
    var n := FullRef(param);
    FindIsIndex(r.objects.commits, CommitSha, sha);
    FindIsIndex(r.refs, RefName, n);
    if n in RefTable(r) {
      FindIsIndex(r.objects.commits, CommitSha, RefTable(r)[n].sha);
    }
    if PatchRef(r, param, sha, force).1 == Done {
      var i := Find(r.refs, RefName, n).value;
      var row := r.refs[i].(sha := sha);
      IndexUpdate(r.refs, RefName, i, row);
      SyncBranchLaw(r.(refs := r.refs[i := row]), n, sha);
      SetKeepsRefsOk(r, PatchRef(r, param, sha, force).0, n, sha);
    }
  }

  ghost predicate DropRefTables(r: Repo, r': Repo, n: string) {
    && RefTable(r') == RefTable(r) - {n}
    && BranchTable(r') == (if HEADS <= n then BranchTable(r) - {n[|HEADS|..]} else BranchTable(r))
    && r' == r.(refs := r'.refs, branches := r'.branches)
  }

  lemma DropKeepsRefsOk(r: Repo, r': Repo, n: string)
    requires RefsOk(r) && DropRefTables(r, r', n)
    requires Unique(r'.refs, RefName) && Unique(r'.branches, BranchName)
    ensures RefsOk(r')
  {
    if HEADS <= n {
      HeadNames(n[|HEADS|..], n);
      MirrorDrop(BranchTable(r), RefTable(r), n[|HEADS|..]);
    } else {
      MirrorOther(BranchTable(r), RefTable(r), n);
    }
  }

  lemma DeleteRefLaw(r: Repo, param: string)
    requires RefsOk(r)
    ensures DeleteRef(r, param).1 == if FullRef(param) in RefTable(r) then Done else NotFound
    ensures FullRef(param) !in RefTable(r) ==> DeleteRef(r, param).0 == r
    ensures FullRef(param) in RefTable(r) ==> DropRefTables(r, DeleteRef(r, param).0, FullRef(param))
    ensures RefsOk(DeleteRef(r, param).0)
  {
    hide Index, Mirror, Find, Without;
    var n := FullRef(param);
    FindIsIndex(r.refs, RefName, n);
    if n in RefTable(r) {
      WithoutLaw(r.refs, RefName, n);
      if HEADS <= n {
        WithoutLaw(r.branches, BranchName, n[|HEADS|..]);
      }
      DropKeepsRefsOk(r, DeleteRef(r, param).0, n);
    }
  }

  /** Moving a branch moves the branch and its ref together, or does nothing when there is no such branch. */
  lemma MoveBranchLaw(r: Repo, b: string, sha: string)
    requires RefsOk(r) && sha in Commits(r.objects.commits)
    ensures b in BranchTable(r) ==> SetRefTables(r, MoveBranch(r, b, sha), HEADS + b, sha)
    ensures b !in BranchTable(r) ==> MoveBranch(r, b, sha) == r
    ensures RefsOk(MoveBranch(r, b, sha))
  {
    HeadNames(b, b);
    FindIsIndex(r.branches, BranchName, b);
    FindIsIndex(r.refs, RefName, HEADS + b);
    if b in BranchTable(r) {
      var i, j := Find(r.branches, BranchName, b).value, Find(r.refs, RefName, HEADS + b).value;
      IndexUpdate(r.branches, BranchName, i, r.branches[i].(sha := sha));
      IndexUpdate(r.refs, RefName, j, r.refs[j].(sha := sha));
      SetKeepsRefsOk(r, MoveBranch(r, b, sha), HEADS + b, sha);
    } else {
      assert HEADS + b !in RefTable(r);
    }
  }

  lemma DropBranchLaw(r: Repo, b: string)
    requires RefsOk(r)
    ensures DropRefTables(r, DropBranch(r, b), HEADS + b)
    ensures RefsOk(DropBranch(r, b))
  {
    HeadNames(b, b);
    WithoutLaw(r.branches, BranchName, b);
    WithoutLaw(r.refs, RefName, HEADS + b);
    DropKeepsRefsOk(r, DropBranch(r, b), HEADS + b);
  }
}
