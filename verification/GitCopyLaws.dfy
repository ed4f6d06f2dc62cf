/** What a finished copy guarantees about the target repository. */
module GitCopyLaws {
  import opened GitGraph
  import opened GitCopy

  /** A repository that holds everything its objects name. */
  ghost predicate SelfContained(g: Graph) {
    CommitsHold(g) && TreesHold(g)
  }

  ghost predicate CommitsHold(g: Graph) {
    && (forall k, p :: k in g.commits && p in g.commits[k].parents ==> p in g.commits)
    && (forall k :: k in g.commits ==> g.commits[k].tree in g.trees)
  }

  ghost predicate TreesHold(g: Graph) {
    && (forall k, b :: k in g.trees && NeedsBlob(g.trees[k], b) ==> b in g.blobs)
    && (forall k, d :: k in g.trees && NeedsTree(g.trees[k], d) ==> d in g.trees)
  }

  ghost predicate NoEmptySha(g: Graph) {
    "" !in g.commits && "" !in g.trees && "" !in g.blobs
  }

  ghost predicate AgreeOn<V>(m: map<string, V>, m': map<string, V>) {
    forall k :: k in m && k in m' ==> m[k] == m'[k]
  }

  /** Two repositories never store different objects under one sha. */
  ghost predicate Agree(g: Graph, g': Graph) {
    AgreeOn(g.commits, g'.commits) && AgreeOn(g.trees, g'.trees) && AgreeOn(g.blobs, g'.blobs)
  }

  ghost predicate TreeChain(trees: map<string, Tree>, path: seq<string>, from: string, to: string) {
    && |path| > 0 && path[0] == from && path[|path| - 1] == to
    && forall i :: 0 <= i < |path| - 1 ==> path[i] in trees && NeedsTree(trees[path[i]], path[i + 1])
  }

  /** `to` is `from` or a tree nested in it at any depth. */
  ghost predicate TreeReaches(trees: map<string, Tree>, from: string, to: string) {
    exists path :: TreeChain(trees, path, from, to)
  }

  /** The target has the commit of the source unchanged, its whole tree, and every blob of that tree. */
  ghost predicate HasCommitWhole(s: Graph, t: Graph, k: string)
    requires k in s.commits
  {
    && k in t.commits && t.commits[k] == s.commits[k]
    && (forall d :: d in s.trees && TreeReaches(s.trees, s.commits[k].tree, d) ==>
        d in t.trees && t.trees[d] == s.trees[d])
    && (forall d, b ::
          d in s.trees && TreeReaches(s.trees, s.commits[k].tree, d) && NeedsBlob(s.trees[d], b) && b in s.blobs ==>
          b in t.blobs && t.blobs[b] == s.blobs[b])
  }

  lemma {:induction false} TreesComeAlong(s: Graph, t: Graph, from: string, to: string)
    requires SelfContained(s) && SelfContained(t) && Agree(s, t)
    requires from in s.trees && from in t.trees && TreeReaches(s.trees, from, to)
    ensures to in s.trees && to in t.trees
  {
    var path :| TreeChain(s.trees, path, from, to);
    var i := 0;
    while i < |path| - 1
      invariant 0 <= i < |path| && path[i] in s.trees && path[i] in t.trees
    {
      assert NeedsTree(t.trees[path[i]], path[i + 1]);
      i := i + 1;
    }
  }

  /** A copy between self-contained repositories that agree ends self-contained and in agreement. */
  lemma CopyKeepsSelfContained(s: Graph, t: Graph, t': Graph, c: set<string>, seen: set<string>)
    requires SelfContained(s) && SelfContained(t) && Agree(s, t) && NoEmptySha(s)
    requires CommitsCopied(s, t, t', {}, c, {}, seen)
    ensures SelfContained(t') && Agree(s, t')
  {
    hide CommitsHold, TreesHold, Agree, TreesCopied;
    CopiedParentsHold(s, t, t', c, seen);
    CopiedTreesHold(s, t, t', seen);
    CopiedAgree(s, t, t', c, seen);
  }

  lemma CopiedParentsHold(s: Graph, t: Graph, t': Graph, c: set<string>, seen: set<string>)
    requires CommitsHold(s) && CommitsHold(t) && NoEmptySha(s)
    requires CommitsCopied(s, t, t', {}, c, {}, seen)
    ensures CommitsHold(t')
  {
    CopiedExtends(s, t, t', seen);
    hide TreesCopied;
    forall k, p | k in t'.commits && p in t'.commits[k].parents
      ensures p in t'.commits
    {
      if k in t.commits { assert p in t.commits; } else { assert p in s.commits; }
    }
    forall k | k in t'.commits
      ensures t'.commits[k].tree in t'.trees
    {
      if k in t.commits { assert t.commits[k].tree in t.trees; } else { assert s.commits[k].tree in s.trees; }
    }
  }

  lemma CopiedExtends(s: Graph, t: Graph, t': Graph, seen: set<string>)
    requires TreesCopied(s, t, t', {}, seen)
    ensures Extends(t.trees, t'.trees) && Extends(t.blobs, t'.blobs)
  {
  }

  lemma CopiedTreesHold(s: Graph, t: Graph, t': Graph, seen: set<string>)
    requires TreesHold(s) && TreesHold(t)
    requires TreesCopied(s, t, t', {}, seen) && NoEmptySha(s)
    ensures TreesHold(t')
  {
    forall k, b | k in t'.trees && NeedsBlob(t'.trees[k], b)
      ensures b in t'.blobs
    {
      if k in t.trees { assert b in t.blobs; } else { assert b in s.blobs; }
    }
    forall k, d | k in t'.trees && NeedsTree(t'.trees[k], d)
      ensures d in t'.trees
    {
      if k in t.trees { assert d in t.trees; } else { assert d in s.trees; }
    }
  }

  lemma CopiedAgree(s: Graph, t: Graph, t': Graph, c: set<string>, seen: set<string>)
    requires Agree(s, t) && CommitsCopied(s, t, t', {}, c, {}, seen)
    ensures Agree(s, t')
  {
  }

  lemma ArrivesWhole(s: Graph, t: Graph, k: string)
    requires SelfContained(s) && SelfContained(t) && Agree(s, t)
    requires k in s.commits && k in t.commits
    ensures HasCommitWhole(s, t, k)
  {
    forall d | d in s.trees && TreeReaches(s.trees, s.commits[k].tree, d)
      ensures d in t.trees
      ensures forall b :: NeedsBlob(s.trees[d], b) && b in s.blobs ==> b in t.blobs
    {
      TreesComeAlong(s, t, s.commits[k].tree, d);
      forall b | NeedsBlob(s.trees[d], b)
        ensures b in t.blobs
      {
        assert NeedsBlob(t.trees[d], b);
      }
    }
  }

  /** Everything reached from a commit both repositories have is whole in the second. */
  lemma {:induction false} SharedHistoryIsWhole(s: Graph, t: Graph, head: string)
    requires SelfContained(s) && SelfContained(t) && Agree(s, t)
    requires head in s.commits && head in t.commits
    ensures forall k :: Reaches(s.commits, head, k) ==> k in s.commits && HasCommitWhole(s, t, k)
  {
    var both := set k | k in s.commits && k in t.commits;
    forall k | Reaches(s.commits, head, k)
      ensures k in s.commits && HasCommitWhole(s, t, k)
    {
      ReachStaysInside(s.commits, head, k, both);
      ArrivesWhole(s, t, k);
    }
  }

  /** Completeness: all that the head commit reaches in the source is whole in the target afterwards,
      and what the target already held is unchanged. */
  lemma {:induction false} CopyIsComplete(s: Graph, t: Graph, t': Graph, c: set<string>, seen: set<string>,
                                          head: string)
    requires SelfContained(s) && SelfContained(t) && Agree(s, t) && NoEmptySha(s)
    requires CommitsCopied(s, t, t', {}, c, {}, seen)
    requires head in s.commits && head in t'.commits
    ensures SelfContained(t') && Agree(s, t')
    ensures Extends(t.commits, t'.commits) && Extends(t.trees, t'.trees) && Extends(t.blobs, t'.blobs)
    ensures forall k :: Reaches(s.commits, head, k) ==> k in s.commits && HasCommitWhole(s, t', k)
  {
    CopyKeepsSelfContained(s, t, t', c, seen);
    SharedHistoryIsWhole(s, t', head);
  }
}
