/** Copying a commit with all it needs from one repository into another before a cross-repository merge. */
module GitCopy {
  import opened Tables
  import opened GitGraph

  /** The objects of one repository, each found under its sha. */
  datatype Graph = Graph(commits: CommitMap, trees: map<string, Tree>, blobs: map<string, Blob>)

  /** The rows one repository has in the Commits, Trees and Blobs collections. */
  datatype Objects = Objects(commits: seq<Commit>, trees: seq<Tree>, blobs: seq<Blob>)

  ghost function View(o: Objects): Graph {
    Graph(Commits(o.commits), Index(o.trees, TreeSha), Index(o.blobs, BlobSha))
  }

  /** No sha is stored twice in the repository. */
  ghost predicate NoDuplicates(o: Objects) {
    Unique(o.commits, CommitSha) && Unique(o.trees, TreeSha) && Unique(o.blobs, BlobSha)
  }

  /** A tree needs the named blobs and trees; other entry kinds and empty shas are skipped. */
  ghost predicate NeedsBlob(t: Tree, sha: string) {
    sha != "" && exists e :: e in t.entries && e.kind.BlobEntry? && e.sha == sha
  }

  ghost predicate NeedsTree(t: Tree, sha: string) {
    sha != "" && exists e :: e in t.entries && e.kind.TreeEntry? && e.sha == sha
  }

  /** `m'` holds `m` unchanged, and whatever else it holds is as in the source `s`. */
  ghost predicate CopiesFrom<V>(s: map<string, V>, m: map<string, V>, m': map<string, V>) {
    Extends(m, m') && forall k :: k in m' && k !in m ==> k in s && m'[k] == s[k]
  }

  /** What tree copying does between two moments. Trees marked `seen` at the first moment may be
      unfinished; every tree marked since is there at the second. */
  ghost predicate TreesCopied(s: Graph, t: Graph, t': Graph, seen: set<string>, seen': set<string>) {
    && CopiesFrom(s.trees, t.trees, t'.trees)
    && CopiesFrom(s.blobs, t.blobs, t'.blobs)
    && seen <= seen'
    && (forall k :: k in t'.trees && k !in t.trees ==> k in seen' && k !in seen)
    && (forall k :: k in seen' && k !in seen && k in s.trees ==> k in t'.trees)
    && (forall k, b :: k in t'.trees && k !in t.trees && NeedsBlob(t'.trees[k], b) && b in s.blobs ==> b in t'.blobs)
    && (forall k, d :: k in t'.trees && k !in t.trees && NeedsTree(t'.trees[k], d) && d in s.trees ==>
          d in t'.trees || d in seen)
  }

  lemma TreesCopiedTrans(s: Graph, t0: Graph, t1: Graph, t2: Graph, s0: set<string>, s1: set<string>, s2: set<string>)
    requires TreesCopied(s, t0, t1, s0, s1) && TreesCopied(s, t1, t2, s1, s2)
    ensures TreesCopied(s, t0, t2, s0, s2)
  {
  }

  /** The first `n` entries of a tree have been dealt with. */
  ghost predicate EntriesDone(s: Graph, t: Graph, seen: set<string>, entries: seq<Entry>, n: nat)
    requires n <= |entries|
  {
    forall i :: 0 <= i < n ==> EntryHandled(s, t, seen, entries[i])
  }

  /** One entry is dealt with: a blob is copied, a tree is copied or was already marked. */
  ghost predicate EntryHandled(s: Graph, t: Graph, seen: set<string>, e: Entry) {
    e.sha != "" ==>
      (e.kind.BlobEntry? && e.sha in s.blobs ==> e.sha in t.blobs) &&
      (e.kind.TreeEntry? && e.sha in s.trees ==> e.sha in t.trees || e.sha in seen)
  }

  lemma EntryStep(s: Graph, t: Graph, t1: Graph, t2: Graph, seen: set<string>, seen1: set<string>, seen2: set<string>,
                  entries: seq<Entry>, n: nat)
    requires n < |entries|
    requires TreesCopied(s, t, t1, seen, seen1) && TreesCopied(s, t1, t2, seen1, seen2)
    requires EntriesDone(s, t1, seen, entries, n)
    requires EntryHandled(s, t2, seen1, entries[n])
    ensures TreesCopied(s, t, t2, seen, seen2)
    ensures EntriesDone(s, t2, seen, entries, n + 1)
  {
    TreesCopiedTrans(s, t, t1, t2, seen, seen1, seen2);
  }

  lemma TreeFinished(s: Graph, t: Graph, t1: Graph, t': Graph, seen: set<string>, seen1: set<string>, sha: string)
    requires sha in s.trees && sha !in seen && sha !in t.trees
    requires TreesCopied(s, t, t1, seen + {sha}, seen1)
    requires EntriesDone(s, t1, seen + {sha}, s.trees[sha].entries, |s.trees[sha].entries|)
    requires t' == t1.(trees := t1.trees[sha := s.trees[sha]])
    ensures sha !in t1.trees
    ensures TreesCopied(s, t, t', seen, seen1)
  {
  }

  lemma NothingCopied(s: Graph, t: Graph, seen: set<string>)
    ensures TreesCopied(s, t, t, seen, seen)
  {
  }

  /** What commit copying does between two moments; at commit level no tree is left unfinished. */
  ghost predicate CommitsCopied(s: Graph, t: Graph, t': Graph, c: set<string>, c': set<string>,
                                seen: set<string>, seen': set<string>) {
    && TreesCopied(s, t, t', seen, seen')
    && CopiesFrom(s.commits, t.commits, t'.commits)
    && c <= c'
    && (forall k :: k in t'.commits && k !in t.commits ==> k in c' && k !in c)
    && (forall k :: k in c' && k !in c && k in s.commits ==> k in t'.commits)
    && (forall k, p :: k in t'.commits && k !in t.commits && p in t'.commits[k].parents && p != "" && p in s.commits ==>
          p in t'.commits || p in c)
    && (forall k :: k in t'.commits && k !in t.commits && t'.commits[k].tree != "" && t'.commits[k].tree in s.trees ==>
          t'.commits[k].tree in t'.trees)
  }

  /** Every marked tree of the source is present. */
  ghost predicate TreesSettled(s: Graph, t: Graph, seen: set<string>) {
    forall k :: k in seen && k in s.trees ==> k in t.trees
  }

  lemma CommitsCopiedTrans(s: Graph, t0: Graph, t1: Graph, t2: Graph, c0: set<string>, c1: set<string>, c2: set<string>,
                           s0: set<string>, s1: set<string>, s2: set<string>)
    requires CommitsCopied(s, t0, t1, c0, c1, s0, s1) && CommitsCopied(s, t1, t2, c1, c2, s1, s2)
    ensures CommitsCopied(s, t0, t2, c0, c2, s0, s2)
  {
    TreesCopiedTrans(s, t0, t1, t2, s0, s1, s2);
  }

  ghost predicate ParentsDone(s: Graph, t: Graph, c: set<string>, parents: seq<string>, n: nat)
    requires n <= |parents|
  {
    forall i :: 0 <= i < n && parents[i] != "" && parents[i] in s.commits ==> parents[i] in t.commits || parents[i] in c
  }

  lemma ParentStep(s: Graph, t: Graph, t1: Graph, t2: Graph, c: set<string>, c1: set<string>, c2: set<string>,
                   seen: set<string>, seen1: set<string>, seen2: set<string>, parents: seq<string>, n: nat)
    requires n < |parents|
    requires CommitsCopied(s, t, t1, c, c1, seen, seen1) && CommitsCopied(s, t1, t2, c1, c2, seen1, seen2)
    requires ParentsDone(s, t1, c, parents, n)
    requires parents[n] != "" && parents[n] in s.commits ==> parents[n] in t2.commits || parents[n] in c1
    ensures CommitsCopied(s, t, t2, c, c2, seen, seen2)
    ensures ParentsDone(s, t2, c, parents, n + 1)
  {
    CommitsCopiedTrans(s, t, t1, t2, c, c1, c2, seen, seen1, seen2);
  }

  lemma CommitFinished(s: Graph, t: Graph, t1: Graph, t2: Graph, t': Graph, c: set<string>, c1: set<string>,
                       seen: set<string>, seen1: set<string>, seen2: set<string>, sha: string)
    requires sha in s.commits && sha !in c && sha !in t.commits
    requires CommitsCopied(s, t, t1, c + {sha}, c1, seen, seen1)
    requires ParentsDone(s, t1, c + {sha}, s.commits[sha].parents, |s.commits[sha].parents|)
    requires TreesSettled(s, t1, seen1)
    requires t2.commits == t1.commits && TreesCopied(s, t1, t2, seen1, seen2)
    requires s.commits[sha].tree != "" && s.commits[sha].tree in s.trees ==>
               s.commits[sha].tree in t2.trees || s.commits[sha].tree in seen1
    requires t' == t2.(commits := t2.commits[sha := s.commits[sha]])
    ensures sha !in t1.commits
    ensures CommitsCopied(s, t, t', c, c1, seen, seen2)
    ensures TreesSettled(s, t', seen2)
  {
    TreesCopiedTrans(s, t, t1, t2, seen, seen1, seen2);
    assert forall p :: p in s.commits[sha].parents && p != "" && p in s.commits ==> p in t'.commits || p in c by {
      forall p | p in s.commits[sha].parents && p != "" && p in s.commits
        ensures p in t'.commits || p in c
      {
        var i :| 0 <= i < |s.commits[sha].parents| && s.commits[sha].parents[i] == p;
      }
    }
  }

  /** The marks of one traversal: a map passed by reference down the recursion. */
  class Marks {
    var shas: set<string>

    constructor ()
      ensures shas == {}
    {
      shas := {};
    }
  }

  /** The target repository of a copy, filled in place. */
  class ObjectRows {
    var commits: seq<Commit>
    var trees: seq<Tree>
    var blobs: seq<Blob>

    constructor (o: Objects)
      ensures Value() == o
    {
      commits, trees, blobs := o.commits, o.trees, o.blobs;
    }

    function Value(): Objects
      reads this
    {
      Objects(commits, trees, blobs)
    }

    method MaterializeBlob(source: Objects, sha: string)
      requires NoDuplicates(Value())
      modifies this`blobs
      ensures NoDuplicates(Value())
      ensures CopiesFrom(View(source).blobs, old(View(Value()).blobs), View(Value()).blobs)
      ensures sha != "" && sha in View(source).blobs ==> sha in View(Value()).blobs
    {
      FindIsIndex(blobs, BlobSha, sha);
      if sha == "" || Find(blobs, BlobSha, sha).Some? {
        return;
      }
      FindIsIndex(source.blobs, BlobSha, sha);
      match Find(source.blobs, BlobSha, sha)
      case None =>
      case Some(i) =>
        var row := source.blobs[i];
        IndexAppend(blobs, BlobSha, row);
        UniqueAppend(blobs, BlobSha, row);
        blobs := blobs + [row];
    }

    method MaterializeTree(source: Objects, sha: string, seen: Marks)
      requires NoDuplicates(Value())
      modifies this`trees, this`blobs, seen
      ensures NoDuplicates(Value())
      ensures TreesCopied(View(source), old(View(Value())), View(Value()), old(seen.shas), seen.shas)
      ensures sha != "" && sha in View(source).trees ==> sha in View(Value()).trees || sha in old(seen.shas)
      decreases View(source).trees.Keys - seen.shas
    {
      hide HasKey, Index;
      FindIsIndex(trees, TreeSha, sha);
      if sha == "" || sha in seen.shas || Find(trees, TreeSha, sha).Some? {
        return;
      }
      ghost var s, t, marked := View(source), View(Value()), seen.shas;
      seen.shas := seen.shas + {sha};
      FindIsIndex(source.trees, TreeSha, sha);
      var found := Find(source.trees, TreeSha, sha);
      if found.None? {
        return;
      }
      var row := source.trees[found.value];
      var entries := row.entries;
      for i := 0 to |entries|
        invariant NoDuplicates(Value())
        invariant TreesCopied(s, t, View(Value()), marked + {sha}, seen.shas)
        invariant EntriesDone(s, View(Value()), marked + {sha}, entries, i)
      {
        ghost var t1, marked1 := View(Value()), seen.shas;
        match entries[i].kind {
          case BlobEntry =>
            MaterializeBlob(source, entries[i].sha);
          case TreeEntry =>
            MaterializeTree(source, entries[i].sha, seen);
          case OtherEntry =>
        }
        EntryStep(s, t, t1, View(Value()), marked + {sha}, marked1, seen.shas, entries, i);
      }
      ghost var t1 := View(Value());
      TreeFinished(s, t, t1, t1.(trees := t1.trees[sha := row]), marked, seen.shas, sha);
      IndexAppend(trees, TreeSha, row);
      UniqueAppend(trees, TreeSha, row);
      trees := trees + [row];
    }

    method MaterializeCommitGraph(source: Objects, sha: string, seenCommits: Marks, seenTrees: Marks)
      requires seenCommits != seenTrees
      requires NoDuplicates(Value())
      requires TreesSettled(View(source), View(Value()), seenTrees.shas)
      modifies this, seenCommits, seenTrees
      ensures NoDuplicates(Value())
      ensures TreesSettled(View(source), View(Value()), seenTrees.shas)
      ensures CommitsCopied(View(source), old(View(Value())), View(Value()), old(seenCommits.shas), seenCommits.shas,
                            old(seenTrees.shas), seenTrees.shas)
      ensures sha != "" && sha in View(source).commits ==> sha in View(Value()).commits || sha in old(seenCommits.shas)
      decreases View(source).commits.Keys - seenCommits.shas
    {
      hide HasKey, TreesCopied, Index;
      NothingCopied(View(source), View(Value()), seenTrees.shas);
      FindIsIndex(commits, CommitSha, sha);
      if sha == "" || sha in seenCommits.shas || Find(commits, CommitSha, sha).Some? {
        return;
      }
      ghost var s, t, marked, treesMarked := View(source), View(Value()), seenCommits.shas, seenTrees.shas;
      seenCommits.shas := seenCommits.shas + {sha};
      FindIsIndex(source.commits, CommitSha, sha);
      var found := Find(source.commits, CommitSha, sha);
      if found.None? {
        return;
      }
      var row := source.commits[found.value];
      var parents := row.parents;
      for i := 0 to |parents|
        invariant NoDuplicates(Value())
        invariant TreesSettled(s, View(Value()), seenTrees.shas)
        invariant CommitsCopied(s, t, View(Value()), marked + {sha}, seenCommits.shas, treesMarked, seenTrees.shas)
        invariant ParentsDone(s, View(Value()), marked + {sha}, parents, i)
      {
        ghost var t1, marked1, treesMarked1 := View(Value()), seenCommits.shas, seenTrees.shas;
        MaterializeCommitGraph(source, parents[i], seenCommits, seenTrees);
        ParentStep(s, t, t1, View(Value()), marked + {sha}, marked1, seenCommits.shas,
                   treesMarked, treesMarked1, seenTrees.shas, parents, i);
      }
      ghost var t1, treesMarked1 := View(Value()), seenTrees.shas;
      MaterializeTree(source, row.tree, seenTrees);
      ghost var t2 := View(Value());
      CommitFinished(s, t, t1, t2, t2.(commits := t2.commits[sha := row]), marked, seenCommits.shas,
                     treesMarked, treesMarked1, seenTrees.shas, sha);
      IndexAppend(commits, CommitSha, row);
      UniqueAppend(commits, CommitSha, row);
      commits := commits + [row];
    }
  }
}
