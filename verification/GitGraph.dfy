/** Git objects of one repository and reachability along parent links. */
module GitGraph {
  import opened Tables

  datatype Commit = Commit(sha: string, tree: string, parents: seq<string>, message: string)
  datatype EntryKind = BlobEntry | TreeEntry | OtherEntry
  datatype Entry = Entry(path: string, kind: EntryKind, sha: string)
  datatype Tree = Tree(sha: string, entries: seq<Entry>)
  datatype Blob = Blob(sha: string, content: string)

  function CommitSha(c: Commit): string { c.sha }
  function TreeSha(t: Tree): string { t.sha }
  function BlobSha(b: Blob): string { b.sha }

  type CommitMap = map<string, Commit>

  ghost function Commits(rows: seq<Commit>): CommitMap { Index(rows, CommitSha) }

  /** Each sha of the path is a commit of `g` that names the next one among its parents. */
  ghost predicate Chain(g: CommitMap, path: seq<string>) {
    |path| > 0 && forall i :: 0 <= i < |path| - 1 ==> path[i] in g && path[i + 1] in g[path[i]].parents
  }

  ghost predicate ChainFromTo(g: CommitMap, path: seq<string>, from: string, to: string) {
    Chain(g, path) && path[0] == from && path[|path| - 1] == to
  }

  /** `to` is met from `from` by zero or more parent links. */
  ghost predicate Reaches(g: CommitMap, from: string, to: string) {
    exists path :: ChainFromTo(g, path, from, to)
  }

  lemma ReachesSelf(g: CommitMap, sha: string)
    ensures Reaches(g, sha, sha)
  {
    assert ChainFromTo(g, [sha], sha, sha);
  }

  lemma ReachesParent(g: CommitMap, from: string, to: string, parent: string)
    requires Reaches(g, from, to) && to in g && parent in g[to].parents
    ensures Reaches(g, from, parent)
  {
    var path :| ChainFromTo(g, path, from, to);
    assert ChainFromTo(g, path + [parent], from, parent);
  }

  lemma {:induction false} ReachesTrans(g: CommitMap, a: string, b: string, c: string)
    requires Reaches(g, a, b) && Reaches(g, b, c)
    ensures Reaches(g, a, c)
  {
    var p :| ChainFromTo(g, p, a, b);
    var q :| ChainFromTo(g, q, b, c);
    var r := p + q[1..];
    assert r[|p| - 1] == q[0];
    assert forall i :: |p| - 1 <= i < |r| ==> r[i] == q[i - (|p| - 1)];
    assert ChainFromTo(g, r, a, c);
  }

  /** A set that holds `from` and is closed under parents holds all that is reached. */
  lemma {:induction false} ReachStaysInside(g: CommitMap, from: string, to: string, s: set<string>)
    requires Reaches(g, from, to) && from in s
    requires forall x, p :: x in s && x in g && p in g[x].parents ==> p in s
    ensures to in s
  {
    var path :| ChainFromTo(g, path, from, to);
    var i := 0;
    while i < |path| - 1
      invariant 0 <= i < |path| && path[i] in s
    {
      i := i + 1;
    }
  }

  ghost predicate Extends<K, V>(m: map<K, V>, m': map<K, V>) {
    forall k :: k in m ==> k in m' && m'[k] == m[k]
  }

  lemma ReachGrows(g: CommitMap, g': CommitMap, from: string, to: string)
    requires Extends(g, g') && Reaches(g, from, to)
    ensures Reaches(g', from, to)
  {
    var path :| ChainFromTo(g, path, from, to);
    assert ChainFromTo(g', path, from, to);
  }

  ghost function Mentioned(rows: seq<Commit>): set<string> {
    set c, p | c in rows && p in c.parents :: p
  }

  /** What the ancestor search keeps: all that was met is reachable, and what is finished is explored. */
  ghost predicate Searching(g: CommitMap, start: string, goal: string, seen: set<string>, stack: seq<string>) {
    && (forall x :: x in stack ==> Reaches(g, start, x))
    && goal !in seen
    && (start in seen || start in stack)
    && (forall x, p :: x in seen && x in g && p in g[x].parents ==> p in seen || p in stack)
  }

  lemma SearchSkips(g: CommitMap, start: string, goal: string, seen: set<string>, stack: seq<string>, sha: string)
    requires Searching(g, start, goal, seen, stack + [sha])
    requires sha in seen
    ensures Searching(g, start, goal, seen, stack)
  {
    assert forall x :: x in stack ==> x in stack + [sha];
  }

  lemma SearchExpands(g: CommitMap, start: string, goal: string, seen: set<string>, stack: seq<string>, sha: string,
                      parents: seq<string>)
    requires Searching(g, start, goal, seen, stack + [sha])
    requires sha != goal
    requires parents == if sha in g then g[sha].parents else []
    ensures Searching(g, start, goal, seen + {sha}, stack + parents)
  {
    assert sha in stack + [sha];
    forall x | x in stack + parents
      ensures Reaches(g, start, x)
    {
      if x in stack {
        assert x in stack + [sha];
      } else {
        ReachesParent(g, start, sha, x);
      }
    }
    forall x, p | x in seen + {sha} && x in g && p in g[x].parents
      ensures p in seen + {sha} || p in stack + parents
    {
      assert x in seen ==> p in seen || p in stack + [sha];
    }
  }

  lemma SearchEnds(g: CommitMap, start: string, goal: string, seen: set<string>)
    requires Searching(g, start, goal, seen, [])
    ensures !Reaches(g, start, goal)
  {
    if Reaches(g, start, goal) {
      ReachStaysInside(g, start, goal, seen);
    }
  }

  /** The explicit-stack ancestor search behind the fast-forward check. */
  method IsDescendantOf(rows: seq<Commit>, ancestor: string, descendant: string) returns (found: bool)
    ensures found <==> Reaches(Commits(rows), descendant, ancestor)
  {
    ghost var g := Commits(rows);
    ghost var universe := {descendant} + Mentioned(rows);
    var seen: set<string> := {};
    var stack := [descendant];
    ReachesSelf(g, descendant);
    while |stack| > 0
      invariant Searching(g, descendant, ancestor, seen, stack)
      invariant forall x :: x in stack ==> x in universe
      decreases universe - seen, |stack|
    {
      var sha := stack[|stack| - 1];
      assert sha in stack;
      assert stack == stack[..|stack| - 1] + [sha];
      stack := stack[..|stack| - 1];
      if sha == ancestor {
        return true;
      }
      if sha in seen {
        SearchSkips(g, descendant, ancestor, seen, stack, sha);
        continue;
      }
      FindIsIndex(rows, CommitSha, sha);
      var found := Find(rows, CommitSha, sha);
      var parents := if found.None? then [] else rows[found.value].parents;
      SearchExpands(g, descendant, ancestor, seen, stack, sha, parents);
      seen := seen + {sha};
      stack := stack + parents;
    }
    SearchEnds(g, descendant, ancestor, seen);
    return false;
  }
}
