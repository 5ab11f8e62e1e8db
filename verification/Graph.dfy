/** Finite directed graphs over names: table joins, foreign keys and fragment spreads. */
module Graph {

  /** A node maps to the set of nodes it depends on; a name outside the keys is undefined. */
  type Graph = map<string, set<string>>

  ghost predicate IsPath(g: Graph, path: seq<string>) {
    forall i :: 0 <= i < |path| - 1 ==> path[i] in g && path[i + 1] in g[path[i]]
  }

  /** A path whose last node already occurred on it. */
  ghost predicate IsLasso(g: Graph, path: seq<string>) {
    && |path| >= 2
    && IsPath(g, path)
    && path[|path| - 1] in path[..|path| - 1]
  }

  /** The node lies on a cycle or depends, directly or not, on a node that does. */
  ghost predicate ReachesCycle(g: Graph, n: string) {
    exists path :: IsLasso(g, path) && path[0] == n
  }

  ghost predicate Reaches(g: Graph, a: string, b: string) {
    exists path :: |path| >= 1 && IsPath(g, path) && path[0] == a && path[|path| - 1] == b
  }

  lemma ReachesStep(g: Graph, a: string, b: string, c: string)
    requires Reaches(g, a, b) && b in g && c in g[b]
    ensures Reaches(g, a, c)
  {
    var path :| |path| >= 1 && IsPath(g, path) && path[0] == a && path[|path| - 1] == b;
    assert IsPath(g, path + [c]);
  }

  lemma ReachesSelf(g: Graph, a: string)
    ensures Reaches(g, a, a)
  {
    assert IsPath(g, [a]);
  }

  /** A node that reaches a predecessor of itself lies on a cycle. */
  lemma BackEdgeMakesCycle(g: Graph, a: string, b: string)
    requires Reaches(g, a, b) && b in g && a in g[b]
    ensures ReachesCycle(g, a)
  {
    var path :| |path| >= 1 && IsPath(g, path) && path[0] == a && path[|path| - 1] == b;
    assert IsLasso(g, path + [a]) by { assert (path + [a])[0] == a; }
  }

  /** A set of nodes each of which has a successor inside the set hides a cycle. */
  lemma StuckReachesCycle(g: Graph, stuck: set<string>, n: string)
    requires n in stuck && stuck <= g.Keys
    requires forall m :: m in stuck ==> g[m] * stuck != {}
    ensures ReachesCycle(g, n)
  {
    ExtendToLasso(g, stuck, [n]);
  }

  lemma ExtendToLasso(g: Graph, stuck: set<string>, path: seq<string>)
    requires stuck <= g.Keys && path != []
    requires IsPath(g, path) && forall m :: m in path ==> m in stuck
    requires forall m :: m in stuck ==> g[m] * stuck != {}
    ensures ReachesCycle(g, path[0])
    decreases stuck - (set m | m in path)
  {
    var last := path[|path| - 1];
    var next :| next in g[last] * stuck;
    var longer := path + [next];
    assert IsPath(g, longer);
    if next in path {
      assert longer[..|longer| - 1] == path;
      assert IsLasso(g, longer);
    } else {
      assert next in stuck - (set m | m in path) && next in longer;
      assert forall m :: m in longer <==> m in path || m == next;
      ExtendToLasso(g, stuck, longer);
      assert longer[0] == path[0];
    }
  }

  /** Ranks that fall along every edge rule cycles out. */
  ghost predicate RanksFall(g: Graph, rank: map<string, nat>) {
    forall p, q :: p in rank && p in g && q in g[p] ==> q in rank && rank[q] < rank[p]
  }

  lemma RankedNoCycle(g: Graph, rank: map<string, nat>, n: string)
    requires n in rank && RanksFall(g, rank)
    ensures !ReachesCycle(g, n)
  {
    forall path | IsLasso(g, path) && path[0] == n
      ensures false
    {
      var i :| 0 <= i < |path| - 1 && path[i] == path[|path| - 1];
      RanksFallAlong(g, rank, path, 0, i);
      RanksFallAlong(g, rank, path, i, |path| - 1);
    }
  }

  lemma {:induction false} RanksFallAlong(g: Graph, rank: map<string, nat>, path: seq<string>, i: nat, k: nat)
    requires RanksFall(g, rank) && IsPath(g, path) && i <= k < |path| && path[i] in rank
    ensures path[k] in rank && rank[path[k]] <= rank[path[i]]
    ensures i < k ==> rank[path[k]] < rank[path[i]]
    decreases k - i
  {
    if i < k {
      RanksFallAlong(g, rank, path, i + 1, k);
    }
  }
}
