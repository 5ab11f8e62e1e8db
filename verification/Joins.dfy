/** The join graph of one user query and the order in which its edges are joined. */
module Joins {
  import opened Common
  import opened Graph

  datatype JoinCondition = JoinCondition(
    referencingTable: string,
    referencingCol: string,
    primaryTable: string,
    primaryCol: string)

  datatype QueryJoinNode = QueryJoinNode(
    dependencies: map<string, JoinCondition>,
    dependents: map<string, JoinCondition>)

  type JoinMap = map<string, QueryJoinNode>

  /** The referencing table r has a recorded foreign key into the primary table p. */
  predicate HasEdge(joins: JoinMap, r: string, p: string) {
    r in joins && p in joins[r].dependencies
  }

  /** Every edge is stored twice, once at each end, under the same condition. */
  ghost predicate Mirrored(joins: JoinMap) {
    && (forall r, p {:trigger HasEdge(joins, r, p)} :: HasEdge(joins, r, p) ==>
          && p in joins && r in joins[p].dependents
          && joins[p].dependents[r] == joins[r].dependencies[p]
          && joins[r].dependencies[p].referencingTable == r
          && joins[r].dependencies[p].primaryTable == p)
    && (forall r, p {:trigger r in joins[p].dependents} :: p in joins && r in joins[p].dependents ==> HasEdge(joins, r, p))
  }

  ghost function DependencyGraph(joins: JoinMap): Graph {
    map n | n in joins :: joins[n].dependencies.Keys
  }

  /** The condition is one of the edges of the join graph. */
  ghost predicate IsEdge(joins: JoinMap, c: JoinCondition) {
    HasEdge(joins, c.referencingTable, c.primaryTable)
    && c == joins[c.referencingTable].dependencies[c.primaryTable]
  }

  /** Every table is joined before the first condition that refers to it. */
  ghost predicate PrimariesFirst(sorted: seq<JoinCondition>) {
    forall i, k :: 0 <= i < |sorted| && 0 <= k < |sorted| && sorted[i].referencingTable == sorted[k].primaryTable ==> k < i
  }

  /** Conditions with one primary table are neighbours. */
  ghost predicate Grouped(sorted: seq<JoinCondition>) {
    forall i, j, k :: 0 <= i < j < k < |sorted| && sorted[i].primaryTable == sorted[k].primaryTable ==>
      sorted[j].primaryTable == sorted[i].primaryTable
  }

  /** What sorting promises about a join map. */
  ghost predicate IsJoinOrder(joins: JoinMap, sorted: seq<JoinCondition>) {
    && (forall c :: c in sorted ==> IsEdge(joins, c))
    && Distinct(sorted)
    && Grouped(sorted)
    && PrimariesFirst(sorted)
    && (forall r, p {:trigger HasEdge(joins, r, p)} :: HasEdge(joins, r, p) ==>
          (joins[r].dependencies[p] in sorted <==> !ReachesCycle(DependencyGraph(joins), p)))
  }

  /** Ranks number the popped tables from zero, each rank used once. */
  ghost predicate RanksCount(rank: map<string, nat>) {
    && (forall p :: p in rank ==> rank[p] < |rank|)
    && (forall p, q :: p in rank && q in rank && rank[p] == rank[q] ==> p == q)
  }

  /** The edges left in the map: those whose primary table was not popped, and those still in `todo`. */
  ghost predicate Remaining(original: JoinMap, joins: JoinMap, popped: set<string>, current: string, todo: set<string>) {
    forall r, p {:trigger HasEdge(joins, r, p)} {:trigger HasEdge(original, r, p)} ::
      && (HasEdge(joins, r, p) <==> HasEdge(original, r, p) && (p !in popped || (p == current && r in todo)))
      && (HasEdge(joins, r, p) ==> joins[r].dependencies[p] == original[r].dependencies[p])
  }

  /** The tables popped so far, ranked by when they were popped, against the shrinking map;
      the tables in `todo` still hold the edge into `current`, the one popped last. */
  ghost predicate Progress(original: JoinMap, joins: JoinMap, rank: map<string, nat>, current: string, todo: set<string>) {
    && joins.Keys == original.Keys
    && rank.Keys <= original.Keys
    && (forall n :: n in joins ==> joins[n].dependents == original[n].dependents)
    && Remaining(original, joins, rank.Keys, current, todo)
    && RanksCount(rank)
    && RanksFall(DependencyGraph(original), rank)
  }

  /** The edges emitted so far, in pop order of their primary tables. */
  ghost predicate Emitted(original: JoinMap, rank: map<string, nat>, current: string, todo: set<string>, emitted: seq<JoinCondition>) {
    && (forall c :: c in emitted ==>
          IsEdge(original, c) && c.primaryTable in rank && !(c.primaryTable == current && c.referencingTable in todo))
    && Distinct(emitted)
    && RanksRise(rank, emitted)
    && (forall r, p {:trigger HasEdge(original, r, p)} :: HasEdge(original, r, p) && p in rank && !(p == current && r in todo) ==>
          original[r].dependencies[p] in emitted)
  }

  /** Pending start tables: exactly the tables without unmet dependencies that were not popped yet. */
  ghost predicate Pending(joins: JoinMap, rank: map<string, nat>, start: seq<string>) {
    && Distinct(start)
    && (forall n :: n in start ==> n in joins && n !in rank && joins[n].dependencies == map[])
    && (forall n :: n in joins && n !in rank && joins[n].dependencies == map[] ==> n in start)
  }

  /** The join map after `dependent` gives up its dependency on `current`. */
  function Release(joins: JoinMap, dependent: string, current: string): JoinMap
    requires dependent in joins
  {
    joins[dependent := joins[dependent].(dependencies := joins[dependent].dependencies - {current})]
  }

  lemma PopRanks(original: JoinMap, rank: map<string, nat>, current: string)
    requires current in original && current !in rank && rank.Keys <= original.Keys
    requires original[current].dependencies.Keys <= rank.Keys
    requires RanksCount(rank)
    requires RanksFall(DependencyGraph(original), rank)
    ensures rank[current := |rank|].Keys <= original.Keys
    ensures RanksCount(rank[current := |rank|])
    ensures RanksFall(DependencyGraph(original), rank[current := |rank|])
  {
    var g := DependencyGraph(original);
    var rank' := rank[current := |rank|];
    forall p, q | p in rank' && p in g && q in g[p]
      ensures q in rank' && rank'[q] < rank'[p]
    {
      if p == current {
        assert q in original[current].dependencies.Keys;
      } else {
        assert q in rank && rank[q] < rank[p];
      }
    }
  }

  lemma PopEdges(original: JoinMap, joins: JoinMap, rank: map<string, nat>, current: string)
    requires Mirrored(original) && current in original && current !in rank
    requires Remaining(original, joins, rank.Keys, "", {})
    ensures Remaining(original, joins, rank[current := |rank|].Keys, current, original[current].dependents.Keys)
  {
    assert rank[current := |rank|].Keys == rank.Keys + {current};
  }

  lemma PopProgress(original: JoinMap, joins: JoinMap, rank: map<string, nat>, current: string)
    requires Mirrored(original) && Progress(original, joins, rank, "", {})
    requires current in joins && current !in rank && joins[current].dependencies == map[]
    ensures Progress(original, joins, rank[current := |rank|], current, original[current].dependents.Keys)
  {
    forall q | q in original[current].dependencies.Keys ensures q in rank {
      assert HasEdge(original, current, q) && !HasEdge(joins, current, q);
    }
    PopRanks(original, rank, current);
    PopEdges(original, joins, rank, current);
  }

  lemma PopEmitted(original: JoinMap, rank: map<string, nat>, current: string, emitted: seq<JoinCondition>)
    requires Mirrored(original) && current in original && current !in rank
    requires RanksCount(rank)
    requires Emitted(original, rank, "", {}, emitted)
    ensures Emitted(original, rank[current := |rank|], current, original[current].dependents.Keys, emitted)
  {
  }

  lemma PopPending(joins: JoinMap, rank: map<string, nat>, start: seq<string>, r: nat)
    requires start != [] && Pending(joins, rank, start)
    ensures Pending(joins, rank[start[|start| - 1] := r], start[..|start| - 1])
  {
    var last := start[|start| - 1];
    assert start == start[..|start| - 1] + [last];
  }

  lemma StartState(joins: JoinMap)
    requires Mirrored(joins)
    ensures Progress(joins, joins, map[], "", {}) && Emitted(joins, map[], "", {}, [])
  {
  }

  lemma PopFacts(original: JoinMap, joins: JoinMap, rank: map<string, nat>, start: seq<string>)
    requires Progress(original, joins, rank, "", {}) && Pending(joins, rank, start) && start != []
    ensures var current := start[|start| - 1];
      && current in original && current in joins && current !in rank && joins[current].dependencies == map[]
      && joins[current].dependents == original[current].dependents
      && RanksCount(rank)
  {
    assert start[|start| - 1] in start;
  }

  lemma ReleaseFacts(original: JoinMap, joins: JoinMap, rank: map<string, nat>, current: string, todo: set<string>, dependent: string)
    requires Mirrored(original) && Progress(original, joins, rank, current, todo)
    requires current in original && current in rank && rank[current] == |rank| - 1
    requires dependent in todo && todo <= original[current].dependents.Keys
    ensures HasEdge(original, dependent, current)
    ensures HasEdge(joins, dependent, current) ==>
      dependent !in rank && joins[dependent].dependencies[current] == original[dependent].dependencies[current]
    ensures forall p :: p in rank ==> rank[p] <= rank[current]
  {
    assert dependent in DependencyGraph(original) && current in DependencyGraph(original)[dependent];
  }

  /** Once its dependents are done, the popped table is one of those popped before. */
  lemma AllReleased(original: JoinMap, joins: JoinMap, rank: map<string, nat>, current: string, emitted: seq<JoinCondition>)
    requires Progress(original, joins, rank, current, {}) && Emitted(original, rank, current, {}, emitted)
    ensures Progress(original, joins, rank, "", {}) && Emitted(original, rank, "", {}, emitted)
  {
  }

  lemma NothingPending(joins: JoinMap, rank: map<string, nat>)
    requires Pending(joins, rank, [])
    ensures forall n :: n in joins && joins[n].dependencies == map[] ==> n in rank
  {
  }

  lemma ReleasePending(joins: JoinMap, rank: map<string, nat>, start: seq<string>, dependent: string, current: string)
    requires HasEdge(joins, dependent, current) && Pending(joins, rank, start) && dependent !in rank
    ensures var joins' := Release(joins, dependent, current);
      Pending(joins', rank, if joins'[dependent].dependencies == map[] then start + [dependent] else start)
  {
    assert dependent !in start;
  }

  lemma ReleaseProgress(original: JoinMap, joins: JoinMap, rank: map<string, nat>, current: string, todo: set<string>, dependent: string)
    requires Progress(original, joins, rank, current, todo)
    requires dependent in todo && dependent in joins && current in rank
    ensures Progress(original, Release(joins, dependent, current), rank, current, todo - {dependent})
  {
    var joins' := Release(joins, dependent, current);
    forall r, p {:trigger HasEdge(joins', r, p)}
      ensures HasEdge(joins', r, p) <==> HasEdge(joins, r, p) && !(r == dependent && p == current)
      ensures HasEdge(joins', r, p) ==> joins'[r].dependencies[p] == joins[r].dependencies[p]
    {
    }
  }

  lemma ReleaseEmitted(original: JoinMap, rank: map<string, nat>, current: string, todo: set<string>, dependent: string, emitted: seq<JoinCondition>)
    requires Mirrored(original) && current in rank && HasEdge(original, dependent, current) && dependent in todo
    requires forall p :: p in rank ==> rank[p] <= rank[current]
    requires Emitted(original, rank, current, todo, emitted)
    ensures Emitted(original, rank, current, todo - {dependent}, emitted + [original[dependent].dependencies[current]])
  {
    var edge := original[dependent].dependencies[current];
    var longer := emitted + [edge];
    assert longer[|emitted|] == edge;
    assert forall c :: c in longer <==> c in emitted || c == edge;
  }

  /** A popped table owes no cycle; a table that is never popped cannot avoid one. */
  lemma PoppedIffAcyclic(original: JoinMap, joins: JoinMap, rank: map<string, nat>, p: string)
    requires Mirrored(original) && Progress(original, joins, rank, "", {})
    requires forall n :: n in joins && joins[n].dependencies == map[] ==> n in rank
    requires p in original
    ensures p in rank <==> !ReachesCycle(DependencyGraph(original), p)
  {
    var g := DependencyGraph(original);
    if p in rank {
      RankedNoCycle(g, rank, p);
    } else {
      var stuck := original.Keys - rank.Keys;
      forall m | m in stuck ensures g[m] * stuck != {} {
        var d :| d in joins[m].dependencies;
        assert HasEdge(joins, m, d) && HasEdge(original, m, d);
        assert d in g[m] * stuck;
      }
      StuckReachesCycle(g, stuck, p);
    }
  }

  ghost predicate RanksRise(rank: map<string, nat>, emitted: seq<JoinCondition>) {
    forall i, k :: 0 <= i < k < |emitted| ==>
      emitted[i].primaryTable in rank && emitted[k].primaryTable in rank
      && rank[emitted[i].primaryTable] <= rank[emitted[k].primaryTable]
  }

  lemma ReverseGrouped(rank: map<string, nat>, emitted: seq<JoinCondition>)
    requires RanksRise(rank, emitted)
    requires RanksCount(rank)
    ensures Grouped(Reverse(emitted))
  {
    var sorted := Reverse(emitted);
    forall i, j, k | 0 <= i < j < k < |sorted| && sorted[i].primaryTable == sorted[k].primaryTable
      ensures sorted[j].primaryTable == sorted[i].primaryTable
    {
      var n := |emitted| - 1;
      assert rank[emitted[n - k].primaryTable] <= rank[emitted[n - j].primaryTable] <= rank[emitted[n - i].primaryTable];
    }
  }

  lemma ReversePrimariesFirst(original: JoinMap, rank: map<string, nat>, emitted: seq<JoinCondition>)
    requires forall c :: c in emitted ==> IsEdge(original, c) && c.primaryTable in rank
    requires RanksRise(rank, emitted)
    requires RanksFall(DependencyGraph(original), rank)
    ensures PrimariesFirst(Reverse(emitted))
  {
    var sorted := Reverse(emitted);
    forall i, k | 0 <= i < |sorted| && 0 <= k < |sorted| && sorted[i].referencingTable == sorted[k].primaryTable
      ensures k < i
    {
      var i', k' := |emitted| - 1 - i, |emitted| - 1 - k;
      var a, b := emitted[i'], emitted[k'];
      assert a in emitted && b in emitted;
      assert a.primaryTable in DependencyGraph(original)[a.referencingTable];
      assert rank[a.primaryTable] < rank[b.primaryTable];
    }
  }

  lemma SortedWhenExhausted(original: JoinMap, joins: JoinMap, rank: map<string, nat>, emitted: seq<JoinCondition>)
    requires Mirrored(original) && Progress(original, joins, rank, "", {}) && Emitted(original, rank, "", {}, emitted)
    requires forall n :: n in joins && joins[n].dependencies == map[] ==> n in rank
    ensures IsJoinOrder(original, Reverse(emitted))
  {
    ReverseDistinct(emitted);
    ReverseGrouped(rank, emitted);
    ReversePrimariesFirst(original, rank, emitted);
    forall c ensures c in Reverse(emitted) <==> c in emitted {
      ReverseMembers(emitted, c);
    }
    forall r, p | HasEdge(original, r, p)
      ensures original[r].dependencies[p] in Reverse(emitted) <==> !ReachesCycle(DependencyGraph(original), p)
    {
      PoppedIffAcyclic(original, joins, rank, p);
    }
  }
}
