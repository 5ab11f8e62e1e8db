/** The join graph a selection tree builds: mirrored, rooted at the queried table, and acyclic with the schema. */
module JoinGraph {
  import opened Common
  import opened Graph
  import opened Joins
  import opened Graphql

  // ----- insertion keeps the map mirrored and adds one edge -----

  predicate ConnectsPair(c: JoinCondition, r: string, p: string) {
    r == c.referencingTable && p == c.primaryTable
  }

  predicate HasDependent(joins: JoinMap, p: string, r: string) {
    p in joins && r in joins[p].dependents
  }

  lemma InsertEdge(joins: JoinMap, c: JoinCondition, r: string, p: string)
    ensures HasEdge(InsertJoin(joins, c), r, p) <==> HasEdge(joins, r, p) || ConnectsPair(c, r, p)
    ensures HasEdge(InsertJoin(joins, c), r, p) ==>
      InsertJoin(joins, c)[r].dependencies[p] == if ConnectsPair(c, r, p) then c else joins[r].dependencies[p]
  {
  }

  lemma InsertDependent(joins: JoinMap, c: JoinCondition, p: string, r: string)
    ensures HasDependent(InsertJoin(joins, c), p, r) <==> HasDependent(joins, p, r) || ConnectsPair(c, r, p)
    ensures HasDependent(InsertJoin(joins, c), p, r) ==>
      InsertJoin(joins, c)[p].dependents[r] == if ConnectsPair(c, r, p) then c else joins[p].dependents[r]
  {
  }

  lemma InsertKeepsMirror(joins: JoinMap, c: JoinCondition)
    requires Mirrored(joins)
    ensures Mirrored(InsertJoin(joins, c))
  {
    var after := InsertJoin(joins, c);
    forall r, p {:trigger HasEdge(after, r, p)} | HasEdge(after, r, p)
      ensures HasDependent(after, p, r)
      ensures after[p].dependents[r] == after[r].dependencies[p]
      ensures after[r].dependencies[p].referencingTable == r && after[r].dependencies[p].primaryTable == p
    {
      InsertEdge(joins, c, r, p);
      InsertDependent(joins, c, p, r);
    }
    forall r, p | p in after && r in after[p].dependents
      ensures HasEdge(after, r, p)
    {
      InsertEdge(joins, c, r, p);
      InsertDependent(joins, c, p, r);
      assert HasDependent(after, p, r);
    }
  }

  /** The condition kept for an edge: the last one visited between the two tables. */
  function LastJoin(fks: ForeignKeys, ns: string, visits: seq<Visit>, r: string, p: string): Option<JoinCondition> {
    if visits == [] then None
    else
      var later := LastJoin(fks, ns, visits[1..], r, p);
      var here := JoinOf(fks, ns, visits[0]);
      if later.Some? then later
      else if here.Some? && ConnectsPair(here.value, r, p) then here
      else None
  }

  /** The built map is mirrored and holds, for every pair of tables some object field joins, that pair once. */
  lemma {:induction false} JoinsAfterEdges(fks: ForeignKeys, ns: string, joins: JoinMap, visits: seq<Visit>)
    requires Mirrored(joins)
    ensures Mirrored(JoinsAfter(fks, ns, joins, visits))
    ensures forall r, p {:trigger HasEdge(JoinsAfter(fks, ns, joins, visits), r, p)} ::
      var after, last := JoinsAfter(fks, ns, joins, visits), LastJoin(fks, ns, visits, r, p);
      && (HasEdge(after, r, p) <==> HasEdge(joins, r, p) || last.Some?)
      && (HasEdge(after, r, p) ==> after[r].dependencies[p] == if last.Some? then last.value else joins[r].dependencies[p])
    decreases |visits|
  {
    if visits != [] {
      var next := JoinOne(fks, ns, joins, visits[0]);
      var here := JoinOf(fks, ns, visits[0]);
      if here.Some? {
        InsertKeepsMirror(joins, here.value);
      }
      JoinsAfterEdges(fks, ns, next, visits[1..]);
      forall r, p {:trigger HasEdge(JoinsAfter(fks, ns, joins, visits), r, p)}
        ensures var after, last := JoinsAfter(fks, ns, joins, visits), LastJoin(fks, ns, visits, r, p);
          && (HasEdge(after, r, p) <==> HasEdge(joins, r, p) || last.Some?)
          && (HasEdge(after, r, p) ==> after[r].dependencies[p] == if last.Some? then last.value else joins[r].dependencies[p])
      {
        if here.Some? {
          InsertEdge(joins, here.value, r, p);
        }
      }
    }
  }

  lemma {:induction false} LastJoinIff(fks: ForeignKeys, ns: string, visits: seq<Visit>, r: string, p: string)
    ensures LastJoin(fks, ns, visits, r, p).Some? <==>
      exists v :: v in visits && JoinOf(fks, ns, v).Some? && ConnectsPair(JoinOf(fks, ns, v).value, r, p)
  {
    if visits != [] {
      LastJoinIff(fks, ns, visits[1..], r, p);
      assert visits == [visits[0]] + visits[1..];
    }
  }

  // ----- the whole map of one query field -----

  function QueryJoins(fks: ForeignKeys, ns: string, list: seq<Selection>, root: string): JoinMap {
    JoinsAfter(fks, ns, map[], Preorder(fks, list, root))
  }

  /** Two tables are joined by some object field of the tree. */
  ghost predicate Joined(fks: ForeignKeys, ns: string, visits: seq<Visit>, r: string, p: string) {
    exists v :: v in visits && JoinOf(fks, ns, v).Some? && ConnectsPair(JoinOf(fks, ns, v).value, r, p)
  }

  lemma QueryJoinsEdges(fks: ForeignKeys, ns: string, list: seq<Selection>, root: string)
    ensures var joins := QueryJoins(fks, ns, list, root);
      && Mirrored(joins)
      && forall r, p {:trigger HasEdge(joins, r, p)} :: HasEdge(joins, r, p) <==> Joined(fks, ns, Preorder(fks, list, root), r, p)
  {
    var visits := Preorder(fks, list, root);
    JoinsAfterEdges(fks, ns, map[], visits);
    forall r, p {:trigger HasEdge(QueryJoins(fks, ns, list, root), r, p)}
      ensures HasEdge(QueryJoins(fks, ns, list, root), r, p) <==> Joined(fks, ns, visits, r, p)
    {
      LastJoinIff(fks, ns, visits, r, p);
    }
  }

  // ----- whose condition a pair of tables keeps -----

  /** The schema has a foreign key for the visited object field: a column of another table. */
  predicate Follows(fks: ForeignKeys, v: Visit, table: string, col: string) {
    && v.sel.Field? && v.sel.sub.selections != []
    && Lower(v.entity) in fks && Lower(v.sel.name) in fks[Lower(v.entity)]
    && fks[Lower(v.entity)][Lower(v.sel.name)] == (table, col)
  }

  /** The column of the field itself equals the column its foreign key names. */
  function OwnCondition(ns: string, v: Visit, table: string, col: string): JoinCondition
    requires v.sel.Field?
  {
    JoinCondition(referencingTable := ns + "." + v.entity, referencingCol := v.sel.name,
                  primaryTable := ns + "." + table, primaryCol := col)
  }

  /** No two visited object fields lead from one table to one table under different names or into different columns. */
  ghost predicate OneKeyEach(fks: ForeignKeys, visits: seq<Visit>) {
    forall v, w, t, c, d | v in visits && w in visits && Follows(fks, v, t, c) && Follows(fks, w, t, d) ::
      v.entity == w.entity ==> v.sel.name == w.sel.name && c == d
  }

  lemma JoinOfFollows(fks: ForeignKeys, ns: string, v: Visit)
    ensures JoinOf(fks, ns, v).Some? <==> exists t, c :: Follows(fks, v, t, c)
    ensures forall t, c :: Follows(fks, v, t, c) ==> JoinOf(fks, ns, v) == Some(OwnCondition(ns, v, t, c))
  {
    if JoinOf(fks, ns, v).Some? {
      var (t, c) := fks[Lower(v.entity)][Lower(v.sel.name)];
      assert Follows(fks, v, t, c);
    }
  }

  lemma QualifyApart(ns: string, a: string, b: string)
    ensures Qualify(ns, a) == Qualify(ns, b) <==> a == b
  {
    assert Qualify(ns, a)[|ns| + 1..] == a && Qualify(ns, b)[|ns| + 1..] == b;
  }

  lemma {:induction false} LastJoinVisited(fks: ForeignKeys, ns: string, visits: seq<Visit>, r: string, p: string) returns (v: Visit)
    requires LastJoin(fks, ns, visits, r, p).Some?
    ensures v in visits && JoinOf(fks, ns, v) == LastJoin(fks, ns, visits, r, p) && ConnectsPair(JoinOf(fks, ns, v).value, r, p)
  {
    if LastJoin(fks, ns, visits[1..], r, p).Some? {
      v := LastJoinVisited(fks, ns, visits[1..], r, p);
    } else {
      v := visits[0];
    }
  }

  /** Every object field's own condition is an edge exactly when no two fields join the same two tables differently;
      otherwise the field visited last overwrites the others. Every edge is the condition of some field. */
  lemma OwnConditionsIff(fks: ForeignKeys, ns: string, list: seq<Selection>, root: string)
    ensures (forall v, t, c :: v in Preorder(fks, list, root) && Follows(fks, v, t, c) ==>
               IsEdge(QueryJoins(fks, ns, list, root), OwnCondition(ns, v, t, c)))
            <==> OneKeyEach(fks, Preorder(fks, list, root))
    ensures forall e :: IsEdge(QueryJoins(fks, ns, list, root), e) ==>
              exists v, t, c :: v in Preorder(fks, list, root) && Follows(fks, v, t, c) && e == OwnCondition(ns, v, t, c)
  {
    var visits, joins := Preorder(fks, list, root), QueryJoins(fks, ns, list, root);
    hide Preorder, JoinsAfter, LastJoin, JoinOf;
    JoinsAfterEdges(fks, ns, map[], visits);
    forall e | IsEdge(joins, e) ensures exists v, t, c :: v in visits && Follows(fks, v, t, c) && e == OwnCondition(ns, v, t, c) {
      var v := EdgeVisited(fks, ns, visits, e);
    }
    if OneKeyEach(fks, visits) {
      forall v, t, c | v in visits && Follows(fks, v, t, c) ensures IsEdge(joins, OwnCondition(ns, v, t, c)) {
        var own := OwnCondition(ns, v, t, c);
        JoinOfFollows(fks, ns, v);
        LastJoinIff(fks, ns, visits, own.referencingTable, own.primaryTable);
        assert HasEdge(joins, own.referencingTable, own.primaryTable);
        var w := EdgeVisited(fks, ns, visits, joins[own.referencingTable].dependencies[own.primaryTable]);
        OwnOnly(fks, ns, visits, v, w, t, c);
      }
    } else {
      var v, w, t, c, d :| v in visits && w in visits && Follows(fks, v, t, c) && Follows(fks, w, t, d)
        && v.entity == w.entity && (v.sel.name != w.sel.name || c != d);
      assert !IsEdge(joins, OwnCondition(ns, v, t, c)) || !IsEdge(joins, OwnCondition(ns, w, t, d));
    }
  }

  lemma {:induction false} EdgeVisited(fks: ForeignKeys, ns: string, visits: seq<Visit>, e: JoinCondition) returns (v: Visit)
    requires IsEdge(JoinsAfter(fks, ns, map[], visits), e)
    ensures v in visits && JoinOf(fks, ns, v) == Some(e)
    ensures exists t, c :: Follows(fks, v, t, c) && e == OwnCondition(ns, v, t, c)
  {
    hide JoinsAfter, LastJoin;
    JoinsAfterEdges(fks, ns, map[], visits);
    assert HasEdge(JoinsAfter(fks, ns, map[], visits), e.referencingTable, e.primaryTable);
    v := LastJoinVisited(fks, ns, visits, e.referencingTable, e.primaryTable);
    JoinOfFollows(fks, ns, v);
  }

  lemma OwnOnly(fks: ForeignKeys, ns: string, visits: seq<Visit>, v: Visit, w: Visit, t: string, c: string)
    requires OneKeyEach(fks, visits) && v in visits && w in visits && Follows(fks, v, t, c) && JoinOf(fks, ns, w).Some?
    requires ConnectsPair(JoinOf(fks, ns, w).value, ns + "." + v.entity, ns + "." + t)
    ensures JoinOf(fks, ns, w).value == OwnCondition(ns, v, t, c)
  {
    JoinOfFollows(fks, ns, w);
    var u, d :| Follows(fks, w, u, d);
    QualifyApart(ns, v.entity, w.entity);
    QualifyApart(ns, t, u);
  }

  /** Two keys from one table to another, a sender and a receiver: the one visited first is lost. */
  lemma SecondKeyOverwrites(fks: ForeignKeys, ns: string, v: Visit, w: Visit, table: string, c: string, d: string)
    requires Follows(fks, v, table, c) && Follows(fks, w, table, d) && v.entity == w.entity && v.sel.name != w.sel.name
    ensures var joins := JoinsAfter(fks, ns, map[], [v, w]);
            !IsEdge(joins, OwnCondition(ns, v, table, c)) && IsEdge(joins, OwnCondition(ns, w, table, d))
  {
    assert [v, w][1..] == [w] && [w][1..] == [];
    var first := JoinOne(fks, ns, map[], v);
    var second := JoinOne(fks, ns, first, w);
    assert JoinsAfter(fks, ns, second, []) == second == JoinsAfter(fks, ns, first, [w]);
    assert JoinsAfter(fks, ns, map[], [v, w]) == second;
  }

  ghost function ForeignKeyGraph(fks: ForeignKeys): Graph {
    map e | e in fks :: set f | f in fks[e] :: Lower(fks[e][f].0)
  }

  /** No entity of the schema references itself, directly or through other entities. */
  ghost predicate AcyclicSchema(fks: ForeignKeys) {
    forall e :: !ReachesCycle(ForeignKeyGraph(fks), e)
  }

  /** The entity a qualified table name stands for, as the schema spells it. */
  function EntityOf(ns: string, table: string): string {
    if |table| < |ns| + 1 then "" else Lower(table[|ns| + 1..])
  }

  lemma EntityOfQualified(ns: string, entity: string)
    ensures EntityOf(ns, Qualify(ns, entity)) == Lower(entity)
  {
    assert Qualify(ns, entity)[|ns| + 1..] == entity;
  }

  lemma JoinFollowsSchema(fks: ForeignKeys, ns: string, visits: seq<Visit>, r: string, p: string)
    requires Joined(fks, ns, visits, r, p)
    ensures var g := ForeignKeyGraph(fks); EntityOf(ns, r) in g && EntityOf(ns, p) in g[EntityOf(ns, r)]
  {
    var v :| v in visits && JoinOf(fks, ns, v).Some? && ConnectsPair(JoinOf(fks, ns, v).value, r, p);
    EntityOfQualified(ns, v.entity);
    EntityOfQualified(ns, ForeignKey(fks, v.entity, v.sel.name).value.0);
  }

  /** Over an acyclic schema no join graph has a cycle, so sorting drops nothing. */
  lemma QueryJoinsAcyclic(fks: ForeignKeys, ns: string, list: seq<Selection>, root: string, n: string)
    requires AcyclicSchema(fks)
    ensures !ReachesCycle(DependencyGraph(QueryJoins(fks, ns, list, root)), n)
  {
    var joins := QueryJoins(fks, ns, list, root);
    var g, s := DependencyGraph(joins), ForeignKeyGraph(fks);
    QueryJoinsEdges(fks, ns, list, root);
    forall path | IsLasso(g, path)
      ensures false
    {
      assert IsPath(g, path);
      forall i | 0 <= i < |path| - 1 ensures EntityOf(ns, path[i]) in s && EntityOf(ns, path[i + 1]) in s[EntityOf(ns, path[i])] {
        assert HasEdge(joins, path[i], path[i + 1]);
        JoinFollowsSchema(fks, ns, Preorder(fks, list, root), path[i], path[i + 1]);
      }
      LassoMaps(g, s, ns, path);
    }
  }

  /** A cycle of tables is a cycle of the entities behind them. */
  lemma LassoMaps(g: Graph, s: Graph, ns: string, path: seq<string>)
    requires IsLasso(g, path)
    requires forall i :: 0 <= i < |path| - 1 ==> EntityOf(ns, path[i]) in s && EntityOf(ns, path[i + 1]) in s[EntityOf(ns, path[i])]
    ensures exists n :: ReachesCycle(s, n)
  {
    var mapped := seq(|path|, i requires 0 <= i < |path| => EntityOf(ns, path[i]));
    var k :| 0 <= k < |path| - 1 && path[k] == path[|path| - 1];
    assert mapped[..|mapped| - 1][k] == mapped[|mapped| - 1];
    assert IsLasso(s, mapped) && ReachesCycle(s, mapped[0]);
  }

  // ----- every visited table is connected to the queried one -----

  /** Every object field of the tree follows a foreign key. */
  ghost predicate Covered(fks: ForeignKeys, visits: seq<Visit>) {
    forall v :: v in visits && IsObject(v.sel) ==> ForeignKey(fks, v.entity, v.sel.name).Some?
  }

  ghost predicate EdgesFor(g: Graph, fks: ForeignKeys, ns: string, visits: seq<Visit>) {
    forall v :: v in visits && IsObject(v.sel) ==>
      && Qualify(ns, v.entity) in g
      && Qualify(ns, ChildEntity(fks, v.entity, v.sel.name)) in g[Qualify(ns, v.entity)]
  }

  ghost predicate AllReached(g: Graph, ns: string, from: string, visits: seq<Visit>) {
    forall v :: v in visits ==> Reaches(g, from, Qualify(ns, v.entity))
  }

  lemma {:induction false} ListReached(g: Graph, fks: ForeignKeys, ns: string, from: string, list: seq<Selection>, entity: string)
    requires Reaches(g, from, Qualify(ns, entity)) && EdgesFor(g, fks, ns, Preorder(fks, list, entity))
    ensures AllReached(g, ns, from, Preorder(fks, list, entity))
    decreases list
  {
    if list != [] {
      ItemReached(g, fks, ns, from, list[|list| - 1], entity);
      ListReached(g, fks, ns, from, list[..|list| - 1], entity);
    }
  }

  lemma {:induction false} ItemReached(g: Graph, fks: ForeignKeys, ns: string, from: string, s: Selection, entity: string)
    requires Reaches(g, from, Qualify(ns, entity)) && EdgesFor(g, fks, ns, PreorderItem(fks, s, entity))
    ensures AllReached(g, ns, from, PreorderItem(fks, s, entity))
    decreases s
  {
    if IsObject(s) {
      assert PreorderItem(fks, s, entity)[0] == Visit(s, entity);
      var child := ChildEntity(fks, entity, s.name);
      ReachesStep(g, from, Qualify(ns, entity), Qualify(ns, child));
      ListReached(g, fks, ns, from, s.sub.selections, child);
    }
  }

  lemma {:induction false} QueryReached(fks: ForeignKeys, ns: string, list: seq<Selection>, root: string)
    requires Covered(fks, Preorder(fks, list, root))
    ensures AllReached(DependencyGraph(QueryJoins(fks, ns, list, root)), ns, Qualify(ns, root), Preorder(fks, list, root))
  {
    var joins, visits := QueryJoins(fks, ns, list, root), Preorder(fks, list, root);
    var g := DependencyGraph(joins);
    QueryJoinsEdges(fks, ns, list, root);
    forall v | v in visits && IsObject(v.sel)
      ensures Qualify(ns, v.entity) in g
      ensures Qualify(ns, ChildEntity(fks, v.entity, v.sel.name)) in g[Qualify(ns, v.entity)]
    {
      var r, p := Qualify(ns, v.entity), Qualify(ns, ChildEntity(fks, v.entity, v.sel.name));
      assert ConnectsPair(JoinOf(fks, ns, v).value, r, p);
      assert HasEdge(joins, r, p);
    }
    ReachesSelf(g, Qualify(ns, root));
    ListReached(g, fks, ns, Qualify(ns, root), list, root);
  }

  /** A visited table other than the queried one is the primary table of some join. */
  lemma ReachedIsJoined(joins: JoinMap, from: string, table: string)
    requires Reaches(DependencyGraph(joins), from, table) && table != from
    ensures exists r :: HasEdge(joins, r, table)
  {
    var path :| |path| >= 1 && IsPath(DependencyGraph(joins), path) && path[0] == from && path[|path| - 1] == table;
    assert HasEdge(joins, path[|path| - 2], path[|path| - 1]);
  }
}
