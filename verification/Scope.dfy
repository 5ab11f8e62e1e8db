/** The SQL statement of a query field is well scoped and renders its selection tree. */
module Scope {
  import opened Common
  import opened Arguments
  import opened Elements
  import opened Graph
  import opened Joins
  import opened Clauses
  import opened Graphql
  import opened JoinGraph
  import opened Rendering
  import opened ObjectText
  import opened Queries
  import opened Operations
  import opened Flattening
  import Lexer

  ghost function Tables(sql: Sql): set<string> {
    {sql.table} + set c | c in sql.joins :: c.table
  }

  ghost predicate SortsTable(column: string, table: string) {
    exists field :: column == table + "." + field
  }

  /** Filters and sorts mention columns of the given tables only. */
  ghost predicate ParamsWithin(filters: seq<Filter>, sorts: seq<Sort>, tables: set<string>) {
    && (forall f :: f in filters ==> f.table in tables)
    && (forall s :: s in sorts ==> exists t :: t in tables && SortsTable(s.column, t))
  }

  lemma {:induction false} AddParamsWithin(q: QueryParams, params: seq<ParamType>, table: string, tables: set<string>)
    requires table in tables && ParamsWithin(q.filters, q.sorts, tables)
    ensures var q' := AddParams(q, params, table); ParamsWithin(q'.filters, q'.sorts, tables)
    decreases |params|
  {
    if params != [] {
      if params[0].SortParam? {
        assert SortsTable(table + "." + params[0].field, table);
      }
      AddParamsWithin(AddParam(q, params[0], table), params[1..], table, tables);
    }
  }

  lemma {:induction false} ParamsAfterWithin(fks: ForeignKeys, ns: string, q: QueryParams, visits: seq<Visit>, tables: set<string>)
    requires ParamsWithin(q.filters, q.sorts, tables)
    requires forall v :: v in visits && ParamTable(fks, ns, v).Some? ==> ParamTable(fks, ns, v).value in tables
    ensures var q' := ParamsAfter(fks, ns, q, visits); ParamsWithin(q'.filters, q'.sorts, tables)
    decreases |visits|
  {
    if visits != [] {
      match ParamTable(fks, ns, visits[0]) {
        case Some(t) => AddParamsWithin(q, visits[0].sel.params, t, tables);
        case None =>
      }
      ParamsAfterWithin(fks, ns, ParamsOne(fks, ns, q, visits[0]), visits[1..], tables);
    }
  }

  /** The same pair of tables is joined by one condition only. */
  ghost predicate JoinedOnce(conditions: seq<JoinCondition>, r: string, p: string) {
    exists i :: 0 <= i < |conditions| && ConnectsPair(conditions[i], r, p)
      && forall k :: 0 <= k < |conditions| && ConnectsPair(conditions[k], r, p) ==> k == i
  }

  lemma PairJoinedOnce(joins: JoinMap, sorted: seq<JoinCondition>, r: string, p: string)
    requires IsJoinOrder(joins, sorted) && HasEdge(joins, r, p) && !ReachesCycle(DependencyGraph(joins), p)
    requires Mirrored(joins)
    ensures JoinedOnce(sorted, r, p)
  {
    var c := joins[r].dependencies[p];
    var i :| 0 <= i < |sorted| && sorted[i] == c;
    forall k | 0 <= k < |sorted| && ConnectsPair(sorted[k], r, p) ensures k == i {
      assert sorted[k] in sorted && IsEdge(joins, sorted[k]);
    }
  }

  /** The FROM table is not joined again, and every referencing table is the FROM table or is joined. */
  lemma QueryIntroduces(fks: ForeignKeys, ns: string, list: seq<Selection>, root: string, sorted: seq<JoinCondition>)
    requires AcyclicSchema(fks) && Covered(fks, Preorder(fks, list, root))
    requires IsJoinOrder(QueryJoins(fks, ns, list, root), sorted)
    ensures forall v :: v in Preorder(fks, list, root) ==> Introduces(Qualify(ns, root), sorted, Qualify(ns, v.entity))
    ensures forall v :: v in Preorder(fks, list, root) && IsObject(v.sel) ==>
      Introduces(Qualify(ns, root), sorted, Qualify(ns, ChildEntity(fks, v.entity, v.sel.name)))
    ensures forall c :: c in sorted ==> c.primaryTable != Qualify(ns, root) && Introduces(Qualify(ns, root), sorted, c.referencingTable)
  {
    var from, joins, visits := Qualify(ns, root), QueryJoins(fks, ns, list, root), Preorder(fks, list, root);
    var g := DependencyGraph(joins);
    QueryJoinsEdges(fks, ns, list, root);
    QueryReached(fks, ns, list, root);
    forall r, p | HasEdge(joins, r, p) ensures Introduces(from, sorted, p) {
      QueryJoinsAcyclic(fks, ns, list, root, p);
      assert joins[r].dependencies[p] in sorted;
    }
    forall v | v in visits ensures Introduces(from, sorted, Qualify(ns, v.entity)) {
      if v.entity != root {
        if Qualify(ns, v.entity) != from {
          ReachedIsJoined(joins, from, Qualify(ns, v.entity));
        }
      }
    }
    forall v | v in visits && IsObject(v.sel)
      ensures Introduces(from, sorted, Qualify(ns, ChildEntity(fks, v.entity, v.sel.name)))
    {
      var p := Qualify(ns, ChildEntity(fks, v.entity, v.sel.name));
      assert ConnectsPair(JoinOf(fks, ns, v).value, Qualify(ns, v.entity), p);
      assert HasEdge(joins, Qualify(ns, v.entity), p);
    }
    forall c | c in sorted ensures c.primaryTable != from && Introduces(from, sorted, c.referencingTable) {
      assert HasEdge(joins, c.referencingTable, c.primaryTable);
      var v :| v in visits && JoinOf(fks, ns, v).Some? && ConnectsPair(JoinOf(fks, ns, v).value, c.referencingTable, c.primaryTable);
      if c.primaryTable == from {
        BackEdgeMakesCycle(g, from, c.referencingTable);
        QueryJoinsAcyclic(fks, ns, list, root, from);
      }
    }
  }

  /** Over an acyclic schema that covers every object field, the statement's tables are introduced once each and
      before their use, each joined pair appears once, and columns, filters and sorts stay within them. */
  lemma StatementWellScoped(fks: ForeignKeys, ns: string, field: Selection, sql: Sql)
    requires field.Field? && AcyclicSchema(fks) && Covered(fks, FieldVisits(fks, field))
    requires IsSqlOf(fks, ns, field, sql)
    ensures WellScoped(sql.table, sql.joins)
    ensures forall r, p {:trigger Joined(fks, ns, FieldVisits(fks, field), r, p)} ::
      Joined(fks, ns, FieldVisits(fks, field), r, p) ==> JoinedOnce(Conditions(sql.joins), r, p)
    ensures forall v :: v in FieldVisits(fks, field) ==> Qualify(ns, v.entity) in Tables(sql)
    ensures ParamsWithin(sql.filters, sql.sorts, Tables(sql))
  {
    var list, root, visits := Reverse(field.sub.selections), field.name, FieldVisits(fks, field);
    var sorted :| IsJoinOrder(FieldJoins(fks, ns, field), sorted) && Folded(sql.joins, sorted);
    QueryIntroduces(fks, ns, list, root, sorted);
    FoldedWellScoped(sql.table, sql.joins, sorted);
    QueryJoinsEdges(fks, ns, list, root);
    forall r, p {:trigger Joined(fks, ns, visits, r, p)} | Joined(fks, ns, visits, r, p)
      ensures JoinedOnce(Conditions(sql.joins), r, p)
    {
      assert HasEdge(FieldJoins(fks, ns, field), r, p);
      QueryJoinsAcyclic(fks, ns, list, root, p);
      PairJoinedOnce(FieldJoins(fks, ns, field), sorted, r, p);
    }
    forall t | Introduces(sql.table, sorted, t) ensures t in Tables(sql) {
      IntroducedHasClause(sql.table, sql.joins, sorted, t);
    }
    forall v | v in visits && ParamTable(fks, ns, v).Some? ensures ParamTable(fks, ns, v).value in Tables(sql) {
      if IsObject(v.sel) {
        assert Introduces(sql.table, sorted, Qualify(ns, ChildEntity(fks, v.entity, v.sel.name)));
      } else {
        assert Introduces(sql.table, sorted, Qualify(ns, v.entity));
      }
    }
    AddParamsWithin(NO_PARAMS, field.params, Qualify(ns, root), Tables(sql));
    ParamsAfterWithin(fks, ns, AddParams(NO_PARAMS, field.params, Qualify(ns, root)), visits, Tables(sql));
  }

  /** Over an acyclic schema the statement joins under conditions of its object fields only, and under every object
      field's own exactly when no two fields join the same two tables under different conditions. */
  lemma StatementKeepsConditionsIff(fks: ForeignKeys, ns: string, field: Selection, sql: Sql)
    requires field.Field? && AcyclicSchema(fks) && IsSqlOf(fks, ns, field, sql)
    ensures (forall v, t, c :: v in FieldVisits(fks, field) && Follows(fks, v, t, c) ==>
               OwnCondition(ns, v, t, c) in Conditions(sql.joins))
            <==> OneKeyEach(fks, FieldVisits(fks, field))
    ensures forall e :: e in Conditions(sql.joins) ==>
              exists v, t, c :: v in FieldVisits(fks, field) && Follows(fks, v, t, c) && e == OwnCondition(ns, v, t, c)
  {
    var list, root, joins := Reverse(field.sub.selections), field.name, FieldJoins(fks, ns, field);
    var sorted :| IsJoinOrder(joins, sorted) && Folded(sql.joins, sorted);
    OwnConditionsIff(fks, ns, list, root);
    forall c: JoinCondition ensures c in sorted <==> IsEdge(joins, c) {
      QueryJoinsAcyclic(fks, ns, list, root, c.primaryTable);
    }
  }

  /** What a joined row holds in the columns of its tables, by their qualified names. */
  type Cells = string -> Option<ParsedValue>

  /** The row meets the condition: both columns hold one value, and not NULL. */
  predicate Meets(cells: Cells, c: JoinCondition) {
    && cells(c.referencingTable + "." + c.referencingCol).Some?
    && cells(c.referencingTable + "." + c.referencingCol) == cells(c.primaryTable + "." + c.primaryCol)
  }

  /** In every row the statement joins, the column of an object field holds the value of the foreign table's column,
      unless another field joins the same two tables differently. */
  lemma JoinedRowFollows(fks: ForeignKeys, ns: string, field: Selection, sql: Sql, cells: Cells, v: Visit, t: string, c: string)
    requires field.Field? && AcyclicSchema(fks) && IsSqlOf(fks, ns, field, sql) && OneKeyEach(fks, FieldVisits(fks, field))
    requires forall e :: e in Conditions(sql.joins) ==> Meets(cells, e)
    requires v in FieldVisits(fks, field) && Follows(fks, v, t, c)
    ensures cells(ns + "." + v.entity + "." + v.sel.name).Some?
    ensures cells(ns + "." + v.entity + "." + v.sel.name) == cells(ns + "." + t + "." + c)
  {
    StatementKeepsConditionsIff(fks, ns, field, sql);
    assert Meets(cells, OwnCondition(ns, v, t, c));
  }

  // ----- the rendered object -----

  /** Letters, digits and underscores. */
  predicate IsWord(s: string) {
    forall i :: 0 <= i < |s| ==> Lexer.IsNameChar(s[i])
  }

  /** Field names, aliases, entities and the namespace are names. */
  ghost predicate AllNamed(ns: string, visits: seq<Visit>) {
    IsWord(ns) && forall v :: v in visits ==>
      IsWord(v.entity) && (v.sel.Field? ==> IsWord(v.sel.name) && IsWord(Key(v.sel)))
  }

  lemma VisitLegible(ns: string, v: Visit, stack: seq<string>, shrunk: bool)
    requires AllNamed(ns, [v])
    ensures AllLegible(EmitOne(ns, v, stack, shrunk))
  {
    assert v in [v];
    if v.sel.Field? && !IsObject(v.sel) {
      var leaf := Leaf(ns, v.entity, v.sel);
      assert leaf.value == ns + "." + v.entity + "." + v.sel.name;
      assert LegibleElement(leaf);
    }
  }

  lemma {:induction false} EmitLegible(fks: ForeignKeys, ns: string, visits: seq<Visit>, stack: seq<string>, shrunk: bool)
    requires AllNamed(ns, visits)
    ensures AllLegible(Emit(fks, ns, visits, stack, shrunk))
  {
    if visits != [] {
      var stack', shrunk' := StackAfter(fks, visits[0], stack, shrunk), !IsObject(visits[0].sel);
      VisitLegible(ns, visits[0], stack, shrunk);
      EmitLegible(fks, ns, visits[1..], stack', shrunk');
      AllLegibleParts(EmitOne(ns, visits[0], stack, shrunk), Emit(fks, ns, visits[1..], stack', shrunk'));
    }
  }

  /** Whatever the tree, the rendered text is one well-formed object whose keys are the projected ones and whose
      columns are the tree's, each read from the table of the selection set it stands in; with names for names the
      text reads back to that object. */
  lemma StatementRendersObject(fks: ForeignKeys, ns: string, field: Selection, sql: Sql) returns (nodes: seq<Node>)
    requires field.Field? && IsSqlOf(fks, ns, field, sql)
    ensures sql.selections == RenderNodes(nodes)
    ensures AllNamed(ns, FieldVisits(fks, field)) ==> ReadNodes(sql.selections) == Some((nodes, ""))
    ensures Elements.Fields(Flat(nodes)) == Columns(ns, FieldVisits(fks, field))
    ensures sql.page.Some? ==> sql.page.value.projection == Projections(field.name, Keys(nodes))
    ensures FragmentFree(Reverse(field.sub.selections)) ==>
      (Flat(nodes) == Flatten(fks, ns, Reverse(field.sub.selections), field.name)
       <==> ClosesCleanly(fks, Reverse(field.sub.selections), field.name))
  {
    var visits := FieldVisits(fks, field);
    EmitBalances(fks, ns, visits, [], true);
    EmitColumns(fks, ns, visits, [], true);
    nodes := RenderingsAgree(FieldElements(fks, ns, field));
    if AllNamed(ns, visits) {
      EmitLegible(fks, ns, visits, [], true);
    }
    if FragmentFree(Reverse(field.sub.selections)) {
      FlattensIffClean(fks, ns, field.sub.selections, field.name);
    }
  }
}
