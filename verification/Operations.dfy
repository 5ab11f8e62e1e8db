/** A parsed operation: one user query and one SQL statement for each of its top-level fields. */
module Operations {
  import opened Common
  import opened Arguments
  import opened Elements
  import opened Joins
  import opened Clauses
  import opened Graphql
  import opened JoinGraph
  import opened Queries
  import opened Rendering

  datatype Operation = Operation(namespace: string, identifier: string, name: string, selections: Selections)
  {
    function Namespace(): string {
      namespace + "_" + identifier
    }

    /** The top-level fields; fragments left at the top are skipped. */
    function Fields(): seq<Selection> {
      FieldsOf(selections.selections)
    }

    method Parse(fks: ForeignKeys) returns (queries: seq<UserQuery>)
      ensures |queries| == |Fields()| && fresh(queries) && Distinct(queries)
      ensures forall i :: 0 <= i < |queries| ==> IsQueryOf(fks, Namespace(), Fields()[i], queries[i])
    {
      hide IsQueryOf, FieldsOf;
      NoFields();
      queries := [];
      var ns, list := Namespace(), selections.selections;
      for i := 0 to |list|
        invariant |queries| == |FieldsOf(list[..i])| && fresh(queries) && Distinct(queries)
        invariant forall k :: 0 <= k < |queries| ==> IsQueryOf(fks, ns, FieldsOf(list[..i])[k], queries[k])
      {
        var selection := list[i];
        FieldsOfNext(list, i);
        if selection.Field? {
          var query := FieldQuery(fks, ns, selection);
          queries := queries + [query];
        }
      }
      assert list[..|list|] == list;
    }
  }

  /** A top-level field, with the namespace its tables are in. */
  datatype Target = Target(ns: string, field: Selection)

  function TargetsOf(operation: Operation): (r: seq<Target>)
    ensures forall t :: t in r ==> t.field.Field?
  {
    seq(|operation.Fields()|, i requires 0 <= i < |operation.Fields()| => Target(operation.Namespace(), operation.Fields()[i]))
  }

  function Targets(operations: seq<Operation>): (r: seq<Target>)
    ensures forall t :: t in r ==> t.field.Field?
  {
    if operations == [] then [] else Targets(operations[..|operations| - 1]) + TargetsOf(operations[|operations| - 1])
  }

  /** The targets are the top-level fields of all operations, in the namespace of the operation's indexer. */
  lemma {:induction false} TargetsAre(operations: seq<Operation>, t: Target)
    ensures t in Targets(operations) <==>
            exists i :: 0 <= i < |operations| && IsTargetOf(operations[i], t)
  {
    if operations != [] {
      hide FieldsOf;
      var n := |operations| - 1;
      var init, last := operations[..n], operations[n];
      TargetsAre(init, t);
      TargetsOfOne(last, t);
      if t in Targets(init) {
        var i :| 0 <= i < |init| && IsTargetOf(init[i], t);
        assert IsTargetOf(operations[i], t);
      }
      if i :| 0 <= i < |operations| && IsTargetOf(operations[i], t) {
        if i < n {
          assert IsTargetOf(init[i], t);
        }
      }
    }
  }

  predicate IsTargetOf(operation: Operation, t: Target) {
    && t.field in operation.selections.selections && t.field.Field?
    && t.ns == operation.namespace + "_" + operation.identifier
  }

  lemma TargetsOfOne(operation: Operation, t: Target)
    ensures t in TargetsOf(operation) <==> IsTargetOf(operation, t)
  {
    FieldsAre(operation.selections.selections, t.field);
    hide FieldsOf;
    if t.field in operation.Fields() && t.ns == operation.Namespace() {
      var i :| 0 <= i < |operation.Fields()| && operation.Fields()[i] == t.field;
      assert TargetsOf(operation)[i] == t;
    }
  }

  predicate IsQueryFor(fks: ForeignKeys, t: Target, query: UserQuery)
    requires t.field.Field?
    reads query
  {
    IsQueryOf(fks, t.ns, t.field, query)
  }

  /** All operations of a document. */
  datatype GraphqlQuery = GraphqlQuery(operations: seq<Operation>)
  {
    method Parse(fks: ForeignKeys) returns (queries: seq<UserQuery>)
      ensures |queries| == |Targets(operations)| && fresh(queries) && Distinct(queries)
      ensures forall i :: 0 <= i < |queries| ==> IsQueryFor(fks, Targets(operations)[i], queries[i])
    {
      hide IsQueryOf, Targets, FieldsOf;
      queries := [];
      NoTargets();
      for i := 0 to |operations|
        invariant |queries| == |Targets(operations[..i])| && fresh(queries) && Distinct(queries)
        invariant forall k :: 0 <= k < |queries| ==> IsQueryFor(fks, Targets(operations[..i])[k], queries[k])
      {
        ghost var before := queries;
        var more := operations[i].Parse(fks);
        TargetsNext(operations, i);
        forall k | 0 <= k < |more| ensures IsQueryFor(fks, TargetsOf(operations[i])[k], more[k]) {
        }
        forall k | 0 <= k < |before| ensures before[k] !in more && IsQueryFor(fks, Targets(operations[..i])[k], before[k]) {
        }
        queries := queries + more;
      }
      assert operations[..|operations|] == operations;
    }

    /** One statement for each top-level field of each operation, or the error of a limit without an order. */
    method AsSql(fks: ForeignKeys) returns (r: Result<seq<Sql>, QueryError>)
      ensures r.Ok? ==> |r.value| == |Targets(operations)|
      ensures r.Ok? ==> forall i :: 0 <= i < |r.value| ==> IsSqlFor(fks, Targets(operations)[i], r.value[i])
      ensures r.Err? <==> exists t :: t in Targets(operations) && Unordered(FieldParams(fks, t.ns, t.field))
    {
      hide IsSqlOf, IsQueryOf, Unordered, FieldParams, Targets;
      var queries := Parse(fks);
      ghost var targets := Targets(operations);
      var statements: seq<Sql> := [];
      for i := 0 to |queries|
        invariant |statements| == i
        invariant forall k :: 0 <= k < i ==>
          IsSqlFor(fks, targets[k], statements[k]) && !Unordered(FieldParams(fks, targets[k].ns, targets[k].field))
        invariant forall k :: i <= k < |queries| ==> IsQueryFor(fks, targets[k], queries[k])
      {
        var sql := FieldSql(fks, targets[i].ns, targets[i].field, queries[i]);
        if sql.Err? {
          assert targets[i] in targets;
          return Err(sql.error);
        }
        statements := statements + [sql.value];
      }
      return Ok(statements);
    }
  }

  lemma NoTargets()
    ensures Targets([]) == []
  {
  }

  lemma TargetsNext(operations: seq<Operation>, i: nat)
    requires i < |operations|
    ensures Targets(operations[..i + 1]) == Targets(operations[..i]) + TargetsOf(operations[i])
  {
    assert operations[..i + 1][..i] == operations[..i];
  }

  /** The query of one top-level field. */
  method FieldQuery(fks: ForeignKeys, ns: string, field: Selection) returns (query: UserQuery)
    requires field.Field?
    ensures fresh(query) && IsQueryOf(fks, ns, field, query)
  {
    var elements, joins, queryParams := ParseField(fks, ns, field.name, field.params, field.sub);
    query := new UserQuery(elements, joins, ns, field.name, queryParams, field.alias);
  }

  lemma NoFields()
    ensures FieldsOf([]) == []
  {
  }

  /** The statement of one top-level field. */
  method FieldSql(fks: ForeignKeys, ghost ns: string, ghost field: Selection, query: UserQuery) returns (r: Result<Sql, QueryError>)
    requires field.Field? && IsQueryOf(fks, ns, field, query)
    modifies query`joins
    ensures r.Ok? ==> IsSqlOf(fks, ns, field, r.value) && !Unordered(FieldParams(fks, ns, field))
    ensures r.Err? ==> Unordered(FieldParams(fks, ns, field))
  {
    hide SelectionText, IsJoinOrder, Folded, Emit, ParamsAfter, JoinsAfter, Preorder, TopKeys;
    QueryJoinsEdges(fks, ns, Reverse(field.sub.selections), field.name);
    forall r, p {:trigger HasEdge(query.joins, r, p)} | HasEdge(query.joins, r, p) ensures p != "" {
    }
    r := query.ToSql();
  }

  function FieldsOf(list: seq<Selection>): (r: seq<Selection>)
    ensures forall s :: s in r ==> s.Field?
  {
    if list == [] then []
    else FieldsOf(list[..|list| - 1]) + if list[|list| - 1].Field? then [list[|list| - 1]] else []
  }

  lemma FieldsOfNext(list: seq<Selection>, i: nat)
    requires i < |list|
    ensures FieldsOf(list[..i + 1]) == FieldsOf(list[..i]) + if list[i].Field? then [list[i]] else []
  {
    assert list[..i + 1][..i] == list[..i];
  }

  /** Exactly the fields are taken, and a list of fields only is taken as it is. */
  lemma {:induction false} FieldsAre(list: seq<Selection>, s: Selection)
    ensures s in FieldsOf(list) <==> s in list && s.Field?
    ensures (forall i :: 0 <= i < |list| ==> list[i].Field?) ==> FieldsOf(list) == list
  {
    NoFields();
    hide FieldsOf;
    if list != [] {
      var n := |list| - 1;
      var init, last := list[..n], list[n];
      FieldsAre(init, s);
      FieldsOfNext(list, n);
      assert list[..n + 1] == list == init + [last];
      assert s in list <==> s in init || s == last;
      assert (forall i :: 0 <= i < |list| ==> list[i].Field?) ==> last.Field? && forall i :: 0 <= i < n ==> init[i] == list[i];
    } else {
      assert list == [];
    }
  }

  /** What the visits below a top-level field are. */
  function FieldVisits(fks: ForeignKeys, field: Selection): seq<Visit>
    requires field.Field?
  {
    Preorder(fks, Reverse(field.sub.selections), field.name)
  }

  function FieldParams(fks: ForeignKeys, ns: string, field: Selection): QueryParams
    requires field.Field?
  {
    ParamsAfter(fks, ns, AddParams(NO_PARAMS, field.params, Qualify(ns, field.name)), FieldVisits(fks, field))
  }

  function FieldElements(fks: ForeignKeys, ns: string, field: Selection): seq<QueryElement>
    requires field.Field?
  {
    Emit(fks, ns, FieldVisits(fks, field), [], true)
  }

  function FieldJoins(fks: ForeignKeys, ns: string, field: Selection): JoinMap
    requires field.Field?
  {
    QueryJoins(fks, ns, Reverse(field.sub.selections), field.name)
  }

  predicate Unordered(params: QueryParams) {
    params.limit.Some? && params.sorts == []
  }

  predicate IsQueryOf(fks: ForeignKeys, ns: string, field: Selection, query: UserQuery)
    requires field.Field?
    reads query
  {
    && query.elements == FieldElements(fks, ns, field)
    && query.joins == FieldJoins(fks, ns, field)
    && query.queryParams == FieldParams(fks, ns, field)
    && query.namespaceIdentifier == ns && query.entityName == field.name && query.alias == field.alias
  }

  /** A limit makes a page; it starts at the offset or the first row, and is named by the alias or the entity. */
  function PageOf(field: Selection, params: QueryParams, projection: seq<string>): Option<Page>
    requires field.Field?
  {
    if params.limit.None? then None
    else Some(Page(projection := projection,
                   limit := params.limit.value,
                   offset := if params.offset.Some? then params.offset.value else 0,
                   alias := if field.alias.Some? then field.alias.value else field.name))
  }

  /** The statement renders the field's elements and joins its tables in a join order. */
  ghost predicate IsSqlOf(fks: ForeignKeys, ns: string, field: Selection, sql: Sql)
    requires field.Field?
  {
    && sql.selections == SelectionText(FieldElements(fks, ns, field))
    && sql.table == Qualify(ns, field.name)
    && sql.filters == FieldParams(fks, ns, field).filters && sql.sorts == FieldParams(fks, ns, field).sorts
    && sql.page == PageOf(field, FieldParams(fks, ns, field), Projections(field.name, TopKeys(FieldElements(fks, ns, field), 0)))
    && exists sorted :: IsJoinOrder(FieldJoins(fks, ns, field), sorted) && Folded(sql.joins, sorted)
  }

  ghost predicate IsSqlFor(fks: ForeignKeys, t: Target, sql: Sql)
    requires t.field.Field?
  {
    IsSqlOf(fks, t.ns, t.field, sql)
  }
}
