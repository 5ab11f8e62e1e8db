/** The user query object: its join map is consumed while the SQL is built from it. */
module Queries {
  import opened Common
  import opened Arguments
  import opened Elements
  import opened Joins
  import opened Clauses
  import opened Rendering

  /** LIMIT and OFFSET, with the projection over the common table expression. */
  datatype Page = Page(projection: seq<string>, limit: nat, offset: nat, alias: string)

  /** SELECT json_build_object(selections) FROM table joins WHERE filters ORDER BY sorts, maybe paginated. */
  datatype Sql = Sql(selections: string, table: string, joins: seq<InnerJoin>, filters: seq<Filter>, sorts: seq<Sort>, page: Option<Page>)

  datatype QueryError = UnorderedPaginatedQuery

  class UserQuery {
    const elements: seq<QueryElement>
    var joins: JoinMap
    const namespaceIdentifier: string
    const entityName: string
    const queryParams: QueryParams
    const alias: Option<string>

    constructor (elements: seq<QueryElement>, joins: JoinMap, namespaceIdentifier: string, entityName: string,
                 queryParams: QueryParams, alias: Option<string>)
      ensures this.elements == elements && this.joins == joins && this.namespaceIdentifier == namespaceIdentifier
      ensures this.entityName == entityName && this.queryParams == queryParams && this.alias == alias
    {
      this.elements, this.joins, this.namespaceIdentifier := elements, joins, namespaceIdentifier;
      this.entityName, this.queryParams, this.alias := entityName, queryParams, alias;
    }

    method GetTopologicallySortedJoins() returns (sorted: seq<JoinCondition>)
      requires Mirrored(joins)
      modifies this`joins
      ensures IsJoinOrder(old(joins), sorted)
    {
      ghost var original := joins;
      ghost var rank: map<string, nat> := map[];
      var emitted: seq<JoinCondition> := [];
      var startNodes := StartNodes(joins);

      StartState(joins);
      hide Progress, Emitted, Pending, Mirrored, IsJoinOrder;
      while startNodes != []
        invariant Progress(original, joins, rank, "", {})
        invariant Emitted(original, rank, "", {}, emitted)
        invariant Pending(joins, rank, startNodes)
        decreases original.Keys - rank.Keys
      {
        var current := startNodes[|startNodes| - 1];
        PopFacts(original, joins, rank, startNodes);
        PopPending(joins, rank, startNodes, |rank|);
        startNodes := startNodes[..|startNodes| - 1];
        var todo := joins[current].dependents.Keys;
        PopProgress(original, joins, rank, current);
        PopEmitted(original, rank, current, emitted);
        rank := rank[current := |rank|];

        while todo != {}
          invariant todo <= original[current].dependents.Keys
          invariant Progress(original, joins, rank, current, todo)
          invariant Emitted(original, rank, current, todo, emitted)
          invariant Pending(joins, rank, startNodes)
          invariant rank[current] == |rank| - 1
          decreases todo
        {
          var dependent :| dependent in todo;
          ReleaseFacts(original, joins, rank, current, todo, dependent);
          if dependent in joins && current in joins[dependent].dependencies {
            ReleasePending(joins, rank, startNodes, dependent, current);
            ReleaseProgress(original, joins, rank, current, todo, dependent);
            ReleaseEmitted(original, rank, current, todo, dependent, emitted);
            emitted := emitted + [joins[dependent].dependencies[current]];
            joins := Release(joins, dependent, current);
            if joins[dependent].dependencies == map[] {
              startNodes := startNodes + [dependent];
            }
          }
          todo := todo - {dependent};
        }
        AllReleased(original, joins, rank, current, emitted);
      }
      NothingPending(joins, rank);
      SortedWhenExhausted(original, joins, rank, emitted);
      sorted := Reverse(emitted);
    }

    method ToSql() returns (r: Result<Sql, QueryError>)
      requires Mirrored(joins)
      requires forall r, p {:trigger HasEdge(joins, r, p)} :: HasEdge(joins, r, p) ==> p != ""
      modifies this`joins
      ensures r.Err? <==> queryParams.limit.Some? && queryParams.sorts == []
      ensures r.Ok? ==> exists sorted :: IsJoinOrder(old(joins), sorted) && Folded(r.value.joins, sorted)
      ensures r.Ok? ==>
        && r.value.selections == SelectionText(elements)
        && r.value.table == namespaceIdentifier + "." + entityName
        && r.value.filters == queryParams.filters && r.value.sorts == queryParams.sorts
        && r.value.page ==
             match queryParams.limit
             case None => None
             case Some(limit) => Some(Page(Projections(entityName, TopKeys(elements, 0)), limit, OrElse(queryParams.offset, 0), OrElse(alias, entityName)))
    {
      ghost var original := joins;
      var pieces := ParseQueryElementsIntoSelections(elements);
      var sortedJoins := GetTopologicallySortedJoins();
      forall c | c in sortedJoins ensures c.primaryTable != "" {
        assert IsEdge(original, c);
      }
      var clauses := FoldJoins(sortedJoins);
      var sql := Sql(Concat(pieces), namespaceIdentifier + "." + entityName, clauses, queryParams.filters, queryParams.sorts, None);
      match queryParams.limit {
        case Some(limit) =>
          if queryParams.sorts != [] {
            var projection := GetJsonSelectionsFromCte(elements, entityName);
            r := Ok(sql.(page := Some(Page(projection, limit, OrElse(queryParams.offset, 0), OrElse(alias, entityName)))));
          } else {
            r := Err(UnorderedPaginatedQuery);
          }
        case None =>
          r := Ok(sql);
      }
    }
  }

  function OrElse<T>(o: Option<T>, default: T): T {
    match o case Some(v) => v case None => default
  }

  /** The tables without dependencies, in whatever order the map yields them. */
  method StartNodes(joins: JoinMap) returns (start: seq<string>)
    ensures Pending(joins, map[], start)
  {
    start := [];
    var todo := joins.Keys;
    while todo != {}
      invariant todo <= joins.Keys
      invariant Distinct(start) && forall n :: n in start <==> n in joins.Keys - todo && joins[n].dependencies == map[]
    {
      var n :| n in todo;
      todo := todo - {n};
      if joins[n].dependencies == map[] {
        start := start + [n];
      }
    }
  }
}
