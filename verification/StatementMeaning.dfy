/** What a statement asks of the database, read off the selection tree and the schema: which table each field stands
    for, and which filters, sorts and page its arguments make. */
module StatementMeaning {
  import opened Common
  import opened Arguments
  import opened Graphql
  import opened Queries
  import opened Operations

  // ----- where a field stands -----

  /** The table an object field's selections are read from: the one its foreign key leads to, or one of its own name. */
  function TableOf(fks: ForeignKeys, entity: string, field: string): string {
    if Lower(entity) in fks && Lower(field) in fks[Lower(entity)] then fks[Lower(entity)][Lower(field)].0 else field
  }

  /** Following the positions of the path down the tree leads to the selection, under the entity of its set. */
  ghost predicate Occurs(fks: ForeignKeys, list: seq<Selection>, entity: string, path: seq<nat>, v: Visit)
    decreases |path|
  {
    && path != [] && path[0] < |list|
    && var s := list[path[0]];
       if |path| == 1 then v == Visit(s, entity)
       else s.Field? && Occurs(fks, s.sub.selections, TableOf(fks, entity, s.name), path[1..], v)
  }

  lemma {:induction false} VisitedOccurs(fks: ForeignKeys, list: seq<Selection>, entity: string, v: Visit) returns (path: seq<nat>)
    requires v in Preorder(fks, list, entity)
    ensures Occurs(fks, list, entity, path, v)
    decreases list
  {
    var n := |list| - 1;
    var s := list[n];
    if v in Preorder(fks, list[..n], entity) {
      path := VisitedOccurs(fks, list[..n], entity, v);
    } else if v == Visit(s, entity) {
      path := [n];
    } else {
      var inner := VisitedOccurs(fks, s.sub.selections, ChildEntity(fks, entity, s.name), v);
      path := [n] + inner;
      assert path[1..] == inner;
    }
  }

  lemma {:induction false} OccursVisited(fks: ForeignKeys, list: seq<Selection>, entity: string, path: seq<nat>, v: Visit)
    requires Occurs(fks, list, entity, path, v)
    ensures v in Preorder(fks, list, entity)
    decreases |path|, |list|
  {
    var n := |list| - 1;
    if path[0] < n {
      assert list[..n][path[0]] == list[path[0]];
      OccursVisited(fks, list[..n], entity, path, v);
    } else if |path| > 1 {
      OccursVisited(fks, list[n].sub.selections, ChildEntity(fks, entity, list[n].name), path[1..], v);
    }
  }

  ghost predicate Stands(fks: ForeignKeys, list: seq<Selection>, entity: string, v: Visit) {
    exists path: seq<nat> :: Occurs(fks, list, entity, path, v)
  }

  /** Exactly the selections of the tree are visited, each with the table of the set it stands in. */
  lemma {:induction false} VisitedIff(fks: ForeignKeys, list: seq<Selection>, entity: string, v: Visit)
    ensures v in Preorder(fks, list, entity) <==> Stands(fks, list, entity, v)
  {
    hide Occurs, Preorder;
    if v in Preorder(fks, list, entity) {
      var path := VisitedOccurs(fks, list, entity, v);
      assert Stands(fks, list, entity, v);
    }
    if Stands(fks, list, entity, v) {
      var path: seq<nat> :| Occurs(fks, list, entity, path, v);
      OccursVisited(fks, list, entity, path, v);
    }
  }

  // ----- what the arguments make -----

  /** An argument and the table it is about. */
  datatype Placed = Placed(param: ParamType, table: string)

  function PlacedAll(params: seq<ParamType>, table: string): (r: seq<Placed>)
    ensures |r| == |params| && forall i :: 0 <= i < |params| ==> r[i] == Placed(params[i], table)
  {
    seq(|params|, i requires 0 <= i < |params| => Placed(params[i], table))
  }

  /** A column's arguments are about the table of its set, an object field's about its foreign table; those of an object
      field without a foreign key are dropped. */
  function PlacedOf(fks: ForeignKeys, ns: string, v: Visit): seq<Placed> {
    if v.sel.Fragment? then []
    else if v.sel.sub.selections == [] then PlacedAll(v.sel.params, ns + "." + v.entity)
    else if Lower(v.entity) in fks && Lower(v.sel.name) in fks[Lower(v.entity)] then
      PlacedAll(v.sel.params, ns + "." + fks[Lower(v.entity)][Lower(v.sel.name)].0)
    else []
  }

  function PlacedIn(fks: ForeignKeys, ns: string, visits: seq<Visit>): seq<Placed> {
    if visits == [] then [] else PlacedOf(fks, ns, visits[0]) + PlacedIn(fks, ns, visits[1..])
  }

  /** All arguments below a top-level field, its own ones first. */
  function FieldPlaced(fks: ForeignKeys, ns: string, field: Selection): seq<Placed>
    requires field.Field?
  {
    PlacedAll(field.params, ns + "." + field.name) + PlacedIn(fks, ns, FieldVisits(fks, field))
  }

  function FiltersIn(placed: seq<Placed>): seq<Filter> {
    if placed == [] then [] else FilterOf(placed[0]) + FiltersIn(placed[1..])
  }

  function FilterOf(p: Placed): seq<Filter> {
    match p.param
    case FilterParam(f) => [Filter(table := p.table, filterType := f)]
    case _ => []
  }

  function SortsIn(placed: seq<Placed>): seq<Sort> {
    if placed == [] then [] else SortOf(placed[0]) + SortsIn(placed[1..])
  }

  function SortOf(p: Placed): seq<Sort> {
    match p.param
    case SortParam(field, order) => [Sort(column := p.table + "." + field, order := order)]
    case _ => []
  }

  /** The last limit among the arguments. */
  function LimitIn(placed: seq<Placed>): Option<nat> {
    if placed == [] then None
    else
      var later := LimitIn(placed[1..]);
      if later.None? && placed[0].param.LimitParam? then Some(placed[0].param.n) else later
  }

  function OffsetIn(placed: seq<Placed>): Option<nat> {
    if placed == [] then None
    else
      var later := OffsetIn(placed[1..]);
      if later.None? && placed[0].param.OffsetParam? then Some(placed[0].param.n) else later
  }

  function Latest(earlier: Option<nat>, later: Option<nat>): Option<nat> {
    if later.Some? then later else earlier
  }

  /** The parameters gathered so far, and what these arguments add to them. */
  ghost predicate Adds(q: QueryParams, placed: seq<Placed>, r: QueryParams) {
    && r.filters == q.filters + FiltersIn(placed) && r.sorts == q.sorts + SortsIn(placed)
    && r.limit == Latest(q.limit, LimitIn(placed)) && r.offset == Latest(q.offset, OffsetIn(placed))
  }

  lemma AddsNothing(q: QueryParams)
    ensures Adds(q, [], q)
  {
    assert q.filters + [] == q.filters && q.sorts + [] == q.sorts;
  }

  lemma {:induction false} FiltersAppend(a: seq<Placed>, b: seq<Placed>)
    ensures FiltersIn(a + b) == FiltersIn(a) + FiltersIn(b)
  {
    if a == [] {
      assert a + b == b;
    } else {
      hide FilterOf;
      assert (a + b)[1..] == a[1..] + b;
      FiltersAppend(a[1..], b);
    }
  }

  lemma {:induction false} SortsAppend(a: seq<Placed>, b: seq<Placed>)
    ensures SortsIn(a + b) == SortsIn(a) + SortsIn(b)
  {
    if a == [] {
      assert a + b == b;
    } else {
      hide SortOf;
      assert (a + b)[1..] == a[1..] + b;
      SortsAppend(a[1..], b);
    }
  }

  lemma {:induction false} NumbersAppend(a: seq<Placed>, b: seq<Placed>)
    ensures LimitIn(a + b) == Latest(LimitIn(a), LimitIn(b)) && OffsetIn(a + b) == Latest(OffsetIn(a), OffsetIn(b))
  {
    if a == [] {
      assert a + b == b;
    } else {
      assert (a + b)[1..] == a[1..] + b;
      NumbersAppend(a[1..], b);
    }
  }

  lemma {:induction false} AddsBoth(q: QueryParams, a: seq<Placed>, r: QueryParams, b: seq<Placed>, s: QueryParams)
    requires Adds(q, a, r) && Adds(r, b, s)
    ensures Adds(q, a + b, s)
  {
    hide FiltersIn, SortsIn, LimitIn, OffsetIn;
    FiltersAppend(a, b);
    SortsAppend(a, b);
    NumbersAppend(a, b);
    assert q.filters + FiltersIn(a) + FiltersIn(b) == q.filters + (FiltersIn(a) + FiltersIn(b));
    assert q.sorts + SortsIn(a) + SortsIn(b) == q.sorts + (SortsIn(a) + SortsIn(b));
  }

  lemma AddsOne(q: QueryParams, p: ParamType, table: string)
    ensures Adds(q, [Placed(p, table)], AddParam(q, p, table))
  {
    assert [Placed(p, table)][1..] == [];
  }

  lemma {:induction false} ParamsAdd(q: QueryParams, params: seq<ParamType>, table: string)
    ensures Adds(q, PlacedAll(params, table), AddParams(q, params, table))
    decreases |params|
  {
    AddsNothing(q);
    if params == [] {
      assert PlacedAll(params, table) == [];
    } else {
      hide Adds;
      var next := AddParam(q, params[0], table);
      AddsOne(q, params[0], table);
      ParamsAdd(next, params[1..], table);
      AddsBoth(q, [Placed(params[0], table)], next, PlacedAll(params[1..], table), AddParams(next, params[1..], table));
      assert [Placed(params[0], table)] + PlacedAll(params[1..], table) == PlacedAll(params, table);
    }
  }

  lemma {:induction false} VisitAdds(fks: ForeignKeys, ns: string, q: QueryParams, v: Visit)
    ensures Adds(q, PlacedOf(fks, ns, v), ParamsOne(fks, ns, q, v))
  {
    AddsNothing(q);
    hide Adds, AddParams;
    match ParamTable(fks, ns, v) {
      case Some(table) => ParamsAdd(q, v.sel.params, table);
      case None =>
    }
  }

  lemma {:induction false} VisitsAdd(fks: ForeignKeys, ns: string, q: QueryParams, visits: seq<Visit>)
    ensures Adds(q, PlacedIn(fks, ns, visits), ParamsAfter(fks, ns, q, visits))
    decreases |visits|
  {
    AddsNothing(q);
    if visits != [] {
      hide Adds, ParamsOne, PlacedOf;
      var next := ParamsOne(fks, ns, q, visits[0]);
      VisitAdds(fks, ns, q, visits[0]);
      VisitsAdd(fks, ns, next, visits[1..]);
      AddsBoth(q, PlacedOf(fks, ns, visits[0]), next, PlacedIn(fks, ns, visits[1..]), ParamsAfter(fks, ns, next, visits[1..]));
    }
  }

  /** The filters and sorts of a statement are those of the arguments below its field, in the order they are met and
      each on its own table; the last limit makes the page, which starts at the last offset, or at the first row. */
  lemma {:induction false} StatementParams(fks: ForeignKeys, ns: string, field: Selection, sql: Sql)
    requires field.Field? && IsSqlOf(fks, ns, field, sql)
    ensures var placed := FieldPlaced(fks, ns, field);
      && sql.filters == FiltersIn(placed) && sql.sorts == SortsIn(placed)
      && (sql.page.Some? <==> LimitIn(placed).Some?)
      && (sql.page.Some? ==>
            && Some(sql.page.value.limit) == LimitIn(placed)
            && sql.page.value.offset == (if OffsetIn(placed).Some? then OffsetIn(placed).value else 0)
            && sql.page.value.alias == (if field.alias.Some? then field.alias.value else field.name))
  {
    hide ParamsAfter, AddParams, Preorder;
    var own := AddParams(NO_PARAMS, field.params, Qualify(ns, field.name));
    var visits := FieldVisits(fks, field);
    ParamsAdd(NO_PARAMS, field.params, ns + "." + field.name);
    VisitsAdd(fks, ns, own, visits);
    AddsBoth(NO_PARAMS, PlacedAll(field.params, ns + "." + field.name), own, PlacedIn(fks, ns, visits), ParamsAfter(fks, ns, own, visits));
  }
}
