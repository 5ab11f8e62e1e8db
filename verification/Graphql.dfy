/** Selections, and the loop that flattens one query field into elements, joins and parameters. */
module Graphql {
  import opened Common
  import opened Arguments
  import opened Elements
  import opened Joins

  datatype Selection = Field(name: string, params: seq<ParamType>, sub: Selections, alias: Option<string>) | Fragment(name: string)

  datatype Selections = Selections(fieldType: string, hasFragments: bool, selections: seq<Selection>)

  /** lower-cased entity to (field to (table, column)) */
  type ForeignKeys = map<string, map<string, (string, string)>>

  function Qualify(ns: string, table: string): string {
    ns + "." + table
  }

  predicate IsObject(s: Selection) {
    s.Field? && s.sub.selections != []
  }

  function ForeignKey(fks: ForeignKeys, entity: string, field: string): Option<(string, string)> {
    if Lower(entity) in fks && Lower(field) in fks[Lower(entity)] then Some(fks[Lower(entity)][Lower(field)]) else None
  }

  /** The entity of an object field's sub-selections: the foreign table, or the field's own name. */
  function ChildEntity(fks: ForeignKeys, entity: string, field: string): string {
    match ForeignKey(fks, entity, field)
    case Some(fk) => fk.0
    case None => field
  }

  function Key(s: Selection): string
    requires s.Field?
  {
    match s.alias case Some(a) => a case None => s.name
  }

  function Leaf(ns: string, entity: string, s: Selection): QueryElement
    requires s.Field?
  {
    FieldElement(Key(s), Qualify(ns, entity) + "." + s.name)
  }

  // ----- the order in which selections are visited -----

  /** A selection and the entity that contains it. */
  datatype Visit = Visit(sel: Selection, entity: string)

  /** A selection before its sub-selections, and the last selection of a list first. */
  function Preorder(fks: ForeignKeys, list: seq<Selection>, entity: string): seq<Visit>
    decreases list
  {
    if list == [] then []
    else PreorderItem(fks, list[|list| - 1], entity) + Preorder(fks, list[..|list| - 1], entity)
  }

  function PreorderItem(fks: ForeignKeys, s: Selection, entity: string): (r: seq<Visit>)
    ensures r != [] && r[0] == Visit(s, entity)
    decreases s
  {
    [Visit(s, entity)] + if IsObject(s) then Preorder(fks, s.sub.selections, ChildEntity(fks, entity, s.name)) else []
  }

  /** The visits still owed by the two worklists, which are popped from their ends. */
  function Pending(fks: ForeignKeys, queue: seq<Selection>, entities: seq<string>): seq<Visit>
    requires |queue| == |entities|
  {
    if queue == [] then []
    else PreorderItem(fks, queue[|queue| - 1], entities[|queue| - 1]) + Pending(fks, queue[..|queue| - 1], entities[..|queue| - 1])
  }

  lemma {:induction false} PendingPush(fks: ForeignKeys, queue: seq<Selection>, entities: seq<string>, list: seq<Selection>, entity: string)
    requires |queue| == |entities|
    ensures Pending(fks, queue + list, entities + Repeat(entity, |list|)) == Preorder(fks, list, entity) + Pending(fks, queue, entities)
  {
    var q, e := queue + list, entities + Repeat(entity, |list|);
    if list == [] {
      assert q == queue && e == entities;
    } else {
      PendingPush(fks, queue, entities, list[..|list| - 1], entity);
      assert q[..|q| - 1] == queue + list[..|list| - 1];
      assert e[..|q| - 1] == entities + Repeat(entity, |list| - 1);
    }
  }

  lemma PendingAll(fks: ForeignKeys, list: seq<Selection>, entity: string)
    ensures Pending(fks, list, Repeat(entity, |list|)) == Preorder(fks, list, entity)
  {
    PendingPush(fks, [], [], list, entity);
    assert [] + list == list && [] + Repeat(entity, |list|) == Repeat(entity, |list|);
    assert Preorder(fks, list, entity) + [] == Preorder(fks, list, entity);
  }

  lemma PendingPop(fks: ForeignKeys, queue: seq<Selection>, entities: seq<string>)
    requires |queue| == |entities| > 0
    ensures var current, entity := queue[|queue| - 1], entities[|queue| - 1];
      var queue', entities' := queue[..|queue| - 1], entities[..|queue| - 1];
      && Pending(fks, queue, entities) != []
      && Pending(fks, queue, entities)[0] == Visit(current, entity)
      && Pending(fks, queue, entities)[1..] ==
           if IsObject(current)
           then Pending(fks, queue' + current.sub.selections,
                        entities' + Repeat(ChildEntity(fks, entity, current.name), |current.sub.selections|))
           else Pending(fks, queue', entities')
  {
    var current, entity := queue[|queue| - 1], entities[|queue| - 1];
    var queue', entities' := queue[..|queue| - 1], entities[..|queue| - 1];
    var item := PreorderItem(fks, current, entity);
    assert Pending(fks, queue, entities)[1..] == item[1..] + Pending(fks, queue', entities');
    if IsObject(current) {
      PendingPush(fks, queue', entities', current.sub.selections, ChildEntity(fks, entity, current.name));
    }
  }

  // ----- what the visits produce -----

  /** A visit after a selection that opened nothing closes one level when its entity is not the innermost one. */
  predicate Closes(stack: seq<string>, shrunk: bool, entity: string) {
    stack != [] && shrunk && stack[|stack| - 1] != entity
  }

  function EmitOne(ns: string, v: Visit, stack: seq<string>, shrunk: bool): seq<QueryElement> {
    (if Closes(stack, shrunk, v.entity) then [Closing] else [])
    + if v.sel.Fragment? then [] else if IsObject(v.sel) then [Opening(Key(v.sel))] else [Leaf(ns, v.entity, v.sel)]
  }

  function StackAfter(fks: ForeignKeys, v: Visit, stack: seq<string>, shrunk: bool): seq<string> {
    (if Closes(stack, shrunk, v.entity) then stack[..|stack| - 1] else stack)
    + if IsObject(v.sel) then [ChildEntity(fks, v.entity, v.sel.name)] else []
  }

  function Emit(fks: ForeignKeys, ns: string, visits: seq<Visit>, stack: seq<string>, shrunk: bool): seq<QueryElement> {
    if visits == [] then Closings(|stack|)
    else EmitOne(ns, visits[0], stack, shrunk)
         + Emit(fks, ns, visits[1..], StackAfter(fks, visits[0], stack, shrunk), !IsObject(visits[0].sel))
  }

  function JoinOf(fks: ForeignKeys, ns: string, v: Visit): Option<JoinCondition> {
    if !IsObject(v.sel) then None
    else match ForeignKey(fks, v.entity, v.sel.name)
      case None => None
      case Some((table, col)) => Some(JoinCondition(Qualify(ns, v.entity), v.sel.name, Qualify(ns, table), col))
  }

  function InsertJoin(joins: JoinMap, c: JoinCondition): JoinMap {
    var half := if c.referencingTable in joins
      then joins[c.referencingTable := joins[c.referencingTable].(dependencies := joins[c.referencingTable].dependencies[c.primaryTable := c])]
      else joins[c.referencingTable := QueryJoinNode(map[c.primaryTable := c], map[])];
    if c.primaryTable in half
    then half[c.primaryTable := half[c.primaryTable].(dependents := half[c.primaryTable].dependents[c.referencingTable := c])]
    else half[c.primaryTable := QueryJoinNode(map[], map[c.referencingTable := c])]
  }

  function JoinOne(fks: ForeignKeys, ns: string, joins: JoinMap, v: Visit): JoinMap {
    match JoinOf(fks, ns, v) case Some(c) => InsertJoin(joins, c) case None => joins
  }

  function JoinsAfter(fks: ForeignKeys, ns: string, joins: JoinMap, visits: seq<Visit>): JoinMap
    decreases |visits|
  {
    if visits == [] then joins
    else JoinsAfter(fks, ns, JoinOne(fks, ns, joins, visits[0]), visits[1..])
  }

  /** The table a visit's arguments apply to; arguments of an object field without foreign key are dropped. */
  function ParamTable(fks: ForeignKeys, ns: string, v: Visit): Option<string> {
    if v.sel.Fragment? then None
    else if !IsObject(v.sel) then Some(Qualify(ns, v.entity))
    else match ForeignKey(fks, v.entity, v.sel.name)
      case Some(fk) => Some(Qualify(ns, fk.0))
      case None => None
  }

  function ParamsOne(fks: ForeignKeys, ns: string, q: QueryParams, v: Visit): QueryParams {
    match ParamTable(fks, ns, v) case Some(t) => AddParams(q, v.sel.params, t) case None => q
  }

  function ParamsAfter(fks: ForeignKeys, ns: string, q: QueryParams, visits: seq<Visit>): QueryParams
    decreases |visits|
  {
    if visits == [] then q
    else ParamsAfter(fks, ns, ParamsOne(fks, ns, q, visits[0]), visits[1..])
  }

  /** What was produced so far, followed by what the owed visits will produce, is the whole result. */
  ghost predicate Tracks(fks: ForeignKeys, ns: string, visits: seq<Visit>, params0: QueryParams, owed: seq<Visit>,
                         elements: seq<QueryElement>, joins: JoinMap, queryParams: QueryParams, stack: seq<string>, shrunk: bool) {
    && elements + Emit(fks, ns, owed, stack, shrunk) == Emit(fks, ns, visits, [], true)
    && JoinsAfter(fks, ns, joins, owed) == JoinsAfter(fks, ns, map[], visits)
    && ParamsAfter(fks, ns, queryParams, owed) == ParamsAfter(fks, ns, params0, visits)
  }

  lemma TracksStep(fks: ForeignKeys, ns: string, visits: seq<Visit>, params0: QueryParams, owed: seq<Visit>,
                   elements: seq<QueryElement>, joins: JoinMap, queryParams: QueryParams, stack: seq<string>, shrunk: bool)
    requires owed != [] && Tracks(fks, ns, visits, params0, owed, elements, joins, queryParams, stack, shrunk)
    ensures Tracks(fks, ns, visits, params0, owed[1..], elements + EmitOne(ns, owed[0], stack, shrunk), JoinOne(fks, ns, joins, owed[0]),
                   ParamsOne(fks, ns, queryParams, owed[0]), StackAfter(fks, owed[0], stack, shrunk), !IsObject(owed[0].sel))
  {
    var rest := Emit(fks, ns, owed[1..], StackAfter(fks, owed[0], stack, shrunk), !IsObject(owed[0].sel));
    assert elements + (EmitOne(ns, owed[0], stack, shrunk) + rest) == elements + EmitOne(ns, owed[0], stack, shrunk) + rest;
  }

  /** The body of the loop for one popped selection: what it adds to the elements, joins, parameters and nesting stack. */
  method ResolveSelection(fks: ForeignKeys, ns: string, current: Selection, entity: string, shrunk: bool,
                          elements: seq<QueryElement>, joins: JoinMap, queryParams: QueryParams, stack: seq<string>)
    returns (elements': seq<QueryElement>, joins': JoinMap, queryParams': QueryParams, stack': seq<string>)
    ensures elements' == elements + EmitOne(ns, Visit(current, entity), stack, shrunk)
    ensures joins' == JoinOne(fks, ns, joins, Visit(current, entity))
    ensures queryParams' == ParamsOne(fks, ns, queryParams, Visit(current, entity))
    ensures stack' == StackAfter(fks, Visit(current, entity), stack, shrunk)
  {
    elements', joins', queryParams', stack' := elements, joins, queryParams, stack;
    if stack != [] && shrunk && stack[|stack| - 1] != entity {
      stack' := stack[..|stack| - 1];
      elements' := elements + [Closing];
    }
    if current.Field? {
      if current.sub.selections == [] {
        elements' := elements' + [Leaf(ns, entity, current)];
        if current.params != [] {
          queryParams' := ExtendParams(queryParams, current.params, Qualify(ns, entity));
        }
      } else {
        var newEntity := current.name;
        if Lower(entity) in fks && Lower(current.name) in fks[Lower(entity)] {
          var (table, col) := fks[Lower(entity)][Lower(current.name)];
          joins' := InsertJoin(joins, JoinCondition(Qualify(ns, entity), current.name, Qualify(ns, table), col));
          if table != current.name {
            newEntity := table;
          }
          if current.params != [] {
            queryParams' := ExtendParams(queryParams, current.params, Qualify(ns, table));
          }
        }
        stack' := stack' + [newEntity];
        elements' := elements' + [Opening(Key(current))];
      }
    }
  }

  /** The loop over one top-level field. */
  method ParseField(fks: ForeignKeys, ns: string, entityName: string, filters: seq<ParamType>, selections: Selections)
    returns (elements: seq<QueryElement>, joins: JoinMap, queryParams: QueryParams)
    ensures var visits := Preorder(fks, Reverse(selections.selections), entityName);
      && elements == Emit(fks, ns, visits, [], true)
      && joins == JoinsAfter(fks, ns, map[], visits)
      && queryParams == ParamsAfter(fks, ns, AddParams(NO_PARAMS, filters, Qualify(ns, entityName)), visits)
  {
    hide Tracks, Preorder, PreorderItem, Pending, Emit, JoinsAfter, ParamsAfter, EmitOne, JoinOne, ParamsOne, ChildEntity;
    ghost var visits := Preorder(fks, Reverse(selections.selections), entityName);
    var stack: seq<string> := [];
    elements, joins, queryParams := [], map[], NO_PARAMS;
    var entities := Repeat(entityName, |selections.selections|);
    var queue := Reverse(selections.selections);
    PendingAll(fks, queue, entityName);
    if filters != [] {
      queryParams := ExtendParams(queryParams, filters, Qualify(ns, entityName));
    }
    ghost var params0 := queryParams;
    var lastSeen := |entities|;
    TracksStart(fks, ns, visits, params0);

    while queue != []
      invariant |queue| == |entities|
      invariant Tracks(fks, ns, visits, params0, Pending(fks, queue, entities), elements, joins, queryParams, stack, |entities| <= lastSeen)
      decreases |Pending(fks, queue, entities)|
    {
      PendingPop(fks, queue, entities);
      TracksStep(fks, ns, visits, params0, Pending(fks, queue, entities), elements, joins, queryParams, stack, |entities| <= lastSeen);
      var current, entity := queue[|queue| - 1], entities[|entities| - 1];
      queue, entities := queue[..|queue| - 1], entities[..|entities| - 1];
      elements, joins, queryParams, stack :=
        ResolveSelection(fks, ns, current, entity, |entities| < lastSeen, elements, joins, queryParams, stack);
      lastSeen := |entities|;
      if current.Field? && current.sub.selections != [] {
        entities := entities + Repeat(stack[|stack| - 1], |current.sub.selections|);
        queue := queue + current.sub.selections;
      }
    }
    assert queue == [] && entities == [];
    PendingNone(fks);
    TracksEnd(fks, ns, visits, params0, Pending(fks, queue, entities), elements, joins, queryParams, stack, |entities| <= lastSeen);
    elements := elements + Closings(|stack|);
  }

  lemma PendingNone(fks: ForeignKeys)
    ensures Pending(fks, [], []) == []
  {
  }

  lemma TracksStart(fks: ForeignKeys, ns: string, visits: seq<Visit>, params0: QueryParams)
    ensures Tracks(fks, ns, visits, params0, visits, [], map[], params0, [], true)
  {
    assert [] + Emit(fks, ns, visits, [], true) == Emit(fks, ns, visits, [], true);
  }

  lemma TracksEnd(fks: ForeignKeys, ns: string, visits: seq<Visit>, params0: QueryParams, owed: seq<Visit>,
                  elements: seq<QueryElement>, joins: JoinMap, queryParams: QueryParams, stack: seq<string>, shrunk: bool)
    requires Tracks(fks, ns, visits, params0, owed, elements, joins, queryParams, stack, shrunk) && owed == []
    ensures elements + Closings(|stack|) == Emit(fks, ns, visits, [], true)
    ensures joins == JoinsAfter(fks, ns, map[], visits) && queryParams == ParamsAfter(fks, ns, params0, visits)
  {
  }
}
