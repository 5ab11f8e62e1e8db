/** From a parsed document to its operations: selection lists are checked against the schema and built, fragments
    settled, and operations resolved against them. */
module Builder {
  import opened Common
  import opened Arguments
  import opened Graphql
  import opened Schemas
  import opened Fragments
  import opened FragmentProcess
  import opened FragmentCorrectness
  import opened Operations
  import FilterParsing
  import Syntax

  // ----- selection lists -----

  function Params(schema: Schema, entity: string, arguments: seq<Syntax.Entry>): Result<seq<ParamType>, FilterParsing.FilterError> {
    if arguments == [] then Ok([])
    else match FilterParsing.ParseArgument(schema, entity, arguments[0].name, arguments[0].value)
      case Err(e) => Err(e)
      case Ok(param) =>
        match Params(schema, entity, arguments[1..])
        case Err(e) => Err(e)
        case Ok(rest) => Ok([param] + rest)
  }

  function Construct(schema: Schema, cond: string, items: seq<Syntax.Selection>): Outcome<seq<Selection>>
    decreases items
  {
    if items == [] then Done([])
    else Both(ConstructOne(schema, cond, items[0]), Construct(schema, cond, items[1..]))
  }

  function ConstructOne(schema: Schema, cond: string, item: Syntax.Selection): Outcome<seq<Selection>>
    decreases item
  {
    match item
    case InlineFragment(_, _, _) => Failed(SelectionNotSupported)
    case FragmentSpread(name, _) => Done([Fragment(name)])
    case Field(alias, name, arguments, _, items) =>
      match schema.FieldType(cond, name)
      case None => Failed(UnrecognizedField(cond, name))
      case Some(fieldType) =>
        match Params(schema, fieldType, arguments)
        case Err(e) => Failed(ArgumentProblem(e))
        case Ok(params) => FieldOf(name, params, alias, fieldType, Construct(schema, fieldType, items))
  }

  function FieldOf(name: string, params: seq<ParamType>, alias: Option<string>, fieldType: string, list: Outcome<seq<Selection>>):
    Outcome<seq<Selection>>
  {
    match list
    case Done(l) => Done([Field(name, params, Flagging(fieldType, l), alias)])
    case Failed(e) => Failed(e)
    case Panicked => Panicked
  }

  /** The flag of a built list tells whether it spreads a fragment directly. */
  function Flagging(fieldType: string, list: seq<Selection>): Selections {
    Selections(fieldType, DirectSpreads(list) > 0, list)
  }

  function Both<T>(a: Outcome<seq<T>>, b: Outcome<seq<T>>): Outcome<seq<T>> {
    if !a.Done? then a else if !b.Done? then b else Done(a.value + b.value)
  }

  function Selecting(fieldType: string, list: Outcome<seq<Selection>>): Outcome<Selections> {
    match list
    case Done(l) => Done(Flagging(fieldType, l))
    case Failed(e) => Failed(e)
    case Panicked => Panicked
  }

  method NewSelections(schema: Schema, fieldType: string, items: seq<Syntax.Selection>) returns (r: Outcome<Selections>)
    ensures r == Selecting(fieldType, Construct(schema, fieldType, items))
    decreases items
  {
    hide Params, DirectSpreads;
    var list: seq<Selection>, hasFragments := [], false;
    NoSpreads();
    BothNothing(Construct(schema, fieldType, items));
    assert items[0..] == items;
    for i := 0 to |items|
      invariant Construct(schema, fieldType, items) == Both(Done(list), Construct(schema, fieldType, items[i..]))
      invariant hasFragments <==> DirectSpreads(list) > 0
    {
      assert items[i..][0] == items[i] && items[i..][1..] == items[i + 1..];
      var next: Selection;
      match items[i] {
        case InlineFragment(_, _, _) => return Failed(SelectionNotSupported);
        case FragmentSpread(name, _) =>
          hasFragments := true;
          next := Fragment(name);
        case Field(alias, name, arguments, _, subItems) =>
          var subType := schema.FieldType(fieldType, name);
          if subType.None? {
            return Failed(UnrecognizedField(fieldType, name));
          }
          var params := Params(schema, subType.value, arguments);
          if params.Err? {
            return Failed(ArgumentProblem(params.error));
          }
          var sub := NewSelections(schema, subType.value, subItems);
          if sub.Failed? {
            return Failed(sub.error);
          } else if sub.Panicked? {
            return Panicked;
          }
          next := Field(name, params.value, sub.value, alias);
      }
      BothTwice(list, [next], Construct(schema, fieldType, items[i + 1..]));
      SpreadsNext(list, next);
      list := list + [next];
    }
    assert items[|items|..] == [];
    BothEnds(list);
    return Done(Selections(fieldType, hasFragments, list));
  }

  lemma NoSpreads()
    ensures DirectSpreads([]) == 0
  {
  }

  lemma SpreadsNext(list: seq<Selection>, next: Selection)
    ensures DirectSpreads(list + [next]) > 0 <==> DirectSpreads(list) > 0 || next.Fragment?
  {
    DirectSpreadsAppend(list, [next]);
    assert [next][1..] == [];
  }

  lemma BothEnds<T>(a: seq<T>)
    ensures Both(Done(a), Done([])) == Done(a)
  {
    assert a + [] == a;
  }

  lemma BothNothing<T>(a: Outcome<seq<T>>)
    ensures Both(Done([]), a) == a
  {
    if a.Done? {
      assert [] + a.value == a.value;
    }
  }

  lemma BothTwice<T>(a: seq<T>, b: seq<T>, rest: Outcome<seq<T>>)
    ensures Both(Done(a), Both(Done(b), rest)) == Both(Done(a + b), rest)
  {
    if rest.Done? {
      assert a + (b + rest.value) == a + b + rest.value;
    }
  }

  // ----- fragment definitions -----

  /** The entry of a fragment definition; other definitions have none. */
  function DefinitionEntry(schema: Schema, d: Syntax.Definition): Outcome<seq<Entry>> {
    if !d.Fragment? then Done([])
    else if d.on !in schema.types then Failed(UnrecognizedType(d.on))
    else match Construct(schema, d.on, d.items)
      case Done(list) => Done([(d.fragment, FragmentDef(d.on, Flagging(d.on, list)))])
      case Failed(e) => Failed(e)
      case Panicked => Panicked
  }

  function Entries(schema: Schema, d: Syntax.Document): Outcome<seq<Entry>> {
    if d == [] then Done([]) else Both(Entries(schema, d[..|d| - 1]), DefinitionEntry(schema, d[|d| - 1]))
  }

  /** The first definition that fails decides. */
  lemma {:induction false} EntriesFail(schema: Schema, d: Syntax.Document, i: nat)
    requires i <= |d| && !Entries(schema, d[..i]).Done?
    ensures Entries(schema, d) == Entries(schema, d[..i])
  {
    if i == |d| {
      assert d[..i] == d;
    } else {
      assert d[..|d| - 1][..i] == d[..i];
      EntriesFail(schema, d[..|d| - 1], i);
    }
  }

  lemma {:induction false} EntriesFlagged(schema: Schema, d: Syntax.Document)
    requires Entries(schema, d).Done?
    ensures forall e :: e in Entries(schema, d).value ==> Flagged(e)
  {
    if d != [] {
      EntriesFlagged(schema, d[..|d| - 1]);
    }
  }

  function DocumentFragments(schema: Schema, d: Syntax.Document): Outcome<FragmentMap> {
    match Entries(schema, d)
    case Done(defs) =>
      EntriesFlagged(schema, d);
      Process(schema, defs)
    case Failed(e) => Failed(e)
    case Panicked => Panicked
  }

  method ProcessFragments(schema: Schema, d: Syntax.Document) returns (result: Outcome<FragmentMap>)
    ensures result == DocumentFragments(schema, d)
  {
    hide Construct, DirectSpreads, Settle, FieldOf;
    var fragments: FragmentMap := map[];
    var toResolve: seq<Entry> := [];
    for i := 0 to |d|
      invariant Entries(schema, d[..i]).Done?
      invariant fragments == Ready(Entries(schema, d[..i]).value) && toResolve == Waiting(Entries(schema, d[..i]).value)
    {
      EntriesNext(schema, d, i);
      if d[i].Fragment? {
        var name, cond, items := d[i].fragment, d[i].on, d[i].items;
        if cond !in schema.types {
          EntriesFail(schema, d, i + 1);
          return Failed(UnrecognizedType(cond));
        }
        var selections := NewSelections(schema, cond, items);
        if !selections.Done? {
          EntriesFail(schema, d, i + 1);
          return if selections.Failed? then Failed(selections.error) else Panicked;
        }
        WaitingNext(Entries(schema, d[..i]).value, (name, FragmentDef(cond, selections.value)));
        if selections.value.hasFragments {
          toResolve := toResolve + [(name, FragmentDef(cond, selections.value))];
        } else {
          fragments := fragments[name := FragmentDef(cond, selections.value)];
        }
      }
    }
    assert d[..|d|] == d;
    EntriesFlagged(schema, d);
    ReadyIsClean(Entries(schema, d).value);
    result := SettleFragments(schema, toResolve, fragments);
  }

  lemma EntriesNext(schema: Schema, d: Syntax.Document, i: nat)
    requires i < |d|
    ensures Entries(schema, d[..i + 1]) == Both(Entries(schema, d[..i]), DefinitionEntry(schema, d[i]))
    ensures !d[i].Fragment? ==> Entries(schema, d[..i + 1]) == Entries(schema, d[..i])
  {
    assert d[..i + 1][..i] == d[..i];
    if Entries(schema, d[..i]).Done? {
      assert Entries(schema, d[..i]).value + [] == Entries(schema, d[..i]).value;
    }
  }

  lemma WaitingNext(defs: seq<Entry>, e: Entry)
    ensures Ready(defs + [e]) == if e.1.selections.hasFragments then Ready(defs) else Ready(defs)[e.0 := e.1]
    ensures Waiting(defs + [e]) == if e.1.selections.hasFragments then Waiting(defs) + [e] else Waiting(defs)
  {
    assert (defs + [e])[..|defs|] == defs;
    assert Waiting(defs) + [] == Waiting(defs);
  }

  // ----- operations -----

  const UNNAMED := "Unnamed"

  /** The operation of a definition; fragment definitions have none. */
  function DefinitionOperation(schema: Schema, d: Syntax.Definition, fragments: FragmentMap): Outcome<seq<Operation>> {
    match d
    case Fragment(_, _, _, _) => Done([])
    case SelectionSet(items) => OperationOf(schema, UNNAMED, Selecting(schema.query, Construct(schema, schema.query, items)))
    case Operation(Query, name, _, _, items) =>
      (match Construct(schema, schema.query, items)
       case Failed(e) => Failed(e)
       case Panicked => Panicked
       case Done(list) =>
         OperationOf(schema, if name.Some? then name.value else UNNAMED,
                     Resolving(schema.query, Resolve(schema, schema.query, list, fragments))))
    case Operation(Mutation, _, _, _, _) => Failed(OperationNotSupported("Mutation"))
    case Operation(Subscription, _, _, _, _) => Failed(OperationNotSupported("Subscription"))
  }

  function Resolving(fieldType: string, outcome: Outcome<Resolution>): Outcome<Selections> {
    match outcome
    case Done(r) => Done(Selections(fieldType, r.left, r.list))
    case Failed(e) => Failed(e)
    case Panicked => Panicked
  }

  function OperationOf(schema: Schema, name: string, selections: Outcome<Selections>): Outcome<seq<Operation>> {
    match selections
    case Done(s) => Done([Operation(schema.namespace, schema.identifier, name, s)])
    case Failed(e) => Failed(e)
    case Panicked => Panicked
  }

  function DocumentOperations(schema: Schema, d: Syntax.Document, fragments: FragmentMap): Outcome<seq<Operation>> {
    if d == [] then Done([])
    else Both(DefinitionOperation(schema, d[0], fragments), DocumentOperations(schema, d[1..], fragments))
  }

  method ProcessOperation(schema: Schema, d: Syntax.Definition, fragments: FragmentMap) returns (r: Outcome<seq<Operation>>)
    requires !d.Fragment?
    ensures r == DefinitionOperation(schema, d, fragments)
  {
    var name, selections := UNNAMED, Panicked;
    match d {
      case SelectionSet(items) =>
        selections := NewSelections(schema, schema.query, items);
      case Operation(Query, given, _, _, items) =>
        selections := NewSelections(schema, schema.query, items);
        if selections.Done? {
          name := if given.Some? then given.value else UNNAMED;
          var outcome := ResolveFragments(schema, schema.query, selections.value, fragments);
          selections := if outcome.Done? then Done(outcome.value.0) else if outcome.Failed? then Failed(outcome.error) else Panicked;
        }
      case Operation(Mutation, _, _, _, _) => selections := Failed(OperationNotSupported("Mutation"));
      case Operation(Subscription, _, _, _, _) => selections := Failed(OperationNotSupported("Subscription"));
    }
    return OperationOf(schema, name, selections);
  }

  method ProcessOperations(schema: Schema, d: Syntax.Document, fragments: FragmentMap) returns (r: Outcome<seq<Operation>>)
    ensures r == DocumentOperations(schema, d, fragments)
  {
    var operations: seq<Operation> := [];
    BothNothing(DocumentOperations(schema, d, fragments));
    assert d[0..] == d;
    for i := 0 to |d|
      invariant DocumentOperations(schema, d, fragments) == Both(Done(operations), DocumentOperations(schema, d[i..], fragments))
    {
      assert d[i..][0] == d[i] && d[i..][1..] == d[i + 1..];
      BothNothing(DocumentOperations(schema, d[i + 1..], fragments));
      if !d[i].Fragment? {
        var operation := ProcessOperation(schema, d[i], fragments);
        if !operation.Done? {
          return operation;
        }
        BothTwice(operations, operation.value, DocumentOperations(schema, d[i + 1..], fragments));
        operations := operations + operation.value;
      }
    }
    assert d[|d|..] == [] && operations + [] == operations;
    return Done(operations);
  }

  function Built(schema: Schema, d: Syntax.Document): Outcome<GraphqlQuery> {
    match DocumentFragments(schema, d)
    case Failed(e) => Failed(e)
    case Panicked => Panicked
    case Done(fragments) =>
      match DocumentOperations(schema, d, fragments)
      case Done(operations) => Done(GraphqlQuery(operations))
      case Failed(e) => Failed(e)
      case Panicked => Panicked
  }

  method Build(schema: Schema, d: Syntax.Document) returns (r: Outcome<GraphqlQuery>)
    ensures r == Built(schema, d)
  {
    var fragments := ProcessFragments(schema, d);
    if fragments.Failed? {
      return Failed(fragments.error);
    } else if fragments.Panicked? {
      return Panicked;
    }
    var operations := ProcessOperations(schema, d, fragments.value);
    return if operations.Done? then Done(GraphqlQuery(operations.value))
           else if operations.Failed? then Failed(operations.error) else Panicked;
  }

  // ----- no field lookup fails -----

  /** Every field exists under its parent's type, at every depth. */
  predicate Typed(schema: Schema, cond: string, list: seq<Selection>) {
    Fits(schema, cond, list, map[])
  }

  ghost predicate AllTyped(schema: Schema, fragments: FragmentMap) {
    forall n :: n in fragments ==> Typed(schema, fragments[n].cond, fragments[n].selections.selections)
  }

  lemma {:induction false} ConstructTyped(schema: Schema, cond: string, items: seq<Syntax.Selection>)
    ensures !Construct(schema, cond, items).Panicked?
    ensures Construct(schema, cond, items).Done? ==> Typed(schema, cond, Construct(schema, cond, items).value)
    decreases items
  {
    if items != [] {
      ConstructTyped(schema, cond, items[1..]);
      if items[0].Field? && schema.FieldType(cond, items[0].name).Some? {
        ConstructTyped(schema, schema.FieldType(cond, items[0].name).value, items[0].items);
      }
      var head, tail := ConstructOne(schema, cond, items[0]), Construct(schema, cond, items[1..]);
      if head.Done? && tail.Done? {
        assert head.value[1..] == [];
        FitsAppend(schema, cond, head.value, tail.value, map[]);
      }
    }
  }

  /** Resolving well-typed selections against well-typed fragments never panics, and keeps them well-typed. */
  lemma {:induction false} ResolveTyped(schema: Schema, cond: string, list: seq<Selection>, fragments: FragmentMap)
    requires Typed(schema, cond, list) && AllTyped(schema, fragments)
    ensures !Resolve(schema, cond, list, fragments).Panicked?
    ensures Resolve(schema, cond, list, fragments).Done? ==> Typed(schema, cond, Resolve(schema, cond, list, fragments).value.list)
    decreases list
  {
    if list != [] {
      ResolveTyped(schema, cond, list[1..], fragments);
      if list[0].Field? {
        ResolveTyped(schema, schema.FieldType(cond, list[0].name).value, list[0].sub.selections, fragments);
      }
      var head, tail := ResolveOne(schema, cond, list[0], fragments), Resolve(schema, cond, list[1..], fragments);
      if head.Done? && tail.Done? {
        if list[0].Field? || list[0].name !in fragments {
          assert head.value.list[1..] == [];
        }
        FitsAppend(schema, cond, head.value.list, tail.value.list, map[]);
      }
    }
  }

  ghost predicate EntriesTyped(schema: Schema, entries: seq<Entry>) {
    forall e :: e in entries ==> Typed(schema, e.1.cond, e.1.selections.selections)
  }

  lemma {:induction false} PassTyped(schema: Schema, todo: seq<Entry>, pass: Pass)
    requires EntriesTyped(schema, todo) && EntriesTyped(schema, pass.remaining) && AllTyped(schema, pass.fragments)
    ensures !RunPass(schema, todo, pass).Panicked?
    ensures RunPass(schema, todo, pass).Done? ==>
      var next := RunPass(schema, todo, pass).value; EntriesTyped(schema, next.remaining) && AllTyped(schema, next.fragments)
    decreases |todo|
  {
    if todo != [] {
      assert todo[0] in todo;
      hide Resolve, Fits;
      ResolveTyped(schema, todo[0].1.cond, todo[0].1.selections.selections, pass.fragments);
      var next := Step(schema, todo[0], pass);
      if next.Done? {
        PassTyped(schema, todo[1..], next.value);
      }
    }
  }

  lemma {:induction false} SettleTyped(schema: Schema, todo: seq<Entry>, fragments: FragmentMap)
    requires Clean(fragments) && EntriesTyped(schema, todo) && AllTyped(schema, fragments)
    ensures !Settle(schema, todo, fragments).Panicked?
    ensures Settle(schema, todo, fragments).Done? ==> AllTyped(schema, Settle(schema, todo, fragments).value)
    decreases TotalSpreads(todo)
  {
    var start := Pass(fragments, 0, []);
    PassTyped(schema, todo, start);
    var outcome := RunPass(schema, todo, start);
    if outcome.Done? {
      PassCounts(schema, todo, start);
      if outcome.value.remaining != [] && outcome.value.resolved > 0 {
        SettleTyped(schema, outcome.value.remaining, outcome.value.fragments);
      }
    }
  }

  lemma {:induction false} EntriesAreTyped(schema: Schema, d: Syntax.Document)
    ensures !Entries(schema, d).Panicked?
    ensures Entries(schema, d).Done? ==> EntriesTyped(schema, Entries(schema, d).value)
  {
    if d != [] {
      var last := d[|d| - 1];
      EntriesAreTyped(schema, d[..|d| - 1]);
      if last.Fragment? {
        ConstructTyped(schema, last.on, last.items);
      }
    }
  }

  lemma {:induction false} ReadyTyped(schema: Schema, defs: seq<Entry>)
    requires EntriesTyped(schema, defs)
    ensures AllTyped(schema, Ready(defs)) && EntriesTyped(schema, Waiting(defs))
  {
    if defs != [] {
      assert defs[|defs| - 1] in defs;
      ReadyTyped(schema, defs[..|defs| - 1]);
    }
  }

  lemma {:induction false} OperationsNeverPanic(schema: Schema, d: Syntax.Document, fragments: FragmentMap)
    requires AllTyped(schema, fragments)
    ensures !DocumentOperations(schema, d, fragments).Panicked?
  {
    if d != [] {
      if d[0].SelectionSet? || d[0].Operation? {
        ConstructTyped(schema, schema.query, d[0].items);
        var list := Construct(schema, schema.query, d[0].items);
        if list.Done? {
          ResolveTyped(schema, schema.query, list.value, fragments);
        }
      }
      OperationsNeverPanic(schema, d[1..], fragments);
    }
  }

  /** Whatever the document and the schema, building ends with operations or an error: no field lookup of the
      fragment resolver fails. */
  lemma {:induction false} BuildNeverPanics(schema: Schema, d: Syntax.Document)
    ensures !Built(schema, d).Panicked?
  {
    EntriesAreTyped(schema, d);
    if Entries(schema, d).Done? {
      var defs := Entries(schema, d).value;
      EntriesFlagged(schema, d);
      ReadyIsClean(defs);
      ReadyTyped(schema, defs);
      SettleTyped(schema, Waiting(defs), Ready(defs));
      if DocumentFragments(schema, d).Done? {
        OperationsNeverPanic(schema, d, DocumentFragments(schema, d).value);
      }
    }
  }

  // ----- when the fragments of a document settle -----

  /** Spreads of defined fragments stand under those fragments' own type. */
  predicate SpreadsMatch(schema: Schema, cond: string, list: seq<Selection>, conds: map<string, string>)
    decreases list
  {
    list == [] ||
    (&& (match list[0]
         case Fragment(name) => name in conds ==> conds[name] == cond
         case Field(name, _, sub, _) =>
           schema.FieldType(cond, name).Some? ==> SpreadsMatch(schema, schema.FieldType(cond, name).value, sub.selections, conds))
     && SpreadsMatch(schema, cond, list[1..], conds))
  }

  lemma {:induction false} TypedFits(schema: Schema, cond: string, list: seq<Selection>, conds: map<string, string>)
    requires Typed(schema, cond, list) && SpreadsMatch(schema, cond, list, conds)
    ensures Fits(schema, cond, list, conds)
    decreases list
  {
    if list != [] {
      TypedFits(schema, cond, list[1..], conds);
      if list[0].Field? {
        TypedFits(schema, schema.FieldType(cond, list[0].name).value, list[0].sub.selections, conds);
      }
    }
  }

  /** Names of their own, and spreads that stand under the types of the fragments they name. */
  ghost predicate Matching(schema: Schema, d: Syntax.Document)
    requires Entries(schema, d).Done?
  {
    var originals := Definitions(Entries(schema, d).value);
    && UniqueNames(Entries(schema, d).value)
    && forall n :: n in originals ==> SpreadsMatch(schema, originals[n].cond, originals[n].selections.selections, Conds(originals))
  }

  lemma {:induction false} MatchingWellFormed(schema: Schema, d: Syntax.Document)
    requires Entries(schema, d).Done? && Matching(schema, d)
    ensures WellFormed(schema, Entries(schema, d).value)
  {
    var defs := Entries(schema, d).value;
    var originals := Definitions(defs);
    EntriesFlagged(schema, d);
    EntriesAreTyped(schema, d);
    forall n | n in originals
      ensures Fits(schema, originals[n].cond, originals[n].selections.selections, Conds(originals))
    {
      var i := DefinedSomewhere(defs, n);
      DefinitionAt(defs, i);
      assert defs[i] in defs;
      TypedFits(schema, originals[n].cond, originals[n].selections.selections, Conds(originals));
    }
  }

  /** Fragments with names of their own whose spreads match settle exactly when none of them leads, along direct
      spreads, into a cycle or to an undefined name; otherwise the resolver fails. */
  lemma {:induction false} DocumentSettlesIff(schema: Schema, d: Syntax.Document)
    requires Entries(schema, d).Done? && Matching(schema, d)
    ensures var g := SpreadGraph(Definitions(Entries(schema, d).value));
      && (DocumentFragments(schema, d).Done? <==> forall n :: n in g ==> !Unresolvable(g, n))
      && (!DocumentFragments(schema, d).Done? ==> DocumentFragments(schema, d) == Failed(FragmentResolverFailed))
  {
    MatchingWellFormed(schema, d);
    ProcessSucceedsIff(schema, Entries(schema, d).value);
  }

  // ----- what is built -----

  predicate IsSpread(item: Syntax.Selection) {
    item.FragmentSpread?
  }

  /** The list says what the syntax tree says: selection for selection, with names, aliases and parsed arguments, and
      nested sets under the types the schema gives their fields. */
  predicate Mirrors(schema: Schema, cond: string, items: seq<Syntax.Selection>, list: seq<Selection>)
    decreases items
  {
    if items == [] then list == []
    else list != [] && MirrorsOne(schema, cond, items[0], list[0]) && Mirrors(schema, cond, items[1..], list[1..])
  }

  predicate MirrorsOne(schema: Schema, cond: string, item: Syntax.Selection, s: Selection)
    decreases item
  {
    match item
    case InlineFragment(_, _, _) => false
    case FragmentSpread(name, _) => s == Fragment(name)
    case Field(alias, name, arguments, _, items) =>
      && s.Field? && s.name == name && s.alias == alias
      && schema.FieldType(cond, name) == Some(s.sub.fieldType)
      && |s.params| == |arguments|
      && (forall i :: 0 <= i < |arguments| ==>
            FilterParsing.ParseArgument(schema, s.sub.fieldType, arguments[i].name, arguments[i].value) == Ok(s.params[i]))
      && (s.sub.hasFragments <==> exists i :: 0 <= i < |items| && IsSpread(items[i]))
      && Mirrors(schema, s.sub.fieldType, items, s.sub.selections)
  }

  lemma {:induction false} ParamsIff(schema: Schema, entity: string, arguments: seq<Syntax.Entry>, params: seq<ParamType>)
    ensures Params(schema, entity, arguments) == Ok(params) <==>
            && |params| == |arguments|
            && forall i :: 0 <= i < |arguments| ==>
                 FilterParsing.ParseArgument(schema, entity, arguments[i].name, arguments[i].value) == Ok(params[i])
  {
    if arguments != [] && params != [] {
      ParamsIff(schema, entity, arguments[1..], params[1..]);
      assert params == [params[0]] + params[1..];
      var rest := Params(schema, entity, arguments[1..]);
      if rest.Ok? {
        assert ([params[0]] + rest.value)[1..] == rest.value;
      }
    }
  }

  /** Building succeeds exactly with the list that mirrors the syntax tree. */
  lemma {:induction false} ConstructIff(schema: Schema, cond: string, items: seq<Syntax.Selection>, list: seq<Selection>)
    ensures Construct(schema, cond, items) == Done(list) <==> Mirrors(schema, cond, items, list)
    decreases items
  {
    var built := Construct(schema, cond, items);
    if items == [] {
    } else {
      var head, tail := ConstructOne(schema, cond, items[0]), Construct(schema, cond, items[1..]);
      if list != [] {
        ConstructOneIff(schema, cond, items[0], list[0]);
        ConstructIff(schema, cond, items[1..], list[1..]);
        assert list == [list[0]] + list[1..];
      }
      ConstructsOne(schema, cond, items[0]);
      if head.Done? && tail.Done? {
        assert built == Done(head.value + tail.value) && (head.value + tail.value)[1..] == tail.value;
      }
    }
  }

  lemma ConstructsOne(schema: Schema, cond: string, item: Syntax.Selection)
    ensures ConstructOne(schema, cond, item).Done? ==> |ConstructOne(schema, cond, item).value| == 1
  {
  }

  lemma {:induction false} ConstructOneIff(schema: Schema, cond: string, item: Syntax.Selection, s: Selection)
    ensures ConstructOne(schema, cond, item) == Done([s]) <==> MirrorsOne(schema, cond, item, s)
    decreases item
  {
    match item {
      case InlineFragment(_, _, _) =>
      case FragmentSpread(name, _) => assert [s] == [Fragment(name)] <==> s == Fragment(name);
      case Field(alias, name, arguments, _, items) =>
        if schema.FieldType(cond, name).Some? {
          var fieldType := schema.FieldType(cond, name).value;
          var params, list := Params(schema, fieldType, arguments), Construct(schema, fieldType, items);
          if s.Field? {
            ParamsIff(schema, fieldType, arguments, s.params);
            ConstructIff(schema, fieldType, items, s.sub.selections);
          }
          if params.Ok? && list.Done? {
            SpreadsBuilt(schema, fieldType, items);
            var built := Field(name, params.value, Flagging(fieldType, list.value), alias);
            assert ConstructOne(schema, cond, item) == Done([built]);
            assert [s] == [built] <==> s == built;
          }
        }
    }
  }

  lemma {:induction false} SpreadsBuilt(schema: Schema, cond: string, items: seq<Syntax.Selection>)
    requires Construct(schema, cond, items).Done?
    ensures DirectSpreads(Construct(schema, cond, items).value) > 0 <==> exists i :: 0 <= i < |items| && IsSpread(items[i])
  {
    if items != [] {
      SpreadsBuilt(schema, cond, items[1..]);
      var head, tail := ConstructOne(schema, cond, items[0]).value, Construct(schema, cond, items[1..]).value;
      DirectSpreadsAppend(head, tail);
      assert head[1..] == [];
      assert items == [items[0]] + items[1..];
      assert IsSpread(items[0]) <==> DirectSpreads(head) > 0;
      if k :| 0 <= k < |items[1..]| && IsSpread(items[1..][k]) {
        assert IsSpread(items[k + 1]);
      }
      if k :| 0 <= k < |items| && IsSpread(items[k]) {
        if k > 0 {
          assert IsSpread(items[1..][k - 1]);
        }
      }
    }
  }

  /** Resolving well-typed selections succeeds exactly when every spread of a known fragment, at every depth, stands
      under that fragment's own type. */
  lemma {:induction false} ResolveDoneIff(schema: Schema, cond: string, list: seq<Selection>, fragments: FragmentMap)
    requires Typed(schema, cond, list)
    ensures Resolve(schema, cond, list, fragments).Done? <==> SpreadsMatch(schema, cond, list, Conds(fragments))
    decreases list
  {
    if list != [] {
      ResolveDoneIff(schema, cond, list[1..], fragments);
      if list[0].Field? {
        ResolveDoneIff(schema, schema.FieldType(cond, list[0].name).value, list[0].sub.selections, fragments);
      }
    }
  }

  function FragmentDefinitions(d: Syntax.Document): (r: seq<Syntax.Definition>)
    ensures forall def :: def in r ==> def.Fragment?
  {
    if d == [] then [] else FragmentDefinitions(d[..|d| - 1]) + if d[|d| - 1].Fragment? then [d[|d| - 1]] else []
  }

  /** The entry stands for the fragment definition: under its name, on a known type, with the selections it spells. */
  ghost predicate EntryFrom(schema: Schema, def: Syntax.Definition, e: Entry)
    requires def.Fragment?
  {
    && e.0 == def.fragment && e.1.cond == def.on && e.1.selections.fieldType == def.on && def.on in schema.types
    && Mirrors(schema, def.on, def.items, e.1.selections.selections)
    && (e.1.selections.hasFragments <==> exists i :: 0 <= i < |def.items| && IsSpread(def.items[i]))
  }

  lemma {:induction false} EntryIff(schema: Schema, def: Syntax.Definition, e: Entry)
    requires def.Fragment?
    ensures DefinitionEntry(schema, def) == Done([e]) <==> EntryFrom(schema, def, e)
    ensures DefinitionEntry(schema, def).Done? ==> |DefinitionEntry(schema, def).value| == 1
  {
    hide Construct, Mirrors;
    ConstructIff(schema, def.on, def.items, e.1.selections.selections);
    var list := Construct(schema, def.on, def.items);
    if list.Done? {
      SpreadsBuilt(schema, def.on, def.items);
      var built := (def.fragment, FragmentDef(def.on, Flagging(def.on, list.value)));
      assert [e] == [built] <==> e == built;
    }
  }

  ghost predicate EntriesFrom(schema: Schema, defs: seq<Syntax.Definition>, entries: seq<Entry>)
    requires forall def :: def in defs ==> def.Fragment?
  {
    |entries| == |defs| && forall i :: 0 <= i < |defs| ==> EntryFrom(schema, defs[i], entries[i])
  }

  /** The entries of a document are those of its fragment definitions, in order. */
  lemma {:induction false} EntriesIff(schema: Schema, d: Syntax.Document, entries: seq<Entry>)
    ensures Entries(schema, d) == Done(entries) <==> EntriesFrom(schema, FragmentDefinitions(d), entries)
  {
    hide DefinitionEntry, EntryFrom;
    if d != [] {
      var init, last := d[..|d| - 1], d[|d| - 1];
      if !last.Fragment? {
        OtherEntry(schema, last);
        EntriesIff(schema, init, entries);
        assert FragmentDefinitions(d) == FragmentDefinitions(init);
        assert Entries(schema, init).Done? ==> Entries(schema, init).value + [] == Entries(schema, init).value;
      } else {
        var n := |entries| - 1;
        if n >= 0 {
          EntryIff(schema, last, entries[n]);
          EntriesIff(schema, init, entries[..n]);
          assert entries == entries[..n] + [entries[n]];
        } else {
          EntryIff(schema, last, (last.fragment, FragmentDef(last.on, Selections(last.on, false, []))));
        }
        EntriesSplit(schema, init, last, entries);
      }
    }
  }

  lemma OtherEntry(schema: Schema, def: Syntax.Definition)
    requires !def.Fragment?
    ensures DefinitionEntry(schema, def) == Done([])
  {
  }

  lemma EntriesSplit(schema: Schema, init: Syntax.Document, last: Syntax.Definition, entries: seq<Entry>)
    requires DefinitionEntry(schema, last).Done? ==> |DefinitionEntry(schema, last).value| == 1
    ensures Both(Entries(schema, init), DefinitionEntry(schema, last)) == Done(entries) <==>
            |entries| > 0 && Entries(schema, init) == Done(entries[..|entries| - 1])
            && DefinitionEntry(schema, last) == Done([entries[|entries| - 1]])
  {
    hide Entries, DefinitionEntry;
    var a, b := Entries(schema, init), DefinitionEntry(schema, last);
    if a.Done? && b.Done? {
      var both := a.value + b.value;
      assert both[..|both| - 1] == a.value && b.value == [both[|both| - 1]];
    }
    if entries != [] {
      assert entries == entries[..|entries| - 1] + [entries[|entries| - 1]];
    }
  }

  /** The definitions of a document that are no fragments, in order. */
  function OperationDefinitions(d: Syntax.Document): (r: seq<Syntax.Definition>)
    ensures forall i :: 0 <= i < |r| ==> !r[i].Fragment?
  {
    if d == [] then [] else (if d[0].Fragment? then [] else [d[0]]) + OperationDefinitions(d[1..])
  }

  /** The operation is the definition's own: a keyworded query is named and expanded, an anonymous one taken as built. */
  ghost predicate BuiltFrom(schema: Schema, originals: FragmentMap, depth: nat, def: Syntax.Definition, op: Operation) {
    && op.namespace == schema.namespace && op.identifier == schema.identifier && op.selections.fieldType == schema.query
    && exists list :: Mirrors(schema, schema.query, def.items, list) &&
         match def
         case SelectionSet(_) => op.name == "Unnamed" && op.selections.selections == list
         case Operation(kind, name, _, _, _) =>
           && kind == Syntax.Query && op.name == (if name.Some? then name.value else "Unnamed")
           && op.selections.selections == Expand(originals, list, depth)
           && Expanded(originals, op.selections.selections)
         case Fragment(_, _, _, _) => false
  }

  /** The definition mirrors a list of selections, and is an anonymous query, or a keyworded one with matching spreads. */
  ghost predicate Buildable(schema: Schema, originals: FragmentMap, def: Syntax.Definition) {
    && !def.Fragment? && (def.Operation? ==> def.kind == Syntax.Query)
    && exists list :: Mirrors(schema, schema.query, def.items, list)
         && (def.Operation? ==> SpreadsMatch(schema, schema.query, list, Conds(originals)))
  }

  lemma {:induction false} OperationIff(schema: Schema, def: Syntax.Definition, originals: FragmentMap, fragments: FragmentMap)
    requires !def.Fragment? && Conds(fragments) == Conds(originals)
    ensures DefinitionOperation(schema, def, fragments).Done? <==> Buildable(schema, originals, def)
    ensures DefinitionOperation(schema, def, fragments).Done? ==> |DefinitionOperation(schema, def, fragments).value| == 1
  {
    hide Construct, Resolve, Mirrors, SpreadsMatch, Typed, Conds;
    var built := Construct(schema, schema.query, def.items);
    ConstructTyped(schema, schema.query, def.items);
    forall list ensures built == Done(list) <==> Mirrors(schema, schema.query, def.items, list) {
      ConstructIff(schema, schema.query, def.items, list);
    }
    if built.Done? {
      assert Mirrors(schema, schema.query, def.items, built.value);
      ResolveDoneIff(schema, schema.query, built.value, fragments);
    }
  }

  lemma {:induction false} OperationFrom(schema: Schema, def: Syntax.Definition, originals: FragmentMap, fragments: FragmentMap, depth: nat)
    requires !def.Fragment? && Expands(originals, fragments, depth) && Conds(fragments) == Conds(originals)
    requires DefinitionOperation(schema, def, fragments).Done?
    ensures |DefinitionOperation(schema, def, fragments).value| == 1
    ensures BuiltFrom(schema, originals, depth + 1, def, DefinitionOperation(schema, def, fragments).value[0])
  {
    hide Construct, Resolve, Mirrors, SpreadsMatch, Conds, Expands, Expand, Expanded, Fits;
    var list := Construct(schema, schema.query, def.items).value;
    ConstructTyped(schema, schema.query, def.items);
    ConstructIff(schema, schema.query, def.items, list);
    if def.Operation? {
      ResolveDoneIff(schema, schema.query, list, fragments);
      TypedFits(schema, schema.query, list, Conds(originals));
      ResolveExpands(schema, schema.query, list, originals, fragments, depth);
    }
  }

  lemma {:induction false} OperationsDoneIff(schema: Schema, d: Syntax.Document, originals: FragmentMap, fragments: FragmentMap)
    requires Conds(fragments) == Conds(originals)
    ensures DocumentOperations(schema, d, fragments).Done? <==>
            forall def :: def in OperationDefinitions(d) ==> Buildable(schema, originals, def)
  {
    hide DefinitionOperation, Buildable, Conds;
    if d != [] {
      OperationsDoneIff(schema, d[1..], originals, fragments);
      var rest := OperationDefinitions(d[1..]);
      if d[0].Fragment? {
        FragmentBuildsNothing(schema, d[0], fragments);
        assert OperationDefinitions(d) == rest;
      } else {
        OperationIff(schema, d[0], originals, fragments);
        assert OperationDefinitions(d) == [d[0]] + rest;
      }
    }
  }

  lemma FragmentBuildsNothing(schema: Schema, def: Syntax.Definition, fragments: FragmentMap)
    requires def.Fragment?
    ensures DefinitionOperation(schema, def, fragments) == Done([])
  {
  }

  lemma {:induction false} OperationsFrom(schema: Schema, d: Syntax.Document, originals: FragmentMap, fragments: FragmentMap, depth: nat)
    requires Expands(originals, fragments, depth) && Conds(fragments) == Conds(originals)
    requires DocumentOperations(schema, d, fragments).Done?
    ensures var operations, defs := DocumentOperations(schema, d, fragments).value, OperationDefinitions(d);
      |operations| == |defs| && forall i :: 0 <= i < |defs| ==> BuiltFrom(schema, originals, depth + 1, defs[i], operations[i])
  {
    hide DefinitionOperation, BuiltFrom, Expands, Conds;
    if d != [] {
      OperationsFrom(schema, d[1..], originals, fragments, depth);
      var rest := OperationDefinitions(d[1..]);
      if d[0].Fragment? {
        FragmentBuildsNothing(schema, d[0], fragments);
        assert OperationDefinitions(d) == rest;
      } else {
        OperationFrom(schema, d[0], originals, fragments, depth);
        assert OperationDefinitions(d) == [d[0]] + rest;
      }
    }
  }

  lemma {:induction false} SettledConds(schema: Schema, d: Syntax.Document)
    requires Entries(schema, d).Done? && Matching(schema, d) && DocumentFragments(schema, d).Done?
    ensures Conds(DocumentFragments(schema, d).value) == Conds(Definitions(Entries(schema, d).value))
  {
    MatchingWellFormed(schema, d);
    hide Settle, Process;
    var final := SettledState(schema, Entries(schema, d).value);
  }

  /** A document whose fragments match is built exactly when no fragment leads into a cycle or to an undefined name and
      each operation is an anonymous query or a keyworded one whose spreads match, made of known fields and arguments
      that parse. */
  lemma {:induction false} BuiltIff(schema: Schema, d: Syntax.Document)
    requires Entries(schema, d).Done? && Matching(schema, d)
    ensures var originals := Definitions(Entries(schema, d).value);
      Built(schema, d).Done? <==>
      && (forall n :: n in SpreadGraph(originals) ==> !Unresolvable(SpreadGraph(originals), n))
      && (forall def :: def in OperationDefinitions(d) ==> Buildable(schema, originals, def))
  {
    hide DocumentFragments, DocumentOperations, Matching, Buildable, Unresolvable;
    DocumentSettlesIff(schema, d);
    if DocumentFragments(schema, d).Done? {
      SettledConds(schema, d);
      OperationsDoneIff(schema, d, Definitions(Entries(schema, d).value), DocumentFragments(schema, d).value);
    }
  }

  /** Where fragments match and spread directly, a built query holds one operation for each definition in document
      order: a keyworded query under its name with its own selections expanded recursively and no spread of a defined
      fragment left, an anonymous one with its selections as they are. */
  lemma {:induction false} BuildExpands(schema: Schema, d: Syntax.Document, depth: nat)
    requires Entries(schema, d).Done? && Matching(schema, d) && Built(schema, d).Done?
    requires AllDirect(Definitions(Entries(schema, d).value)) && depth > |Definitions(Entries(schema, d).value)|
    ensures var operations, defs := Built(schema, d).value.operations, OperationDefinitions(d);
      && |operations| == |defs|
      && forall i :: 0 <= i < |defs| ==>
           BuiltFrom(schema, Definitions(Entries(schema, d).value), depth, defs[i], operations[i])
  {
    hide *;
    BuiltFragments(schema, d);
    SettledConds(schema, d);
    FragmentsExpand(schema, d, depth - 1);
    OperationsFrom(schema, d, Definitions(Entries(schema, d).value), DocumentFragments(schema, d).value, depth - 1);
  }

  lemma {:induction false} BuiltFragments(schema: Schema, d: Syntax.Document)
    requires Built(schema, d).Done?
    ensures DocumentFragments(schema, d).Done?
    ensures DocumentOperations(schema, d, DocumentFragments(schema, d).value) == Done(Built(schema, d).value.operations)
  {
    hide DocumentFragments, DocumentOperations;
  }

  lemma {:induction false} FragmentsExpand(schema: Schema, d: Syntax.Document, depth: nat)
    requires Entries(schema, d).Done? && Matching(schema, d) && DocumentFragments(schema, d).Done?
    requires AllDirect(Definitions(Entries(schema, d).value)) && depth >= |Definitions(Entries(schema, d).value)|
    ensures Expands(Definitions(Entries(schema, d).value), DocumentFragments(schema, d).value, depth)
  {
    var defs, fragments := Entries(schema, d).value, DocumentFragments(schema, d).value;
    var originals := Definitions(defs);
    MatchingWellFormed(schema, d);
    hide Matching, Settle, Expand, Definitions, WellFormed, SpreadsDirect, SpreadFree, Entries, AllDirect, Process, Settled;
    var final := SettledState(schema, defs);
    forall n | n in originals
      ensures fragments[n].cond == originals[n].cond && SpreadFree(fragments[n].selections.selections)
      ensures fragments[n].selections.selections == Expand(originals, originals[n].selections.selections, depth)
    {
      ProcessExpands(schema, defs, n, depth);
    }
  }
}
