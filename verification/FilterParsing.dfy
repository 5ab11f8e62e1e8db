/** Query arguments parsed into filters and other parameters. */
module FilterParsing {
  import opened Common
  import opened Arguments
  import opened Schemas
  import opened FilterMeaning
  import opened FilterInversion
  import Syntax

  /** A literal of the query document; objects hold their entries in key order, each key once. */
  type Value = Syntax.Value

  type Entry = Syntax.Entry

  type Entries = seq<Entry>

  datatype FilterError =
    | UnrecognizedField(entity: string, name: string)
    | UnrecognizedArgument(entity: string, name: string)
    | UnsupportedValueType(value: Value)
    | UnsupportedNegation(kind: string)
    | UnsupportedFilterOperation(op: string)
    | UnableToParse(what: string)
    | UnableToParseValue(value: Value)
    | NoPredicatesInFilter
    | MissingPartnerForBinaryLogicalOperator

  function ParseValue(v: Value): Result<ParsedValue, FilterError> {
    match v
    case BigInt(n) => Ok(BigNumber(n))
    case Boolean(b) => Ok(Boolean(b))
    case Int(n) => Ok(Number(n))
    case Str(s) => Ok(Text(s))
    case _ => Err(UnsupportedValueType(v))
  }

  function ParseValues(vs: seq<Value>): Option<seq<ParsedValue>> {
    if vs == [] then Some([])
    else match (ParseValue(vs[0]), ParseValues(vs[1..]))
      case (Ok(v), Some(rest)) => Some([v] + rest)
      case _ => None
  }

  function Lookup(entries: Entries, key: string): Option<Value> {
    if entries == [] then None else if entries[0].name == key then Some(entries[0].value) else Lookup(entries[1..], key)
  }

  // ----- the filters of one entry -----

  function HasColumns(schema: Schema, entity: string, elements: seq<Value>): Result<seq<string>, FilterError> {
    if elements == [] then Ok([])
    else if !elements[0].Enum? then Err(UnsupportedValueType(elements[0]))
    else if schema.FieldType(entity, elements[0].name).None? then Err(UnrecognizedField(entity, elements[0].name))
    else match HasColumns(schema, entity, elements[1..])
      case Ok(rest) => Ok([elements[0].name] + rest)
      case Err(e) => Err(e)
  }

  function After(columns: seq<string>, rest: Result<seq<string>, FilterError>): Result<seq<string>, FilterError> {
    match rest case Ok(more) => Ok(columns + more) case Err(e) => Err(e)
  }

  method ParseHas(schema: Schema, entity: string, elements: seq<Value>) returns (r: Result<FilterType, FilterError>)
    ensures r == match HasColumns(schema, entity, elements) case Ok(columns) => Ok(NullCheck(NoNulls(columns))) case Err(e) => Err(e)
  {
    var columns := [];
    ghost var all := HasColumns(schema, entity, elements);
    assert all.Ok? ==> [] + all.value == all.value;
    for i := 0 to |elements|
      invariant HasColumns(schema, entity, elements) == After(columns, HasColumns(schema, entity, elements[i..]))
    {
      assert elements[i..][1..] == elements[i + 1..];
      ghost var later := HasColumns(schema, entity, elements[i + 1..]);
      assert later.Ok? && elements[i].Enum? ==> columns + ([elements[i].name] + later.value) == columns + [elements[i].name] + later.value;
      if elements[i].Enum? {
        if schema.FieldType(entity, elements[i].name).Some? {
          columns := columns + [elements[i].name];
        } else {
          return Err(UnrecognizedField(entity, elements[i].name));
        }
      } else {
        return Err(UnsupportedValueType(elements[i]));
      }
    }
    assert elements[|elements|..] == [] && columns + [] == columns;
    return Ok(NullCheck(NoNulls(columns)));
  }

  /** The comparison a recognised key stands for. */
  function Comparator(op: string, field: string, v: ParsedValue): Option<Comparison> {
    if op == "equals" then Some(Equals(field, v))
    else if op == "gt" then Some(Greater(field, v))
    else if op == "gte" then Some(GreaterEqual(field, v))
    else if op == "lt" then Some(Less(field, v))
    else if op == "lte" then Some(LessEqual(field, v))
    else None
  }

  /** What one predicate of a field gives; None passes on to the field's next predicate. */
  function FieldPredicate(field: string, op: string, pred: Value): Option<Result<FilterType, FilterError>> {
    if op == "between" then
      if pred.Object? && Lookup(pred.entries, "min").Some? && Lookup(pred.entries, "max").Some? then
        match (ParseValue(Lookup(pred.entries, "min").value), ParseValue(Lookup(pred.entries, "max").value))
        case (Ok(min), Ok(max)) => Some(Ok(Compare(Between(field, min, max))))
        case (Err(e), _) => Some(Err(e))
        case (_, Err(e)) => Some(Err(e))
      else None
    else if op == "in" then
      if pred.List? then
        match ParseValues(pred.items)
        case Some(members) => Some(Ok(Member(In(field, members))))
        case None => Some(Err(UnableToParseValue(pred)))
      else None
    else if Comparator(op, field, Number(0)).None? then Some(Err(UnsupportedFilterOperation(op)))
    else match ParseValue(pred)
      case Ok(v) => Some(Ok(Compare(Comparator(op, field, v).value)))
      case Err(e) => Some(Err(e))
  }

  /** The first predicate that gives something decides. */
  function FieldFilter(field: string, predicates: Entries): Result<FilterType, FilterError> {
    if predicates == [] then Err(NoPredicatesInFilter)
    else match FieldPredicate(field, predicates[0].name, predicates[0].value)
      case Some(r) => r
      case None => FieldFilter(field, predicates[1..])
  }

  method ParseFieldFilter(field: string, predicates: Entries) returns (r: Result<FilterType, FilterError>)
    ensures r == FieldFilter(field, predicates)
  {
    for i := 0 to |predicates|
      invariant FieldFilter(field, predicates) == FieldFilter(field, predicates[i..])
    {
      var op, pred := predicates[i].name, predicates[i].value;
      assert predicates[i..][1..] == predicates[i + 1..];
      match FieldPredicate(field, op, pred) {
        case Some(found) => return found;
        case None =>
      }
    }
    return Err(NoPredicatesInFilter);
  }

  // ----- the recursive descent over entries -----

  function Size(v: Value): nat
    decreases v
  {
    match v
    case Object(entries) => 1 + Weight(entries)
    case _ => 1
  }

  function Weight(entries: Entries): nat
    decreases entries
  {
    if entries == [] then 0 else 1 + Size(entries[0].value) + Weight(entries[1..])
  }

  type Answer = Result<FilterType, FilterError>

  predicate IsConnective(key: string) {
    key == "and" || key == "or"
  }

  function Connect(key: string, a: FilterType, b: FilterType): FilterType {
    if key == "and" then Logic(And(a, b)) else Logic(Or(a, b))
  }

  /** Reads a filter off an object; the entries after the ones it consumed are ignored. */
  function ParseFilterObject(schema: Schema, entity: string, entries: Entries, prior: Option<FilterType>): Answer
    decreases Weight(entries), 2
  {
    if entries == [] then Err(NoPredicatesInFilter)
    else ParseEntry(schema, entity, entries[0].name, entries[0].value, prior, entries[1..]).0
  }

  /** One entry, with the iterator over the entries after it. */
  function ParseEntry(schema: Schema, entity: string, key: string, pred: Value, prior: Option<FilterType>, rest: Entries): (Answer, Entries)
    decreases Size(pred) + Weight(rest), 1
  {
    if key == "has" then
      if pred.List? then
        (match HasColumns(schema, entity, pred.items) case Ok(columns) => Ok(NullCheck(NoNulls(columns))) case Err(e) => Err(e), rest)
      else (Err(UnsupportedValueType(pred)), rest)
    else if IsConnective(key) then ParseConnective(schema, entity, key, pred, rest, prior)
    else if key == "not" then
      if pred.Object? then
        match ParseFilterObject(schema, entity, pred.entries, prior)
        case Err(e) => (Err(e), rest)
        case Ok(f) => (match Invert(f) case Ok(inverse) => Ok(inverse) case Err(kind) => Err(UnsupportedNegation(kind)), rest)
      else (Err(UnsupportedValueType(pred)), rest)
    else if schema.FieldType(entity, key).None? then (Err(UnrecognizedField(entity, key)), rest)
    else if pred.Object? then (FieldFilter(key, pred.entries), rest)
    else (Err(UnsupportedValueType(pred)), rest)
  }

  function ParseConnective(schema: Schema, entity: string, key: string, pred: Value, rest: Entries, prior: Option<FilterType>): (Answer, Entries)
    decreases Size(pred) + Weight(rest), 0
  {
    if !pred.Object? then (Err(UnsupportedValueType(pred)), rest)
    else match ParseFilterObject(schema, entity, pred.entries, prior)
      case Err(e) => (Err(e), rest)
      case Ok(filter) =>
        if prior.Some? then (Ok(Connect(key, prior.value, filter)), rest)
        else if rest == [] then (Err(MissingPartnerForBinaryLogicalOperator), rest)
        else if IsConnective(rest[0].name) then
          ParseConnective(schema, entity, rest[0].name, rest[0].value, rest[1..], Some(filter))
        else
          match ParseEntry(schema, entity, rest[0].name, rest[0].value, prior, rest[1..])
          case (Ok(next), rest') => (Ok(Connect(key, filter, next)), rest')
          case (Err(e), rest') => (Err(e), rest')
  }

  // ----- what parsing yields -----

  predicate PlainAnswer(a: Answer) {
    match a case Ok(f) => Plain(f) case Err(e) => !e.UnsupportedNegation?
  }

  lemma {:induction false} FieldFilterPlain(field: string, predicates: Entries)
    ensures PlainAnswer(FieldFilter(field, predicates))
  {
    if predicates != [] && FieldPredicate(field, predicates[0].name, predicates[0].value).None? {
      FieldFilterPlain(field, predicates[1..]);
    }
  }

  lemma {:induction false} HasErrors(schema: Schema, entity: string, elements: seq<Value>)
    ensures HasColumns(schema, entity, elements).Err? ==> !HasColumns(schema, entity, elements).error.UnsupportedNegation?
  {
    if elements != [] {
      HasErrors(schema, entity, elements[1..]);
    }
  }

  /** No parsed filter holds an id selection or a negation node, so no `not` in a query ever fails to invert. */
  lemma {:induction false} ObjectPlain(schema: Schema, entity: string, entries: Entries, prior: Option<FilterType>)
    requires prior.Some? ==> Plain(prior.value)
    ensures PlainAnswer(ParseFilterObject(schema, entity, entries, prior))
    decreases Weight(entries), 2
  {
    if entries != [] {
      EntryPlain(schema, entity, entries[0].name, entries[0].value, prior, entries[1..]);
    }
  }

  lemma {:induction false} EntryPlain(schema: Schema, entity: string, key: string, pred: Value, prior: Option<FilterType>, rest: Entries)
    requires prior.Some? ==> Plain(prior.value)
    ensures PlainAnswer(ParseEntry(schema, entity, key, pred, prior, rest).0)
    decreases Size(pred) + Weight(rest), 1
  {
    if IsConnective(key) {
      ConnectivePlain(schema, entity, key, pred, rest, prior);
    } else if pred.Object? {
      ObjectPlain(schema, entity, pred.entries, prior);
      FieldFilterPlain(key, pred.entries);
      var inner := ParseFilterObject(schema, entity, pred.entries, prior);
      if inner.Ok? {
        InvertPlain(inner.value);
      }
    } else if pred.List? {
      HasErrors(schema, entity, pred.items);
    }
  }

  lemma {:induction false} ConnectivePlain(schema: Schema, entity: string, key: string, pred: Value, rest: Entries, prior: Option<FilterType>)
    requires prior.Some? ==> Plain(prior.value)
    ensures PlainAnswer(ParseConnective(schema, entity, key, pred, rest, prior).0)
    decreases Size(pred) + Weight(rest), 0
  {
    if pred.Object? {
      ObjectPlain(schema, entity, pred.entries, prior);
      var inner := ParseFilterObject(schema, entity, pred.entries, prior);
      if inner.Ok? && rest != [] {
        ConnectivePlain(schema, entity, rest[0].name, rest[0].value, rest[1..], Some(inner.value));
        EntryPlain(schema, entity, rest[0].name, rest[0].value, None, rest[1..]);
      }
    }
  }

  lemma ObjectIsConnective(schema: Schema, entity: string, entries: Entries, prior: Option<FilterType>)
    requires entries != [] && IsConnective(entries[0].name)
    ensures ParseFilterObject(schema, entity, entries, prior)
         == ParseConnective(schema, entity, entries[0].name, entries[0].value, entries[1..], prior).0
  {
    assert ParseEntry(schema, entity, entries[0].name, entries[0].value, prior, entries[1..])
        == ParseConnective(schema, entity, entries[0].name, entries[0].value, entries[1..], prior);
  }

  /** An object contributes at most its first two entries; whatever follows them is ignored. */
  lemma OnlyTwoEntriesMatter(schema: Schema, entity: string, entries: Entries, prior: Option<FilterType>)
    requires |entries| > 2
    ensures ParseFilterObject(schema, entity, entries, prior) == ParseFilterObject(schema, entity, entries[..2], prior)
  {
    var first, second := entries[0], entries[1];
    var rest, shortRest := entries[1..], entries[..2][1..];
    assert shortRest == [second] && rest[0] == second;
    if IsConnective(first.name) {
      ObjectIsConnective(schema, entity, entries, prior);
      ObjectIsConnective(schema, entity, entries[..2], prior);
    }
    if IsConnective(first.name) && first.value.Object? && prior.None? {
      match ParseFilterObject(schema, entity, first.value.entries, prior) {
        case Err(_) =>
        case Ok(filter) =>
          if IsConnective(second.name) {
            SettledConnective(schema, entity, second.name, second.value, rest[1..], shortRest[1..], filter);
          } else {
            PlainEntry(schema, entity, second.name, second.value, rest[1..], shortRest[1..], prior);
          }
      }
    } else if IsConnective(first.name) && prior.Some? {
      SettledConnective(schema, entity, first.name, first.value, rest, shortRest, prior.value);
    } else if !IsConnective(first.name) {
      PlainEntry(schema, entity, first.name, first.value, rest, shortRest, prior);
    }
  }

  lemma SettledConnective(schema: Schema, entity: string, key: string, value: Value, rest: Entries, other: Entries, prior: FilterType)
    ensures ParseConnective(schema, entity, key, value, rest, Some(prior)).0 == ParseConnective(schema, entity, key, value, other, Some(prior)).0
  {
  }

  lemma PlainEntry(schema: Schema, entity: string, key: string, value: Value, rest: Entries, other: Entries, prior: Option<FilterType>)
    requires !IsConnective(key)
    ensures ParseEntry(schema, entity, key, value, prior, rest).0 == ParseEntry(schema, entity, key, value, prior, other).0
  {
  }

  /** An entry under a field, `has` or `not` that comes first decides alone: a connective after it is dropped. */
  lemma PlainEntryDecidesAlone(schema: Schema, entity: string, entries: Entries)
    requires entries != [] && !IsConnective(entries[0].name)
    ensures ParseFilterObject(schema, entity, entries, None) == ParseFilterObject(schema, entity, entries[..1], None)
  {
    PlainEntry(schema, entity, entries[0].name, entries[0].value, entries[1..], entries[..1][1..], None);
  }

  function ConnectAnswer(key: string, filter: FilterType, next: Answer): Answer {
    match next case Ok(f) => Ok(Connect(key, filter, f)) case Err(e) => Err(e)
  }

  /** A leading connective joins its own filter with the next entry's, under the connective of the second entry
      if that is one, and under its own otherwise. */
  lemma LeadingConnective(schema: Schema, entity: string, entries: Entries, filter: FilterType)
    requires entries != [] && IsConnective(entries[0].name) && entries[0].value.Object?
    requires ParseFilterObject(schema, entity, entries[0].value.entries, None) == Ok(filter)
    ensures |entries| == 1 ==> ParseFilterObject(schema, entity, entries, None) == Err(MissingPartnerForBinaryLogicalOperator)
    ensures |entries| > 1 && !IsConnective(entries[1].name) ==>
      ParseFilterObject(schema, entity, entries, None) ==
        ConnectAnswer(entries[0].name, filter, ParseFilterObject(schema, entity, entries[1..], None))
    ensures |entries| > 1 && IsConnective(entries[1].name) && entries[1].value.Object? ==>
      ParseFilterObject(schema, entity, entries, None) ==
        ConnectAnswer(entries[1].name, filter, ParseFilterObject(schema, entity, entries[1].value.entries, Some(filter)))
  {
    ObjectIsConnective(schema, entity, entries, None);
    if |entries| > 1 {
      var rest, next := entries[1..], entries[1];
      if IsConnective(next.name) {
        assert ParseConnective(schema, entity, entries[0].name, entries[0].value, rest, None)
            == ParseConnective(schema, entity, next.name, next.value, rest[1..], Some(filter));
      } else {
        assert ParseFilterObject(schema, entity, rest, None) == ParseEntry(schema, entity, next.name, next.value, None, rest[1..]).0;
      }
    }
  }

  // ----- parsed filters can be rendered -----

  /** No empty list anywhere in the value. */
  predicate Full(v: Value)
    decreases v
  {
    match v
    case List(items) => items != []
    case Object(entries) => AllFull(entries)
    case _ => true
  }

  predicate AllFull(entries: Entries)
    decreases entries
  {
    entries == [] || (Full(entries[0].value) && AllFull(entries[1..]))
  }

  predicate RenderableAnswer(a: Answer) {
    a.Ok? ==> Plain(a.value) && Renderable(a.value)
  }

  lemma {:induction false} ColumnsKeepCount(schema: Schema, entity: string, elements: seq<Value>)
    ensures HasColumns(schema, entity, elements).Ok? ==> |HasColumns(schema, entity, elements).value| == |elements|
  {
    if elements != [] {
      ColumnsKeepCount(schema, entity, elements[1..]);
    }
  }

  lemma {:induction false} ValuesKeepCount(vs: seq<Value>)
    ensures ParseValues(vs).Some? ==> |ParseValues(vs).value| == |vs|
  {
    if vs != [] {
      ValuesKeepCount(vs[1..]);
    }
  }

  lemma {:induction false} FieldFilterRenderable(field: string, predicates: Entries)
    requires AllFull(predicates)
    ensures RenderableAnswer(FieldFilter(field, predicates))
  {
    if predicates != [] {
      FieldFilterRenderable(field, predicates[1..]);
      if predicates[0].value.List? {
        ValuesKeepCount(predicates[0].value.items);
      }
    }
  }

  lemma {:induction false} ObjectRenderable(schema: Schema, entity: string, entries: Entries, prior: Option<FilterType>)
    requires AllFull(entries) && (prior.Some? ==> Plain(prior.value) && Renderable(prior.value))
    ensures RenderableAnswer(ParseFilterObject(schema, entity, entries, prior))
    decreases Weight(entries), 2
  {
    if entries != [] {
      EntryRenderable(schema, entity, entries[0].name, entries[0].value, prior, entries[1..]);
    }
  }

  lemma {:induction false} EntryRenderable(schema: Schema, entity: string, key: string, value: Value, prior: Option<FilterType>, rest: Entries)
    requires Full(value) && AllFull(rest) && (prior.Some? ==> Plain(prior.value) && Renderable(prior.value))
    ensures RenderableAnswer(ParseEntry(schema, entity, key, value, prior, rest).0)
    decreases Size(value) + Weight(rest), 1
  {
    if IsConnective(key) {
      ConnectiveRenderable(schema, entity, key, value, rest, prior);
    } else if value.Object? {
      ObjectRenderable(schema, entity, value.entries, prior);
      FieldFilterRenderable(key, value.entries);
      var inner := ParseFilterObject(schema, entity, value.entries, prior);
      if inner.Ok? {
        InvertPlain(inner.value);
      }
    } else if value.List? {
      ColumnsKeepCount(schema, entity, value.items);
    }
  }

  lemma {:induction false} ConnectiveRenderable(schema: Schema, entity: string, key: string, value: Value, rest: Entries, prior: Option<FilterType>)
    requires Full(value) && AllFull(rest) && (prior.Some? ==> Plain(prior.value) && Renderable(prior.value))
    ensures RenderableAnswer(ParseConnective(schema, entity, key, value, rest, prior).0)
    decreases Size(value) + Weight(rest), 0
  {
    if value.Object? {
      ObjectRenderable(schema, entity, value.entries, prior);
      var inner := ParseFilterObject(schema, entity, value.entries, prior);
      if inner.Ok? && rest != [] {
        ConnectiveRenderable(schema, entity, rest[0].name, rest[0].value, rest[1..], Some(inner.value));
        EntryRenderable(schema, entity, rest[0].name, rest[0].value, None, rest[1..]);
      }
    }
  }

  // ----- query arguments -----

  function ParseArgument(schema: Schema, entity: string, arg: string, value: Value): Result<ParamType, FilterError> {
    if arg == "filter" then
      if !value.Object? then Err(UnsupportedValueType(value))
      else match ParseFilterObject(schema, entity, value.entries, None)
        case Ok(f) => Ok(FilterParam(f))
        case Err(e) => Err(e)
    else if arg == "id" then
      match ParseValue(value)
      case Ok(v) => Ok(FilterParam(IdSelection(v)))
      case Err(e) => Err(e)
    else if arg == "order" then
      if !value.Object? then Err(UnsupportedValueType(value))
      else if value.entries == [] then Err(NoPredicatesInFilter)
      else
        var order, target := value.entries[0].name, value.entries[0].value;
        if !target.Enum? then Err(UnsupportedValueType(target))
        else if schema.FieldType(entity, target.name).None? then Err(UnrecognizedField(entity, target.name))
        else if order == "asc" then Ok(SortParam(target.name, Asc))
        else if order == "desc" then Ok(SortParam(target.name, Desc))
        else Err(UnableToParse(order))
    else if arg == "offset" then
      if value.Int? then Ok(OffsetParam(value.n)) else Err(UnsupportedValueType(value))
    else if arg == "first" then
      if value.Int? then Ok(LimitParam(value.n)) else Err(UnsupportedValueType(value))
    else Err(UnrecognizedArgument(entity, arg))
  }

  /** An argument without empty lists yields a filter whose text can be read, and never a failed negation. */
  lemma ArgumentRenderable(schema: Schema, entity: string, arg: string, value: Value)
    requires Full(value)
    ensures var r := ParseArgument(schema, entity, arg, value);
      && (r.Ok? && r.value.FilterParam? ==> Renderable(r.value.filter))
      && (r.Err? ==> !r.error.UnsupportedNegation?)
  {
    if value.Object? {
      ObjectRenderable(schema, entity, value.entries, None);
      ObjectPlain(schema, entity, value.entries, None);
    }
  }
}
