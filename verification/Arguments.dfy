/** Query parameters: filters, sorts, offset and limit. */
module Arguments {
  import opened Common

  datatype ParsedValue = BigNumber(big: nat) | Number(n: nat) | Text(text: string) | Boolean(b: bool)

  datatype Comparison =
    | Between(field: string, min: ParsedValue, max: ParsedValue)
    | Greater(field: string, val: ParsedValue)
    | GreaterEqual(field: string, val: ParsedValue)
    | Less(field: string, val: ParsedValue)
    | LessEqual(field: string, val: ParsedValue)
    | Equals(field: string, val: ParsedValue)
    | NotEquals(field: string, val: ParsedValue)

  datatype Membership = In(field: string, members: seq<ParsedValue>) | NotIn(field: string, members: seq<ParsedValue>)

  datatype NullValueCheck = NoNulls(columns: seq<string>) | OnlyNulls(columns: seq<string>)

  datatype FilterType =
    | IdSelection(id: ParsedValue)
    | Compare(comparison: Comparison)
    | Member(membership: Membership)
    | NullCheck(check: NullValueCheck)
    | Logic(op: LogicOp)

  datatype LogicOp = And(left: FilterType, right: FilterType) | Or(left: FilterType, right: FilterType) | Not(inner: FilterType)

  datatype SortOrder = Asc | Desc

  datatype ParamType = FilterParam(filter: FilterType) | SortParam(field: string, order: SortOrder) | OffsetParam(n: nat) | LimitParam(n: nat)

  datatype Filter = Filter(table: string, filterType: FilterType)

  datatype Sort = Sort(column: string, order: SortOrder)

  datatype QueryParams = QueryParams(filters: seq<Filter>, sorts: seq<Sort>, offset: Option<nat>, limit: Option<nat>)

  const NO_PARAMS := QueryParams([], [], None, None)

  function AddParam(q: QueryParams, p: ParamType, table: string): QueryParams {
    match p
    case FilterParam(f) => q.(filters := q.filters + [Filter(table, f)])
    case SortParam(field, order) => q.(sorts := q.sorts + [Sort(table + "." + field, order)])
    case OffsetParam(n) => q.(offset := Some(n))
    case LimitParam(n) => q.(limit := Some(n))
  }

  function AddParams(q: QueryParams, params: seq<ParamType>, table: string): QueryParams
    decreases |params|
  {
    if params == [] then q else AddParams(AddParam(q, params[0], table), params[1..], table)
  }

  /** add_params: the parameters of one selection, added one after another. */
  method ExtendParams(q: QueryParams, params: seq<ParamType>, table: string) returns (r: QueryParams)
    ensures r == AddParams(q, params, table)
  {
    r := q;
    assert params[0..] == params;
    for i := 0 to |params|
      invariant AddParams(q, params, table) == AddParams(r, params[i..], table)
    {
      assert params[i..][1..] == params[i + 1..];
      match params[i] {
        case FilterParam(f) => r := r.(filters := r.filters + [Filter(table, f)]);
        case SortParam(field, order) => r := r.(sorts := r.sorts + [Sort(table + "." + field, order)]);
        case OffsetParam(n) => r := r.(offset := Some(n));
        case LimitParam(n) => r := r.(limit := Some(n));
      }
    }
  }

  function FiltersOf(params: seq<ParamType>, table: string): seq<Filter> {
    if params == [] then []
    else (if params[0].FilterParam? then [Filter(table, params[0].filter)] else []) + FiltersOf(params[1..], table)
  }

  function SortsOf(params: seq<ParamType>, table: string): seq<Sort> {
    if params == [] then []
    else
      (if params[0].SortParam? then [Sort(table + "." + params[0].field, params[0].order)] else [])
      + SortsOf(params[1..], table)
  }

  /** The last of several values wins; without any the old one stays. */
  function LastOffset(params: seq<ParamType>, before: Option<nat>): Option<nat> {
    if params == [] then before
    else if params[|params| - 1].OffsetParam? then Some(params[|params| - 1].n)
    else LastOffset(params[..|params| - 1], before)
  }

  function LastLimit(params: seq<ParamType>, before: Option<nat>): Option<nat> {
    if params == [] then before
    else if params[|params| - 1].LimitParam? then Some(params[|params| - 1].n)
    else LastLimit(params[..|params| - 1], before)
  }

  lemma {:induction false} LastOfCons(p: ParamType, params: seq<ParamType>, before: Option<nat>)
    ensures LastOffset([p] + params, before) == LastOffset(params, if p.OffsetParam? then Some(p.n) else before)
    ensures LastLimit([p] + params, before) == LastLimit(params, if p.LimitParam? then Some(p.n) else before)
  {
    var all := [p] + params;
    if params == [] {
      assert all[..0] == [];
    } else {
      assert all[..|all| - 1] == [p] + params[..|params| - 1];
      LastOfCons(p, params[..|params| - 1], before);
    }
  }

  /** Filters and sorts are appended in order under the selection's table; of several offsets or limits the last one
      wins. */
  lemma {:induction false} AddParamsContents(q: QueryParams, params: seq<ParamType>, table: string)
    ensures var r := AddParams(q, params, table);
            && r.filters == q.filters + FiltersOf(params, table) && r.sorts == q.sorts + SortsOf(params, table)
            && r.offset == LastOffset(params, q.offset) && r.limit == LastLimit(params, q.limit)
    decreases |params|
  {
    if params != [] {
      var p, rest := params[0], params[1..];
      assert params == [p] + rest;
      AddParamsContents(AddParam(q, p, table), rest, table);
      LastOfCons(p, rest, q.offset);
      LastOfCons(p, rest, q.limit);
    }
  }
}
