/** Filters as SQL text, what the text means under SQL precedence, and inversion. */
module FilterSql {
  import opened Common
  import opened Arguments

  // ----- three-valued logic -----

  datatype Tri = False | Unknown | True

  function Not3(a: Tri): Tri {
    match a case False => True case Unknown => Unknown case True => False
  }

  function And3(a: Tri, b: Tri): Tri {
    if a == False || b == False then False else if a == Unknown || b == Unknown then Unknown else True
  }

  function Or3(a: Tri, b: Tri): Tri {
    Not3(And3(Not3(a), Not3(b)))
  }

  function Known(b: bool): Tri {
    if b then True else False
  }

  /** A row, with NULL as None, and how the database orders two values. */
  datatype Row = Row(cell: string -> Option<ParsedValue>, order: (ParsedValue, ParsedValue) -> int)

  datatype Op = Eq | Ne | Gt | Ge | Lt | Le

  function Holds(op: Op, order: int): bool {
    match op
    case Eq => order == 0
    case Ne => order != 0
    case Gt => order > 0
    case Ge => order >= 0
    case Lt => order < 0
    case Le => order <= 0
  }

  function CompareCell(row: Row, column: string, op: Op, v: ParsedValue): Tri {
    match row.cell(column)
    case None => Unknown
    case Some(c) => Known(Holds(op, row.order(c, v)))
  }

  function InCell(row: Row, column: string, members: seq<ParsedValue>): Tri {
    if members == [] then False else Or3(CompareCell(row, column, Eq, members[0]), InCell(row, column, members[1..]))
  }

  function NullCells(row: Row, columns: seq<string>, wanted: bool): Tri {
    if columns == [] then True else And3(Known(row.cell(columns[0]).None? == wanted), NullCells(row, columns[1..], wanted))
  }

  // ----- filters -----

  function Column(table: string, field: string): string {
    table + "." + field
  }

  function Columns(table: string, fields: seq<string>): (r: seq<string>)
    ensures |r| == |fields| && forall i :: 0 <= i < |fields| ==> r[i] == Column(table, fields[i])
  {
    seq(|fields|, i requires 0 <= i < |fields| => Column(table, fields[i]))
  }

  function EvalComparison(c: Comparison, table: string, row: Row): Tri {
    match c
    case Between(f, min, max) => And3(CompareCell(row, Column(table, f), Ge, min), CompareCell(row, Column(table, f), Le, max))
    case Greater(f, v) => CompareCell(row, Column(table, f), Gt, v)
    case GreaterEqual(f, v) => CompareCell(row, Column(table, f), Ge, v)
    case Less(f, v) => CompareCell(row, Column(table, f), Lt, v)
    case LessEqual(f, v) => CompareCell(row, Column(table, f), Le, v)
    case Equals(f, v) => CompareCell(row, Column(table, f), Eq, v)
    case NotEquals(f, v) => CompareCell(row, Column(table, f), Ne, v)
  }

  /** What a filter means on a row. */
  function Eval(f: FilterType, table: string, row: Row): Tri {
    match f
    case IdSelection(id) => CompareCell(row, Column(table, "id"), Eq, id)
    case Compare(c) => EvalComparison(c, table, row)
    case Member(In(field, members)) => InCell(row, Column(table, field), members)
    case Member(NotIn(field, members)) => Not3(InCell(row, Column(table, field), members))
    case NullCheck(NoNulls(columns)) => NullCells(row, Columns(table, columns), false)
    case NullCheck(OnlyNulls(columns)) => NullCells(row, Columns(table, columns), true)
    case Logic(And(a, b)) => And3(Eval(a, table, row), Eval(b, table, row))
    case Logic(Or(a, b)) => Or3(Eval(a, table, row), Eval(b, table, row))
    case Logic(Not(a)) => Not3(Eval(a, table, row))
  }

  // ----- rendering -----

  datatype Token =
    | Name(name: string) | Literal(value: ParsedValue) | Operator(op: Op)
    | AndWord | OrWord | NotWord | BetweenWord | InWord | IsWord | NullWord
    | LeftParen | RightParen | CommaSign

  function ComparisonTokens(c: Comparison, table: string): seq<Token> {
    match c
    case Between(f, min, max) => [Name(Column(table, f)), BetweenWord, Literal(min), AndWord, Literal(max)]
    case Greater(f, v) => [Name(Column(table, f)), Operator(Gt), Literal(v)]
    case GreaterEqual(f, v) => [Name(Column(table, f)), Operator(Ge), Literal(v)]
    case Less(f, v) => [Name(Column(table, f)), Operator(Lt), Literal(v)]
    case LessEqual(f, v) => [Name(Column(table, f)), Operator(Le), Literal(v)]
    case Equals(f, v) => [Name(Column(table, f)), Operator(Eq), Literal(v)]
    case NotEquals(f, v) => [Name(Column(table, f)), Operator(Ne), Literal(v)]
  }

  function LiteralList(members: seq<ParsedValue>): seq<Token> {
    if members == [] then []
    else [Literal(members[0])] + if |members| == 1 then [] else [CommaSign] + LiteralList(members[1..])
  }

  function NullTokens(column: string, wanted: bool): seq<Token> {
    if wanted then [Name(column), IsWord, NullWord] else [Name(column), IsWord, NotWord, NullWord]
  }

  /** The checks of one list are joined by AND, without parentheses. */
  function NullList(columns: seq<string>, wanted: bool): seq<Token> {
    if columns == [] then []
    else NullTokens(columns[0], wanted) + if |columns| == 1 then [] else [AndWord] + NullList(columns[1..], wanted)
  }

  function ToSql(f: FilterType, table: string): seq<Token> {
    match f
    case IdSelection(id) => [Name(Column(table, "id")), Operator(Eq), Literal(id)]
    case Compare(c) => ComparisonTokens(c, table)
    case Member(In(field, members)) => [Name(Column(table, field)), InWord, LeftParen] + LiteralList(members) + [RightParen]
    case Member(NotIn(field, members)) => [Name(Column(table, field)), NotWord, InWord, LeftParen] + LiteralList(members) + [RightParen]
    case NullCheck(NoNulls(columns)) => NullList(Columns(table, columns), false)
    case NullCheck(OnlyNulls(columns)) => NullList(Columns(table, columns), true)
    case Logic(And(a, b)) => [LeftParen] + ToSql(a, table) + [AndWord] + ToSql(b, table) + [RightParen]
    case Logic(Or(a, b)) => [LeftParen] + ToSql(a, table) + [OrWord] + ToSql(b, table) + [RightParen]
    case Logic(Not(_)) => []
  }

  /** The expressions after WHERE: all filters joined by AND. */
  function WhereTokens(filters: seq<Filter>): seq<Token> {
    if filters == [] then []
    else ToSql(filters[0].filterType, filters[0].table) + if |filters| == 1 then [] else [AndWord] + WhereTokens(filters[1..])
  }

  // ----- reading SQL back: OR binds weaker than AND, BETWEEN takes its own AND -----

  datatype Expr =
    | Comparing(column: string, op: Op, value: ParsedValue)
    | Ranging(column: string, min: ParsedValue, max: ParsedValue)
    | Listed(column: string, negated: bool, members: seq<ParsedValue>)
    | NullTest(column: string, wanted: bool)
    | Both(left: Expr, right: Expr)
    | Either(left: Expr, right: Expr)

  function EvalExpr(e: Expr, row: Row): Tri {
    match e
    case Comparing(c, op, v) => CompareCell(row, c, op, v)
    case Ranging(c, min, max) => And3(CompareCell(row, c, Ge, min), CompareCell(row, c, Le, max))
    case Listed(c, negated, members) => if negated then Not3(InCell(row, c, members)) else InCell(row, c, members)
    case NullTest(c, wanted) => Known(row.cell(c).None? == wanted)
    case Both(a, b) => And3(EvalExpr(a, row), EvalExpr(b, row))
    case Either(a, b) => Or3(EvalExpr(a, row), EvalExpr(b, row))
  }

  datatype Parsed<T> = Nothing | Read(value: T, rest: seq<Token>)

  function Next(tokens: seq<Token>): Option<Token> {
    if tokens == [] then None else Some(tokens[0])
  }

  function ReadOr(tokens: seq<Token>): (r: Parsed<Expr>)
    ensures r.Read? ==> |r.rest| < |tokens|
    decreases |tokens|, 2
  {
    match ReadAnd(tokens)
    case Nothing => Nothing
    case Read(left, rest) =>
      if Next(rest) != Some(OrWord) then Read(left, rest)
      else match ReadOr(rest[1..])
        case Nothing => Nothing
        case Read(right, rest') => Read(Either(left, right), rest')
  }

  function ReadAnd(tokens: seq<Token>): (r: Parsed<Expr>)
    ensures r.Read? ==> |r.rest| < |tokens|
    decreases |tokens|, 1
  {
    match ReadPrimary(tokens)
    case Nothing => Nothing
    case Read(left, rest) =>
      if Next(rest) != Some(AndWord) then Read(left, rest)
      else match ReadAnd(rest[1..])
        case Nothing => Nothing
        case Read(right, rest') => Read(Both(left, right), rest')
  }

  function ReadPrimary(tokens: seq<Token>): (r: Parsed<Expr>)
    ensures r.Read? ==> |r.rest| < |tokens|
    decreases |tokens|, 0
  {
    if tokens == [] then Nothing
    else match tokens[0]
      case LeftParen =>
        (match ReadOr(tokens[1..])
         case Nothing => Nothing
         case Read(e, rest) => if Next(rest) == Some(RightParen) then Read(e, rest[1..]) else Nothing)
      case Name(column) => ReadTest(column, tokens[1..])
      case _ => Nothing
  }

  function ReadTest(column: string, tokens: seq<Token>): (r: Parsed<Expr>)
    ensures r.Read? ==> |r.rest| < |tokens|
  {
    if |tokens| >= 2 && tokens[0].Operator? && tokens[1].Literal? then
      Read(Comparing(column, tokens[0].op, tokens[1].value), tokens[2..])
    else if |tokens| >= 4 && tokens[0] == BetweenWord && tokens[1].Literal? && tokens[2] == AndWord && tokens[3].Literal? then
      Read(Ranging(column, tokens[1].value, tokens[3].value), tokens[4..])
    else if |tokens| >= 2 && tokens[0] == InWord && tokens[1] == LeftParen then
      ReadMembers(column, false, tokens[2..])
    else if |tokens| >= 3 && tokens[0] == NotWord && tokens[1] == InWord && tokens[2] == LeftParen then
      ReadMembers(column, true, tokens[3..])
    else if |tokens| >= 2 && tokens[0] == IsWord && tokens[1] == NullWord then
      Read(NullTest(column, true), tokens[2..])
    else if |tokens| >= 3 && tokens[0] == IsWord && tokens[1] == NotWord && tokens[2] == NullWord then
      Read(NullTest(column, false), tokens[3..])
    else Nothing
  }

  function ReadMembers(column: string, negated: bool, tokens: seq<Token>): (r: Parsed<Expr>)
    ensures r.Read? ==> |r.rest| < |tokens|
  {
    match ReadLiterals(tokens)
    case Nothing => Nothing
    case Read(members, rest) => if Next(rest) == Some(RightParen) then Read(Listed(column, negated, members), rest[1..]) else Nothing
  }

  /** At least one literal, separated by commas. */
  function ReadLiterals(tokens: seq<Token>): (r: Parsed<seq<ParsedValue>>)
    ensures r.Read? ==> |r.rest| < |tokens|
  {
    if tokens == [] || !tokens[0].Literal? then Nothing
    else if Next(tokens[1..]) != Some(CommaSign) then Read([tokens[0].value], tokens[1..])
    else match ReadLiterals(tokens[2..])
      case Nothing => Nothing
      case Read(members, rest) => Read([tokens[0].value] + members, rest)
  }
}
