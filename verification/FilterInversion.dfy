/** Inverting a filter, and when the inverse is the complement. */
module FilterInversion {
  import opened Common
  import opened Arguments
  import opened FilterSql
  import opened FilterMeaning

  function Invert(f: FilterType): Result<FilterType, string> {
    match f
    case IdSelection(_) => Err("ID selection")
    case Compare(c) => Ok(InvertComparison(c))
    case Member(In(field, members)) => Ok(Member(NotIn(field, members)))
    case Member(NotIn(field, members)) => Ok(Member(In(field, members)))
    case NullCheck(NoNulls(columns)) => Ok(NullCheck(OnlyNulls(columns)))
    case NullCheck(OnlyNulls(columns)) => Ok(NullCheck(NoNulls(columns)))
    case Logic(And(a, b)) => InvertBoth(Invert(a), Invert(b), true)
    case Logic(Or(a, b)) => InvertBoth(Invert(a), Invert(b), false)
    case Logic(Not(a)) => Ok(a)
  }

  function InvertComparison(c: Comparison): FilterType {
    match c
    case Between(f, min, max) => Logic(And(Compare(Less(f, min)), Compare(Greater(f, max))))
    case Greater(f, v) => Compare(LessEqual(f, v))
    case GreaterEqual(f, v) => Compare(Less(f, v))
    case Less(f, v) => Compare(GreaterEqual(f, v))
    case LessEqual(f, v) => Compare(Greater(f, v))
    case Equals(f, v) => Compare(NotEquals(f, v))
    case NotEquals(f, v) => Compare(Equals(f, v))
  }

  /** The sides are inverted, the connective stays. */
  function InvertBoth(a: Result<FilterType, string>, b: Result<FilterType, string>, conjunction: bool): Result<FilterType, string> {
    if a.Err? then a else if b.Err? then b
    else Ok(Logic(if conjunction then And(a.value, b.value) else Or(a.value, b.value)))
  }

  /** The filters the parser builds: no id selection, no negation node. */
  predicate Plain(f: FilterType) {
    match f
    case IdSelection(_) => false
    case Logic(And(a, b)) => Plain(a) && Plain(b)
    case Logic(Or(a, b)) => Plain(a) && Plain(b)
    case Logic(Not(_)) => false
    case _ => true
  }

  lemma {:induction false} InvertPlain(f: FilterType)
    requires Plain(f)
    ensures Invert(f).Ok? && Plain(Invert(f).value)
    ensures Renderable(Invert(f).value) <==> Renderable(f)
  {
    if f.Logic? {
      InvertPlain(f.op.left);
      InvertPlain(f.op.right);
    }
  }

  /** A double inversion changes no row's verdict. */
  lemma {:induction false} InvertTwice(f: FilterType, table: string, row: Row)
    requires Plain(f)
    ensures Invert(f).Ok? && Invert(Invert(f).value).Ok?
    ensures Eval(Invert(Invert(f).value).value, table, row) == Eval(f, table, row)
  {
    InvertPlain(f);
    InvertPlain(Invert(f).value);
    if f.Logic? {
      InvertTwice(f.op.left, table, row);
      InvertTwice(f.op.right, table, row);
    }
  }

  // ----- when one inversion is the complement -----

  ghost predicate ComplementAt(f: FilterType, table: string, row: Row) {
    Invert(f).Ok? && Eval(Invert(f).value, table, row) == Not3(Eval(f, table, row))
  }

  /** What a column may hold: NULL if it is nullable, and the values of its type. */
  datatype ColumnType = ColumnType(nullable: bool, holds: ParsedValue -> bool)

  /** How a database orders values, and its columns by their qualified names. */
  datatype Catalog = Catalog(order: (ParsedValue, ParsedValue) -> int, column: string -> ColumnType)

  predicate Holds(catalog: Catalog, column: string, v: ParsedValue) {
    catalog.column(column).holds(v)
  }

  /** A row the database can hold: its values are ordered as the database orders them, and each cell suits its column. */
  ghost predicate Stored(row: Row, catalog: Catalog) {
    && row.order == catalog.order
    && forall c :: match row.cell(c)
         case None => catalog.column(c).nullable
         case Some(v) => Holds(catalog, c, v)
  }

  ghost predicate HasValue(catalog: Catalog, column: string) {
    exists v :: Holds(catalog, column, v)
  }

  /** Every column's type has a value. */
  ghost predicate Inhabited(catalog: Catalog) {
    forall c :: HasValue(catalog, c)
  }

  /** The filter and its inverse are complementary on every row the database can hold. */
  ghost predicate Complements(f: FilterType, table: string, catalog: Catalog) {
    forall row | Stored(row, catalog) :: ComplementAt(f, table, row)
  }

  predicate InRange(order: (ParsedValue, ParsedValue) -> int, v: ParsedValue, min: ParsedValue, max: ParsedValue) {
    order(v, min) >= 0 && order(v, max) <= 0
  }

  /** Below the minimum and above the maximum at once, as the inverse of a range demands. */
  predicate Outranged(order: (ParsedValue, ParsedValue) -> int, v: ParsedValue, min: ParsedValue, max: ParsedValue) {
    order(v, min) < 0 && order(v, max) > 0
  }

  /** No value of the column's type fails both the range and its inverse; the columns of a null check are all one
      column, or none of them is nullable, and there is one. */
  ghost predicate InvertsCleanly(f: FilterType, table: string, catalog: Catalog) {
    match f
    case Compare(Between(field, min, max)) =>
      forall v | Holds(catalog, Column(table, field), v) :: InRange(catalog.order, v, min, max) || Outranged(catalog.order, v, min, max)
    case NullCheck(check) =>
      && check.columns != []
      && ((forall c | c in check.columns :: c == check.columns[0])
          || (forall c | c in check.columns :: !catalog.column(Column(table, c)).nullable))
    case _ => true
  }

  lemma {:induction false} EqualCells(row: Row, columns: seq<string>, missing: bool, wanted: bool)
    requires columns != [] && forall i :: 0 <= i < |columns| ==> row.cell(columns[i]).None? == missing
    ensures NullCells(row, columns, wanted) == Known(missing == wanted)
  {
    if |columns| > 1 {
      EqualCells(row, columns[1..], missing, wanted);
    }
  }

  lemma {:induction false} SomeCellFails(row: Row, columns: seq<string>, wanted: bool, i: nat)
    requires i < |columns| && row.cell(columns[i]).None? != wanted
    ensures NullCells(row, columns, wanted) == False
  {
    if i > 0 {
      SomeCellFails(row, columns[1..], wanted, i - 1);
    }
  }

  lemma QualifiedApart(table: string, a: string, b: string)
    requires a != b
    ensures Column(table, a) != Column(table, b)
  {
    assert Column(table, a)[|table| + 1..] == a && Column(table, b)[|table| + 1..] == b;
  }

  /** A value of the column's type. */
  ghost function Sample(catalog: Catalog, column: string): (v: ParsedValue)
    requires Inhabited(catalog)
    ensures Holds(catalog, column, v)
  {
    assert HasValue(catalog, column);
    var v :| Holds(catalog, column, v);
    v
  }

  /** A row with the given cell in one column and samples in all others. */
  ghost function SampleRow(catalog: Catalog, column: string, cell: Option<ParsedValue>): (row: Row)
    requires Inhabited(catalog)
    requires match cell case None => catalog.column(column).nullable case Some(v) => Holds(catalog, column, v)
    ensures Stored(row, catalog) && row.cell(column) == cell
    ensures forall c :: c != column ==> row.cell(c).Some?
  {
    Row(c => if c == column then cell else Some(Sample(catalog, c)), catalog.order)
  }

  /** Among filters without a connective, exactly those that invert cleanly invert to the complement on every row. */
  lemma {:induction false} InvertComplementsIff(f: FilterType, table: string, catalog: Catalog)
    requires Plain(f) && !f.Logic? && Inhabited(catalog)
    ensures Complements(f, table, catalog) <==> InvertsCleanly(f, table, catalog)
  {
    if InvertsCleanly(f, table, catalog) {
      forall row | Stored(row, catalog) ensures ComplementAt(f, table, row) {
        CleanComplements(f, table, catalog, row);
      }
    } else {
      var row := RowAgainst(f, table, catalog);
    }
  }

  lemma {:induction false} CleanComplements(f: FilterType, table: string, catalog: Catalog, row: Row)
    requires Plain(f) && !f.Logic? && InvertsCleanly(f, table, catalog) && Stored(row, catalog)
    ensures ComplementAt(f, table, row)
  {
    match f {
      case Compare(c) =>
        var column := Column(table, c.field);
        assert row.cell(column).Some? ==> Holds(catalog, column, row.cell(column).value);
      case Member(_) =>
      case NullCheck(check) =>
        var names := Columns(table, check.columns);
        var missing := row.cell(names[0]).None?;
        forall i | 0 <= i < |names| ensures row.cell(names[i]).None? == missing {
          assert check.columns[i] in check.columns && check.columns[0] in check.columns;
        }
        EqualCells(row, names, missing, true);
        EqualCells(row, names, missing, false);
    }
  }

  /** A row the database can hold on which the inverse is not the complement. */
  lemma {:induction false} RowAgainst(f: FilterType, table: string, catalog: Catalog) returns (row: Row)
    requires Plain(f) && !f.Logic? && Inhabited(catalog) && !InvertsCleanly(f, table, catalog)
    ensures Stored(row, catalog) && !ComplementAt(f, table, row)
  {
    if f.Compare? {
      var c, order := f.comparison, catalog.order;
      var column := Column(table, c.field);
      var v :| Holds(catalog, column, v) && !InRange(order, v, c.min, c.max) && !Outranged(order, v, c.min, c.max);
      row := SampleRow(catalog, column, Some(v));
      assert EvalComparison(c, table, row) == False;
      assert Eval(Invert(f).value, table, row) == False;
    } else if f.check.columns == [] {
      row := SampleRow(catalog, "", Some(Sample(catalog, "")));
      assert Columns(table, f.check.columns) == [];
      assert Eval(Invert(f).value, table, row) == True;
    } else {
      var columns, names := f.check.columns, Columns(table, f.check.columns);
      var c :| c in columns && catalog.column(Column(table, c)).nullable;
      var i :| 0 <= i < |columns| && columns[i] == c;
      var j :| 0 <= j < |columns| && columns[j] != c;
      QualifiedApart(table, columns[j], c);
      row := SampleRow(catalog, names[i], None);
      SomeCellFails(row, names, false, i);
      SomeCellFails(row, names, true, j);
      assert Eval(f, table, row) == False;
      assert Eval(Invert(f).value, table, row) == False;
    }
  }

  /** The database orders the column's values by a total preorder. */
  ghost predicate Lawful(catalog: Catalog, column: string) {
    && (forall a, b | Holds(catalog, column, a) && Holds(catalog, column, b) ::
          catalog.order(a, b) > 0 <==> catalog.order(b, a) < 0)
    && (forall a, b, c | Holds(catalog, column, a) && Holds(catalog, column, b) && Holds(catalog, column, c) ::
          catalog.order(a, b) <= 0 && catalog.order(b, c) <= 0 ==> catalog.order(a, c) <= 0)
  }

  /** Between ends of the column's own type, a range inverts to its complement exactly when every value of the type
      lies in it. */
  lemma {:induction false} RangeComplementsIff(field: string, min: ParsedValue, max: ParsedValue, table: string, catalog: Catalog)
    requires var column := Column(table, field);
      Inhabited(catalog) && Lawful(catalog, column) && Holds(catalog, column, min) && Holds(catalog, column, max)
    ensures Complements(Compare(Between(field, min, max)), table, catalog) <==>
            forall v | Holds(catalog, Column(table, field), v) :: InRange(catalog.order, v, min, max)
  {
    InvertComplementsIff(Compare(Between(field, min, max)), table, catalog);
    assert catalog.order(min, min) == 0 && !Outranged(catalog.order, min, min, max);
  }

  // ----- at concrete columns -----

  /** Numbers by size, false before true. */
  function UsualOrder(a: ParsedValue, b: ParsedValue): int {
    match (a, b)
    case (Number(m), Number(n)) => m - n
    case (Boolean(p), Boolean(q)) => if p == q then 0 else if p then 1 else -1
    case _ => 0
  }

  /** A range over numbers and its inverse both fail on a number beside the range. */
  lemma NumberRangeFails(field: string, table: string, catalog: Catalog, row: Row)
    requires catalog.order == UsualOrder && Stored(row, catalog) && row.cell(Column(table, field)) == Some(Number(5))
    ensures var f := Compare(Between(field, Number(1), Number(2)));
            Eval(f, table, row) == False && Eval(Invert(f).value, table, row) == False
  {
  }

  /** The range from false to true over a Boolean column inverts to its complement. */
  lemma BooleanRangeComplements(field: string, table: string, catalog: Catalog)
    requires Inhabited(catalog) && catalog.order == UsualOrder
    requires forall v :: Holds(catalog, Column(table, field), v) <==> v.Boolean?
    ensures Complements(Compare(Between(field, Boolean(false), Boolean(true))), table, catalog)
  {
    RangeComplementsIff(field, Boolean(false), Boolean(true), table, catalog);
  }

  /** A connective whose sides invert to complements inverts to the complement exactly where its sides agree. */
  lemma InvertConnectiveIff(f: FilterType, table: string, row: Row)
    requires f.Logic? && (f.op.And? || f.op.Or?)
    requires ComplementAt(f.op.left, table, row) && ComplementAt(f.op.right, table, row)
    ensures ComplementAt(f, table, row) <==> Eval(f.op.left, table, row) == Eval(f.op.right, table, row)
  {
  }

  /** `x = 1 and y = 1` and its inverse `x <> 1 and y <> 1` both fail on a row with 1 in x and 2 in y. */
  lemma KeptAndFails(x: string, y: string, table: string, row: Row)
    requires row.order == UsualOrder && row.cell(Column(table, x)) == Some(Number(1)) && row.cell(Column(table, y)) == Some(Number(2))
    ensures var f := Logic(And(Compare(Equals(x, Number(1))), Compare(Equals(y, Number(1)))));
            Invert(f).Ok? && Eval(f, table, row) == False && Eval(Invert(f).value, table, row) == False
  {
  }
}
