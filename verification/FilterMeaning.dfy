/** The WHERE text means the conjunction of the filters, exactly when it can be read at all. */
module FilterMeaning {
  import opened Common
  import opened Arguments
  import opened FilterSql

  /** No negation node, and no empty column or member list. */
  predicate Renderable(f: FilterType) {
    match f
    case IdSelection(_) => true
    case Compare(_) => true
    case Member(m) => m.members != []
    case NullCheck(check) => check.columns != []
    case Logic(And(a, b)) => Renderable(a) && Renderable(b)
    case Logic(Or(a, b)) => Renderable(a) && Renderable(b)
    case Logic(Not(_)) => false
  }

  /** Before `tail`, the tokens read as one or several conjuncts with the given joint meaning. */
  ghost predicate ReadsAs(tokens: seq<Token>, tail: seq<Token>, meaning: Tri, row: Row) {
    var r := ReadAnd(tokens + tail);
    if Next(tail) == Some(AndWord) then
      var more := ReadAnd(tail[1..]);
      && (r.Read? <==> more.Read?)
      && (r.Read? ==> r.rest == more.rest && EvalExpr(r.value, row) == And3(meaning, EvalExpr(more.value, row)))
    else
      r.Read? && r.rest == tail && EvalExpr(r.value, row) == meaning
  }

  lemma PrimaryReadsAs(tokens: seq<Token>, tail: seq<Token>, e: Expr, row: Row)
    requires ReadPrimary(tokens + tail) == Read(e, tail)
    ensures ReadsAs(tokens, tail, EvalExpr(e, row), row)
  {
  }

  /** A first conjunct, AND, and further conjuncts before the tail. */
  lemma JoinReadsAs(first: seq<Token>, others: seq<Token>, tail: seq<Token>, a: Tri, b: Tri, row: Row)
    requires ReadsAs(first, [AndWord] + others + tail, a, row) && ReadsAs(others, tail, b, row)
    ensures ReadsAs(first + ([AndWord] + others), tail, And3(a, b), row)
  {
    var rest := [AndWord] + others + tail;
    assert rest[1..] == others + tail;
    assert first + ([AndWord] + others) + tail == first + rest;
  }

  // ----- leaves -----

  lemma {:induction false} LiteralsRead(members: seq<ParsedValue>, tail: seq<Token>)
    requires members != [] && Next(tail) != Some(CommaSign)
    ensures ReadLiterals(LiteralList(members) + tail) == Read(members, tail)
  {
    if |members| == 1 {
      assert members == [members[0]];
      LastLiteralReads(members[0], tail);
    } else {
      var rest := LiteralList(members[1..]) + tail;
      hide ReadLiterals;
      LiteralsRead(members[1..], tail);
      LiteralReads(members[0], rest, members[1..], tail);
      assert LiteralList(members) + tail == [Literal(members[0]), CommaSign] + rest;
      assert [members[0]] + members[1..] == members;
    }
  }

  lemma LastLiteralReads(member: ParsedValue, tail: seq<Token>)
    requires Next(tail) != Some(CommaSign)
    ensures ReadLiterals([Literal(member)] + tail) == Read([member], tail)
  {
    assert ([Literal(member)] + tail)[1..] == tail;
  }

  lemma LiteralReads(member: ParsedValue, rest: seq<Token>, members: seq<ParsedValue>, tail: seq<Token>)
    requires ReadLiterals(rest) == Read(members, tail)
    ensures ReadLiterals([Literal(member), CommaSign] + rest) == Read([member] + members, tail)
  {
    var all := [Literal(member), CommaSign] + rest;
    assert all[1..] == [CommaSign] + rest && all[2..] == rest;
  }

  lemma MembersRead(column: string, negated: bool, members: seq<ParsedValue>, tail: seq<Token>)
    requires members != []
    ensures ReadMembers(column, negated, LiteralList(members) + [RightParen] + tail) == Read(Listed(column, negated, members), tail)
  {
    LiteralsRead(members, [RightParen] + tail);
    assert LiteralList(members) + [RightParen] + tail == LiteralList(members) + ([RightParen] + tail);
    assert ([RightParen] + tail)[1..] == tail;
  }

  lemma {:induction false} MembershipReads(m: Membership, table: string, tail: seq<Token>)
    requires m.members != []
    ensures ReadPrimary(ToSql(Member(m), table) + tail) == Read(Listed(Column(table, m.field), m.NotIn?, m.members), tail)
  {
    var column, body := Column(table, m.field), LiteralList(m.members);
    var inner := body + [RightParen] + tail;
    MembersRead(column, m.NotIn?, m.members, tail);
    hide ReadMembers, ReadPrimary, LiteralList, Column;
    if m.In? {
      InReads(column, inner, Listed(column, false, m.members), tail);
      assert [Name(column), InWord, LeftParen] + body + [RightParen] + tail == [Name(column), InWord, LeftParen] + inner;
    } else {
      NotInReads(column, inner, Listed(column, true, m.members), tail);
      assert [Name(column), NotWord, InWord, LeftParen] + body + [RightParen] + tail
          == [Name(column), NotWord, InWord, LeftParen] + inner;
    }
  }

  lemma InReads(column: string, inner: seq<Token>, e: Expr, tail: seq<Token>)
    requires ReadMembers(column, false, inner) == Read(e, tail)
    ensures ReadPrimary([Name(column), InWord, LeftParen] + inner) == Read(e, tail)
  {
    var after := [InWord, LeftParen] + inner;
    assert ([Name(column), InWord, LeftParen] + inner)[1..] == after;
    assert after[2..] == inner;
  }

  lemma NotInReads(column: string, inner: seq<Token>, e: Expr, tail: seq<Token>)
    requires ReadMembers(column, true, inner) == Read(e, tail)
    ensures ReadPrimary([Name(column), NotWord, InWord, LeftParen] + inner) == Read(e, tail)
  {
    var after := [NotWord, InWord, LeftParen] + inner;
    assert ([Name(column), NotWord, InWord, LeftParen] + inner)[1..] == after;
    assert after[3..] == inner;
  }

  lemma ComparisonReads(c: Comparison, table: string, tail: seq<Token>, row: Row)
    ensures var r := ReadPrimary(ComparisonTokens(c, table) + tail);
      r.Read? && r.rest == tail && EvalExpr(r.value, row) == EvalComparison(c, table, row)
  {
    var all := ComparisonTokens(c, table) + tail;
    if c.Between? {
      assert all[1..][4..] == tail;
    } else {
      assert all[1..][2..] == tail;
    }
  }

  lemma NullTestReads(column: string, wanted: bool, tail: seq<Token>)
    ensures ReadPrimary(NullTokens(column, wanted) + tail) == Read(NullTest(column, wanted), tail)
  {
    var all := NullTokens(column, wanted) + tail;
    if wanted {
      assert all[1..][2..] == tail;
    } else {
      assert all[1..][3..] == tail;
    }
  }

  lemma {:induction false} NullListReads(columns: seq<string>, wanted: bool, tail: seq<Token>, row: Row)
    requires columns != []
    ensures ReadsAs(NullList(columns, wanted), tail, NullCells(row, columns, wanted), row)
  {
    var first, others := NullTokens(columns[0], wanted), NullList(columns[1..], wanted);
    if |columns| == 1 {
      NullTestReads(columns[0], wanted, tail);
      PrimaryReadsAs(first, tail, NullTest(columns[0], wanted), row);
      assert NullList(columns, wanted) == first;
    } else {
      NullListReads(columns[1..], wanted, tail, row);
      NullTestReads(columns[0], wanted, [AndWord] + others + tail);
      PrimaryReadsAs(first, [AndWord] + others + tail, NullTest(columns[0], wanted), row);
      JoinReadsAs(first, others, tail, Known(row.cell(columns[0]).None? == wanted), NullCells(row, columns[1..], wanted), row);
    }
  }

  // ----- whole filters -----

  /** A parenthesised pair reads back as one primary. */
  lemma PairReads(a: seq<Token>, b: seq<Token>, word: Token, tail: seq<Token>, left: Tri, right: Tri, row: Row)
    requires word == AndWord || word == OrWord
    requires ReadsAs(a, [word] + b + ([RightParen] + tail), left, row) && ReadsAs(b, [RightParen] + tail, right, row)
    ensures var r := ReadPrimary([LeftParen] + a + [word] + b + [RightParen] + tail);
      && r.Read? && r.rest == tail
      && EvalExpr(r.value, row) == if word == AndWord then And3(left, right) else Or3(left, right)
  {
    var all, close := [LeftParen] + a + [word] + b + [RightParen] + tail, [RightParen] + tail;
    var rest := [word] + b + close;
    assert all[1..] == a + rest;
    assert rest[1..] == b + close;
    assert close[1..] == tail;
    assert Next(rest) == Some(word) && Next(close) == Some(RightParen);
    var second := ReadAnd(b + close);
    assert second.Read? && second.rest == close && EvalExpr(second.value, row) == right;
    assert ReadOr(b + close) == second;
    var whole := ReadOr(a + rest);
    assert whole.Read? && whole.rest == close;
    assert ReadPrimary(all) == Read(whole.value, tail);
  }

  lemma {:induction false} FilterReads(f: FilterType, table: string, tail: seq<Token>, row: Row)
    requires Renderable(f)
    ensures ReadsAs(ToSql(f, table), tail, Eval(f, table, row), row)
  {
    match f {
      case IdSelection(id) =>
        ComparisonReads(Equals("id", id), table, tail, row);
        PrimaryReadsAs(ToSql(f, table), tail, ReadPrimary(ToSql(f, table) + tail).value, row);
      case Compare(c) =>
        ComparisonReads(c, table, tail, row);
        PrimaryReadsAs(ToSql(f, table), tail, ReadPrimary(ToSql(f, table) + tail).value, row);
      case Member(m) =>
        MembershipReads(m, table, tail);
        PrimaryReadsAs(ToSql(f, table), tail, ReadPrimary(ToSql(f, table) + tail).value, row);
      case NullCheck(check) =>
        NullListReads(Columns(table, check.columns), check.OnlyNulls?, tail, row);
      case Logic(op) =>
        var a, b, word := op.left, op.right, if op.And? then AndWord else OrWord;
        FilterReads(a, table, [word] + ToSql(b, table) + ([RightParen] + tail), row);
        FilterReads(b, table, [RightParen] + tail, row);
        PairReads(ToSql(a, table), ToSql(b, table), word, tail, Eval(a, table, row), Eval(b, table, row), row);
        PrimaryReadsAs(ToSql(f, table), tail, ReadPrimary(ToSql(f, table) + tail).value, row);
    }
  }

  /** A parenthesised pair with an unreadable side is unreadable. */
  lemma PairFails(a: seq<Token>, b: seq<Token>, word: Token, tail: seq<Token>, left: Tri, row: Row)
    requires word == AndWord || word == OrWord
    requires ReadAnd(a + ([word] + b + ([RightParen] + tail))).Nothing?
          || (ReadsAs(a, [word] + b + ([RightParen] + tail), left, row) && ReadAnd(b + ([RightParen] + tail)).Nothing?)
    ensures ReadPrimary([LeftParen] + a + [word] + b + [RightParen] + tail).Nothing?
  {
    var all, close := [LeftParen] + a + [word] + b + [RightParen] + tail, [RightParen] + tail;
    var rest := [word] + b + close;
    assert all[1..] == a + rest;
    assert rest[1..] == b + close;
    assert Next(rest) == Some(word);
    assert ReadAnd(b + close).Nothing? ==> ReadOr(b + close).Nothing?;
    assert ReadOr(a + rest).Nothing?;
  }

  /** What can follow a filter in a WHERE text. */
  predicate Follows(tail: seq<Token>) {
    tail == [] || tail[0] == AndWord || tail[0] == OrWord || tail[0] == RightParen
  }

  /** A filter with a negation node or an empty list makes the text around it unreadable. */
  lemma {:induction false} UnrenderableFails(f: FilterType, table: string, tail: seq<Token>, row: Row)
    requires !Renderable(f) && Follows(tail)
    ensures ReadAnd(ToSql(f, table) + tail).Nothing?
  {
    var all := ToSql(f, table) + tail;
    match f {
      case Member(m) =>
        assert LiteralList(m.members) == [];
        if m.In? {
          assert all[1..][2..] == [RightParen] + tail;
        } else {
          assert all[1..][3..] == [RightParen] + tail;
        }
      case NullCheck(check) =>
        assert all == tail;
      case Logic(Not(_)) =>
        assert all == tail;
      case Logic(op) =>
        var a, b, word := ToSql(op.left, table), ToSql(op.right, table), if op.And? then AndWord else OrWord;
        if Renderable(op.left) {
          FilterReads(op.left, table, [word] + b + ([RightParen] + tail), row);
          UnrenderableFails(op.right, table, [RightParen] + tail, row);
        } else {
          UnrenderableFails(op.left, table, [word] + b + ([RightParen] + tail), row);
        }
        PairFails(a, b, word, tail, Eval(op.left, table, row), row);
    }
  }

  /** The conjunction of all filters on a row. */
  function EvalAll(filters: seq<Filter>, row: Row): Tri {
    if filters == [] then True else And3(Eval(filters[0].filterType, filters[0].table, row), EvalAll(filters[1..], row))
  }

  predicate AllRenderable(filters: seq<Filter>) {
    forall i :: 0 <= i < |filters| ==> Renderable(filters[i].filterType)
  }

  lemma {:induction false} ConjunctsRead(filters: seq<Filter>, row: Row)
    requires filters != []
    ensures AllRenderable(filters) ==> ReadsAs(WhereTokens(filters), [], EvalAll(filters, row), row)
    ensures !AllRenderable(filters) ==> ReadAnd(WhereTokens(filters)).Nothing?
  {
    var first, table := filters[0].filterType, filters[0].table;
    var others := WhereTokens(filters[1..]);
    var tail := if |filters| == 1 then [] else [AndWord] + others;
    assert WhereTokens(filters) == ToSql(first, table) + tail;
    if !Renderable(first) {
      UnrenderableFails(first, table, tail, row);
    } else {
      FilterReads(first, table, tail, row);
      if |filters| == 1 {
        assert ToSql(first, table) + tail == ToSql(first, table);
      } else {
        ConjunctsRead(filters[1..], row);
        assert tail[1..] == others && others + [] == others && tail + [] == tail;
        if AllRenderable(filters[1..]) {
          JoinReadsAs(ToSql(first, table), others, [], Eval(first, table, row), EvalAll(filters[1..], row), row);
        }
      }
    }
  }

  /** The text after WHERE can be read to its end exactly when every filter is renderable, and then it denotes, on
      every row, the three-valued conjunction of the filters. */
  lemma WhereMeansConjunction(filters: seq<Filter>, row: Row)
    requires filters != []
    ensures var r := ReadOr(WhereTokens(filters));
      && (r.Read? && r.rest == [] <==> AllRenderable(filters))
      && (AllRenderable(filters) ==> EvalExpr(r.value, row) == EvalAll(filters, row))
  {
    ConjunctsRead(filters, row);
    assert WhereTokens(filters) + [] == WhereTokens(filters);
  }
}
