/** What a filter written in a query says of a row, read off its keys, and that the parsed filter says the same. */
module FilterVerdicts {
  import opened Common
  import opened Arguments
  import opened Schemas
  import opened FilterSql
  import opened FilterInversion
  import opened FilterParsing
  import Syntax

  // ----- what the keys say -----

  /** What a filter says of a row, and what its negation says. */
  datatype Verdict = Verdict(holds: Tri, negated: Tri)

  /** A test whose negation says the opposite. */
  function Opposed(t: Tri): Verdict {
    Verdict(t, Not3(t))
  }

  /** A test of one cell, unknown on NULL. */
  function OnCell(cell: Option<ParsedValue>, test: ParsedValue -> bool): Tri {
    if cell.None? then Unknown else if test(cell.value) then True else False
  }

  function Literally(v: Value): Option<ParsedValue> {
    match v
    case BigInt(n) => Some(BigNumber(n))
    case Int(n) => Some(Number(n))
    case Str(s) => Some(Text(s))
    case Boolean(b) => Some(ParsedValue.Boolean(b))
    case _ => None
  }

  function AllLiterally(vs: seq<Value>): Option<seq<ParsedValue>> {
    if exists i :: 0 <= i < |vs| && Literally(vs[i]).None? then None
    else Some(seq(|vs|, i requires 0 <= i < |vs| => Literally(vs[i]).value))
  }

  /** A predicate of a field decides what is said, or fails, or leaves it to the next one. */
  datatype Saying = Says(verdict: Verdict) | Fails | PassesOn

  function Compares(key: string, cell: Option<ParsedValue>, order: (ParsedValue, ParsedValue) -> int, v: ParsedValue): Option<Tri> {
    if key == "equals" then Some(OnCell(cell, c => order(c, v) == 0))
    else if key == "gt" then Some(OnCell(cell, c => order(c, v) > 0))
    else if key == "gte" then Some(OnCell(cell, c => order(c, v) >= 0))
    else if key == "lt" then Some(OnCell(cell, c => order(c, v) < 0))
    else if key == "lte" then Some(OnCell(cell, c => order(c, v) <= 0))
    else None
  }

  function PredicateSays(cell: Option<ParsedValue>, order: (ParsedValue, ParsedValue) -> int, key: string, value: Value): Saying {
    if key == "between" then
      if !value.Object? || Lookup(value.entries, "min").None? || Lookup(value.entries, "max").None? then PassesOn
      else
        match (Literally(Lookup(value.entries, "min").value), Literally(Lookup(value.entries, "max").value))
        case (Some(min), Some(max)) =>
          Says(Verdict(OnCell(cell, c => order(c, min) >= 0 && order(c, max) <= 0),
                       OnCell(cell, c => order(c, min) < 0 && order(c, max) > 0)))
        case (_, _) => Fails
    else if key == "in" then
      if !value.List? then PassesOn
      else
        match AllLiterally(value.items)
        case None => Fails
        case Some(members) =>
          Says(Opposed(if members == [] then False
                       else OnCell(cell, c => exists i :: 0 <= i < |members| && order(c, members[i]) == 0)))
    else
      match Literally(value)
      case None => Fails
      case Some(v) => (match Compares(key, cell, order, v) case Some(t) => Says(Opposed(t)) case None => Fails)
  }

  /** The first predicate that does not pass on decides. */
  function FieldSays(cell: Option<ParsedValue>, order: (ParsedValue, ParsedValue) -> int, predicates: Entries): Option<Verdict> {
    if predicates == [] then None
    else match PredicateSays(cell, order, predicates[0].name, predicates[0].value)
      case Says(verdict) => Some(verdict)
      case Fails => None
      case PassesOn => FieldSays(cell, order, predicates[1..])
  }

  /** All named columns are filled; the negation says that all are NULL. */
  function HasSays(schema: Schema, entity: string, table: string, row: Row, elements: seq<Value>): Option<Verdict> {
    if exists i :: 0 <= i < |elements| && !(elements[i].Enum? && schema.FieldType(entity, elements[i].name).Some?) then None
    else Some(Verdict(
                if forall i :: 0 <= i < |elements| ==> row.cell(table + "." + elements[i].name).Some? then True else False,
                if forall i :: 0 <= i < |elements| ==> row.cell(table + "." + elements[i].name).None? then True else False))
  }

  /** Negation goes to both sides and leaves the connective as it is. */
  function Joined(key: string, a: Verdict, b: Verdict): Verdict {
    if key == "and" then Verdict(And3(a.holds, b.holds), And3(a.negated, b.negated))
    else Verdict(Or3(a.holds, b.holds), Or3(a.negated, b.negated))
  }

  /** What an object says. Its first entry decides; a connective joins what its own object says with what was said
      before, and if nothing was, with the next entry. Of two connectives in a row the second one joins. */
  function ObjectSays(schema: Schema, entity: string, table: string, row: Row, entries: Entries, before: Option<Verdict>): Option<Verdict>
    decreases entries
  {
    if entries == [] then None
    else
      var key, value := entries[0].name, entries[0].value;
      if key == "has" then
        if value.List? then HasSays(schema, entity, table, row, value.items) else None
      else if key == "not" then
        if !value.Object? then None
        else match ObjectSays(schema, entity, table, row, value.entries, before)
          case None => None
          case Some(inner) => Some(Verdict(inner.negated, inner.holds))
      else if key == "and" || key == "or" then
        if !value.Object? then None
        else match ObjectSays(schema, entity, table, row, value.entries, before)
          case None => None
          case Some(inner) =>
            if before.Some? then Some(Joined(key, before.value, inner))
            else if |entries| == 1 then None
            else
              var key', value' := entries[1].name, entries[1].value;
              if key' == "and" || key' == "or" then
                if !value'.Object? then None
                else
                  var second := ObjectSays(schema, entity, table, row, value'.entries, Some(inner));
                  if second.None? then None else Some(Joined(key', inner, second.value))
              else
                var next := ObjectSays(schema, entity, table, row, entries[1..], None);
                if next.None? then None else Some(Joined(key, inner, next.value))
      else if schema.FieldType(entity, key).Some? && value.Object? then
        FieldSays(row.cell(table + "." + key), row.order, value.entries)
      else None
  }

  // ----- the parsed filter says the same -----

  /** On the row the filter says what the verdict says, and so do their negations. */
  ghost predicate Agrees(f: FilterType, table: string, row: Row, verdict: Verdict) {
    Plain(f) && Invert(f).Ok? && Eval(f, table, row) == verdict.holds && Eval(Invert(f).value, table, row) == verdict.negated
  }

  ghost predicate AnswerAgrees(r: Answer, table: string, row: Row, said: Option<Verdict>) {
    (r.Ok? <==> said.Some?) && (r.Ok? ==> Agrees(r.value, table, row, said.value))
  }

  /** The first entry under a key is found. */
  lemma {:induction false} LookupFirst(entries: Entries, key: string, v: Value)
    ensures Lookup(entries, key) == Some(v) <==>
            exists i :: 0 <= i < |entries| && entries[i].name == key && entries[i].value == v
                        && forall j :: 0 <= j < i ==> entries[j].name != key
  {
    if entries != [] {
      var rest := entries[1..];
      LookupFirst(rest, key, v);
      if Lookup(rest, key) == Some(v) && entries[0].name != key {
        var i :| 0 <= i < |rest| && rest[i].name == key && rest[i].value == v && forall j :: 0 <= j < i ==> rest[j].name != key;
        assert entries[i + 1] == rest[i] && forall j :: 0 < j < i + 1 ==> entries[j] == rest[j - 1];
      }
      if i :| 0 <= i < |entries| && entries[i].name == key && entries[i].value == v && forall j :: 0 <= j < i ==> entries[j].name != key {
        if i > 0 {
          assert rest[i - 1] == entries[i] && forall j :: 0 <= j < i - 1 ==> rest[j] == entries[j + 1];
        }
      }
    }
  }

  lemma ValueIsLiteral(v: Value)
    ensures ParseValue(v).Ok? <==> Literally(v).Some?
    ensures ParseValue(v).Ok? ==> Literally(v) == Some(ParseValue(v).value)
  {
  }

  lemma {:induction false} ValuesAreLiteral(vs: seq<Value>)
    ensures ParseValues(vs) == AllLiterally(vs)
  {
    if vs != [] {
      ValueIsLiteral(vs[0]);
      ValuesAreLiteral(vs[1..]);
      var rest := vs[1..];
      assert forall i :: 0 < i < |vs| ==> vs[i] == rest[i - 1];
      if Literally(vs[0]).Some? {
        if i :| 0 <= i < |vs| && Literally(vs[i]).None? {
          assert Literally(rest[i - 1]).None?;
        } else {
          assert AllLiterally(vs).value == [Literally(vs[0]).value] + AllLiterally(rest).value;
        }
      }
    }
  }

  lemma {:induction false} InSays(row: Row, column: string, members: seq<ParsedValue>)
    ensures InCell(row, column, members) ==
            if members == [] then False
            else OnCell(row.cell(column), c => exists i :: 0 <= i < |members| && row.order(c, members[i]) == 0)
  {
    if members != [] {
      var rest := members[1..];
      InSays(row, column, rest);
      if row.cell(column).Some? {
        var c := row.cell(column).value;
        assert members == [members[0]] + rest;
        if i :| 0 <= i < |members| && row.order(c, members[i]) == 0 {
          if i > 0 {
            assert rest[i - 1] == members[i];
          }
        }
        if i :| 0 <= i < |rest| && row.order(c, rest[i]) == 0 {
          assert members[i + 1] == rest[i];
        }
      }
    }
  }

  lemma {:induction false} NullsSay(row: Row, columns: seq<string>, wanted: bool)
    ensures NullCells(row, columns, wanted) ==
            if forall i :: 0 <= i < |columns| ==> row.cell(columns[i]).None? == wanted then True else False
  {
    if columns != [] {
      var rest := columns[1..];
      NullsSay(row, rest, wanted);
      assert columns == [columns[0]] + rest;
      if forall i :: 0 <= i < |rest| ==> row.cell(rest[i]).None? == wanted {
        assert forall i :: 0 < i < |columns| ==> columns[i] == rest[i - 1];
      }
      if i :| 0 <= i < |rest| && row.cell(rest[i]).None? != wanted {
        assert columns[i + 1] == rest[i];
      }
    }
  }

  lemma {:induction false} HasReads(schema: Schema, entity: string, elements: seq<Value>)
    ensures var r := HasColumns(schema, entity, elements);
      && (r.Ok? <==> forall i :: 0 <= i < |elements| ==> elements[i].Enum? && schema.FieldType(entity, elements[i].name).Some?)
      && (r.Ok? ==> |r.value| == |elements| && forall i :: 0 <= i < |elements| ==> elements[i].Enum? && r.value[i] == elements[i].name)
  {
    if elements != [] {
      HasReads(schema, entity, elements[1..]);
      assert forall i :: 0 < i < |elements| ==> elements[i] == elements[1..][i - 1];
    }
  }

  lemma {:induction false} HasAgrees(schema: Schema, entity: string, table: string, row: Row, elements: seq<Value>)
    ensures HasColumns(schema, entity, elements).Ok? <==> HasSays(schema, entity, table, row, elements).Some?
    ensures HasColumns(schema, entity, elements).Ok? ==>
      Agrees(NullCheck(NoNulls(HasColumns(schema, entity, elements).value)), table, row, HasSays(schema, entity, table, row, elements).value)
  {
    HasReads(schema, entity, elements);
    if HasColumns(schema, entity, elements).Ok? {
      var columns := HasColumns(schema, entity, elements).value;
      var names := Columns(table, columns);
      NullsSay(row, names, false);
      NullsSay(row, names, true);
      assert forall i :: 0 <= i < |names| ==> names[i] == table + "." + elements[i].name;
    }
  }

  lemma {:induction false} PredicateAgrees(table: string, row: Row, field: string, key: string, value: Value)
    ensures var r, said := FieldPredicate(field, key, value), PredicateSays(row.cell(table + "." + field), row.order, key, value);
      && (r.None? <==> said.PassesOn?)
      && (r.Some? ==> AnswerAgrees(r.value, table, row, if said.Says? then Some(said.verdict) else None))
  {
    ValueIsLiteral(value);
    if value.List? {
      ValuesAreLiteral(value.items);
      if ParseValues(value.items).Some? {
        InSays(row, Column(table, field), ParseValues(value.items).value);
      }
    } else if value.Object? {
      if Lookup(value.entries, "min").Some? {
        ValueIsLiteral(Lookup(value.entries, "min").value);
      }
      if Lookup(value.entries, "max").Some? {
        ValueIsLiteral(Lookup(value.entries, "max").value);
      }
    }
  }

  lemma {:induction false} FieldAgrees(table: string, row: Row, field: string, predicates: Entries)
    ensures AnswerAgrees(FieldFilter(field, predicates), table, row, FieldSays(row.cell(table + "." + field), row.order, predicates))
  {
    if predicates != [] {
      hide FieldPredicate, PredicateSays, Agrees;
      PredicateAgrees(table, row, field, predicates[0].name, predicates[0].value);
      FieldAgrees(table, row, field, predicates[1..]);
    }
  }

  lemma {:induction false} JoinedAgrees(key: string, a: FilterType, b: FilterType, table: string, row: Row, va: Verdict, vb: Verdict)
    requires IsConnective(key) && Agrees(a, table, row, va) && Agrees(b, table, row, vb)
    ensures Agrees(Connect(key, a, b), table, row, Joined(key, va, vb))
  {
  }

  lemma {:induction false} NegatedAgrees(f: FilterType, table: string, row: Row, verdict: Verdict)
    requires Agrees(f, table, row, verdict)
    ensures Agrees(Invert(f).value, table, row, Verdict(verdict.negated, verdict.holds))
  {
    InvertPlain(f);
    InvertPlain(Invert(f).value);
    InvertTwice(f, table, row);
  }

  /** A filter object parses exactly when it says something, and the parsed filter says it of every row, negated or not. */
  lemma {:induction false} ObjectAgrees(schema: Schema, entity: string, table: string, row: Row, entries: Entries,
                                        prior: Option<FilterType>, before: Option<Verdict>)
    requires prior.Some? <==> before.Some?
    requires prior.Some? ==> Agrees(prior.value, table, row, before.value)
    ensures AnswerAgrees(ParseFilterObject(schema, entity, entries, prior), table, row,
                         ObjectSays(schema, entity, table, row, entries, before))
    decreases entries, 1
  {
    hide Agrees, FieldFilter, FieldSays, HasColumns, HasSays;
    if entries != [] {
      var key, value := entries[0].name, entries[0].value;
      if key == "has" {
        if value.List? {
          HasAgrees(schema, entity, table, row, value.items);
        }
      } else if key == "not" {
        if value.Object? {
          ObjectAgrees(schema, entity, table, row, value.entries, prior, before);
          NotAgrees(schema, entity, table, row, value, prior, before, entries[1..]);
        }
      } else if IsConnective(key) {
        ObjectIsConnective(schema, entity, entries, prior);
        if value.Object? {
          ObjectAgrees(schema, entity, table, row, value.entries, prior, before);
          ConnectiveAgrees(schema, entity, table, row, entries, prior, before);
        }
      } else if value.Object? {
        FieldAgrees(table, row, key, value.entries);
      }
    }
  }

  lemma {:induction false} NotAgrees(schema: Schema, entity: string, table: string, row: Row, value: Value,
                                     prior: Option<FilterType>, before: Option<Verdict>, rest: Entries)
    requires value.Object?
    requires AnswerAgrees(ParseFilterObject(schema, entity, value.entries, prior), table, row,
                          ObjectSays(schema, entity, table, row, value.entries, before))
    ensures var inner := ObjectSays(schema, entity, table, row, value.entries, before);
      AnswerAgrees(ParseEntry(schema, entity, "not", value, prior, rest).0, table, row,
                   if inner.None? then None else Some(Verdict(inner.value.negated, inner.value.holds)))
  {
    var r, inner := ParseFilterObject(schema, entity, value.entries, prior), ObjectSays(schema, entity, table, row, value.entries, before);
    if r.Ok? {
      NegatedAgrees(r.value, table, row, inner.value);
      InvertPlain(r.value);
    }
  }

  lemma {:induction false} ConnectiveAgrees(schema: Schema, entity: string, table: string, row: Row, entries: Entries,
                                            prior: Option<FilterType>, before: Option<Verdict>)
    requires entries != [] && IsConnective(entries[0].name) && entries[0].value.Object?
    requires prior.Some? <==> before.Some?
    requires prior.Some? ==> Agrees(prior.value, table, row, before.value)
    requires AnswerAgrees(ParseFilterObject(schema, entity, entries[0].value.entries, prior), table, row,
                          ObjectSays(schema, entity, table, row, entries[0].value.entries, before))
    ensures AnswerAgrees(ParseFilterObject(schema, entity, entries, prior), table, row,
                         ObjectSays(schema, entity, table, row, entries, before))
    decreases entries, 0
  {
    hide Agrees, FieldFilter, FieldSays, HasColumns, HasSays;
    var key, own := entries[0].name, entries[0].value.entries;
    var r, inner := ParseFilterObject(schema, entity, own, prior), ObjectSays(schema, entity, table, row, own, before);
    ObjectIsConnective(schema, entity, entries, prior);
    if r.Ok? {
      if prior.Some? {
        JoinedAgrees(key, prior.value, r.value, table, row, before.value, inner.value);
      } else if |entries| > 1 {
        var key', value', rest := entries[1].name, entries[1].value, entries[1..];
        assert rest[0] == entries[1];
        if IsConnective(key') {
          if value'.Object? {
            ObjectAgrees(schema, entity, table, row, value'.entries, Some(r.value), Some(inner.value));
            var second := ParseFilterObject(schema, entity, value'.entries, Some(r.value));
            if second.Ok? {
              JoinedAgrees(key', r.value, second.value, table, row, inner.value,
                           ObjectSays(schema, entity, table, row, value'.entries, Some(inner.value)).value);
            }
          }
        } else {
          ObjectAgrees(schema, entity, table, row, rest, None, None);
          var next := ParseFilterObject(schema, entity, rest, None);
          if next.Ok? {
            JoinedAgrees(key, r.value, next.value, table, row, inner.value,
                         ObjectSays(schema, entity, table, row, rest, None).value);
          }
        }
      }
    }
  }

  // ----- negation -----

  /** `not` negates: where the inner filter and its inverse are complementary, it says the opposite of what stands inside,
      and in any case it says what the inner object's negation says. */
  lemma {:induction false} NotNegates(schema: Schema, entity: string, table: string, row: Row, inner: Entries)
    requires ParseFilterObject(schema, entity, inner, None).Ok?
    ensures var f := ParseFilterObject(schema, entity, inner, None).value;
      var outer := ParseFilterObject(schema, entity, [Syntax.Entry("not", Syntax.Object(inner))], None);
      && outer.Ok? && ObjectSays(schema, entity, table, row, inner, None).Some?
      && Eval(outer.value, table, row) == ObjectSays(schema, entity, table, row, inner, None).value.negated
      && (ComplementAt(f, table, row) ==> Eval(outer.value, table, row) == Not3(Eval(f, table, row)))
  {
    ObjectAgrees(schema, entity, table, row, inner, None, None);
    var entries := [Syntax.Entry("not", Syntax.Object(inner))];
    NotAgrees(schema, entity, table, row, Syntax.Object(inner), None, None, []);
    assert entries[1..] == [];
  }

  // ----- arguments -----

  /** What each argument of a query asks for: a filter says what its object says, an id is compared with the id column, an
      order sorts by the first entry only, and the two numbers page. */
  lemma {:induction false} ArgumentAgrees(schema: Schema, entity: string, value: Value, table: string, row: Row)
    ensures var r := ParseArgument(schema, entity, "filter", value);
      && (r.Ok? <==> value.Object? && ObjectSays(schema, entity, table, row, value.entries, None).Some?)
      && (r.Ok? ==> r.value.FilterParam?
                    && Eval(r.value.filter, table, row) == ObjectSays(schema, entity, table, row, value.entries, None).value.holds)
    ensures var r := ParseArgument(schema, entity, "id", value);
      && (r.Ok? <==> Literally(value).Some?)
      && (r.Ok? ==> r.value.FilterParam?
                    && Eval(r.value.filter, table, row) == OnCell(row.cell(table + "." + "id"), c => row.order(c, Literally(value).value) == 0))
    ensures var r := ParseArgument(schema, entity, "order", value);
      && (r.Ok? <==> value.Object? && value.entries != [] && value.entries[0].value.Enum?
                     && schema.FieldType(entity, value.entries[0].value.name).Some?
                     && value.entries[0].name in {"asc", "desc"})
      && (r.Ok? ==> r.value == SortParam(value.entries[0].value.name, if value.entries[0].name == "asc" then Asc else Desc))
    ensures var r := ParseArgument(schema, entity, "first", value); (r.Ok? <==> value.Int?) && (r.Ok? ==> r.value == LimitParam(value.n))
    ensures var r := ParseArgument(schema, entity, "offset", value); (r.Ok? <==> value.Int?) && (r.Ok? ==> r.value == OffsetParam(value.n))
    ensures forall arg :: arg !in ["filter", "id", "order", "first", "offset"] ==> ParseArgument(schema, entity, arg, value).Err?
  {
    ValueIsLiteral(value);
    if value.Object? {
      ObjectAgrees(schema, entity, table, row, value.entries, None, None);
    }
  }
}
