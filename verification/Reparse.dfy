/** Parsing the tokens of a tree gives the tree back, up to mangled strings and variables that were not written. */
module Reparse {
  import opened Common
  import opened Lexer
  import opened Strings
  import opened StringFacts
  import opened Syntax
  import opened Grammar

  // ----- what comes back -----

  function RereadValue(v: Value): Value {
    match v
    case Str(text) => Str(MangledAll(text))
    case List(items) => List(RereadValues(items))
    case Object(entries) => Object(RereadEntries(entries))
    case _ => v
  }

  function RereadValues(items: seq<Value>): (r: seq<Value>)
    ensures |r| == |items|
  {
    if items == [] then [] else [RereadValue(items[0])] + RereadValues(items[1..])
  }

  function RereadEntries(entries: seq<Entry>): (r: seq<Entry>)
    ensures |r| == |entries| && forall i :: 0 <= i < |r| ==> r[i].name == entries[i].name
  {
    if entries == [] then []
    else [Entry(entries[0].name, RereadValue(entries[0].value))] + RereadEntries(entries[1..])
  }

  function RereadDirectives(directives: seq<Directive>): (r: seq<Directive>)
    ensures |r| == |directives|
  {
    if directives == [] then []
    else [Directive(directives[0].name, RereadEntries(directives[0].arguments))] + RereadDirectives(directives[1..])
  }

  function RereadSelection(s: Selection): Selection
    decreases s
  {
    match s
    case Field(alias, name, arguments, directives, items) =>
      Field(alias, name, RereadEntries(arguments), RereadDirectives(directives), RereadSelections(items))
    case InlineFragment(on, directives, items) =>
      InlineFragment(on, RereadDirectives(directives), RereadSelections(items))
    case FragmentSpread(name, directives) => FragmentSpread(name, RereadDirectives(directives))
  }

  function RereadSelections(items: seq<Selection>): (r: seq<Selection>)
    ensures |r| == |items|
    decreases items
  {
    if items == [] then [] else [RereadSelection(items[0])] + RereadSelections(items[1..])
  }

  function RereadVariables(variables: seq<VariableDefinition>): (r: seq<VariableDefinition>)
    ensures |r| == |variables|
  {
    if variables == [] then []
    else
      var v := variables[0];
      var defaultValue := if v.defaultValue.Some? then Some(RereadValue(v.defaultValue.value)) else None;
      [v.(defaultValue := defaultValue)] + RereadVariables(variables[1..])
  }

  function RereadDefinition(d: Definition): Definition {
    match d
    case SelectionSet(items) => SelectionSet(RereadSelections(items))
    case Operation(kind, name, variables, directives, items) =>
      Operation(kind, name, RereadVariables(WrittenVariables(kind, name, variables)), RereadDirectives(directives),
                RereadSelections(items))
    case Fragment(name, on, directives, items) =>
      Fragment(name, on, RereadDirectives(directives), RereadSelections(items))
  }

  function Reread(d: Document): (r: Document)
    ensures |r| == |d|
  {
    if d == [] then [] else [RereadDefinition(d[0])] + Reread(d[1..])
  }

  // ----- values -----

  lemma {:induction false} DecimalDigits(n: nat)
    ensures Decimal(Digits(n)) == n
  {
    if n < 10 {
      assert [Digit(n)][..0] == "";
    } else {
      DecimalDigits(n / 10);
      assert Digits(n)[..|Digits(n)| - 1] == Digits(n / 10);
    }
  }

  lemma {:induction false} LessIsStrict(a: string, b: string)
    requires Less(a, b)
    ensures a != b && !Less(b, a)
  {
    if a != "" && a[0] == b[0] {
      LessIsStrict(a[1..], b[1..]);
    }
  }

  lemma {:induction false} InsertLast(entries: seq<Entry>, e: Entry)
    requires forall i :: 0 <= i < |entries| ==> Less(entries[i].name, e.name)
    ensures Insert(entries, e) == entries + [e]
  {
    if entries != [] {
      LessIsStrict(entries[0].name, e.name);
      InsertLast(entries[1..], e);
    }
  }

  /** Collecting sorted entries changes nothing. */
  lemma {:induction false} CollectedSorted(entries: seq<Entry>)
    requires SortedByName(entries)
    ensures Collected(entries) == entries
  {
    if entries != [] {
      var n := |entries| - 1;
      CollectedSorted(entries[..n]);
      InsertLast(entries[..n], entries[n]);
      assert entries[..n] + [entries[n]] == entries;
    }
  }

  /** A value of one token. */
  predicate OneToken(v: Value) {
    !v.Variable? && !v.List? && !v.Object?
  }

  lemma {:induction false} PlainBack(v: Value, constant: bool)
    requires ValueOk(v, constant) && OneToken(v)
    ensures |ValueTokens(v)| == 1 && ValueTokens(v)[0].kind != Punctuator
    ensures ParsePlain(ValueTokens(v)[0]) == Some(RereadValue(v))
  {
    hide Digits, Quote, Decimal, MangledAll, Unquote, AllDigits;
    match v {
      case BigInt(n) => NumberBack(n, false);
      case Int(n) => NumberBack(n, true);
      case Str(text) => StringBack(text);
      case Float(literal) =>
      case Boolean(b) =>
      case Null =>
      case Enum(name) =>
    }
  }

  lemma {:induction false} NumberBack(n: nat, small: bool)
    requires n <= if small then MAX_U64 else MAX_U128
    ensures ParsePlain(Token(if small then IntValue else BigIntValue, Digits(n))) == Some(if small then Int(n) else BigInt(n))
  {
    DecimalDigits(n);
    hide Digits, Decimal;
  }

  lemma {:induction false} StringBack(text: string)
    ensures ParsePlain(Token(StringValue, Quote(text))) == Some(Str(MangledAll(text)))
  {
    ReadsMangled(text);
    hide Escaped, UnquoteFrom, MangledAll;
    assert Quote(text)[1..|Quote(text)| - 1] == Escaped(text);
  }

  lemma ValueStarts(v: Value, constant: bool, rest: seq<Token>)
    requires ValueSpelled(v, constant)
    ensures StartsValue(ValueTokens(v) + rest, constant)
  {
    if OneToken(v) {
      PlainBack(v, constant);
    }
  }

  lemma VariableReads(name: string, rest: seq<Token>)
    ensures ParseValue([P('$'), N(name)] + rest, false) == Done(Variable(name), rest)
  {
    var tokens := [P('$'), N(name)] + rest;
    assert tokens[1..][0] == N(name) && tokens[2..] == rest;
  }

  lemma OneTokenReads(token: Token, v: Value, constant: bool, rest: seq<Token>)
    requires token.kind != Punctuator && ParsePlain(token) == Some(v)
    ensures ParseValue([token] + rest, constant) == Done(v, rest)
  {
    assert ([token] + rest)[1..] == rest;
  }

  lemma ListReads(body: seq<Token>, items: seq<Value>, constant: bool, rest: seq<Token>)
    requires ParseValues(body + ([P(']')] + rest), constant) == Done(items, [P(']')] + rest)
    ensures ParseValue([P('[')] + body + [P(']')] + rest, constant) == Done(List(items), rest)
  {
    var tokens := [P('[')] + body + [P(']')] + rest;
    assert tokens[1..] == body + ([P(']')] + rest);
    assert ([P(']')] + rest)[1..] == rest;
  }

  lemma {:induction false} ObjectReads(body: seq<Token>, entries: seq<Entry>, constant: bool, rest: seq<Token>)
    requires ParseEntries(body + ([P('}')] + rest), constant) == Done(entries, [P('}')] + rest)
    ensures ParseValue([P('{')] + body + [P('}')] + rest, constant) == Done(Object(Collected(entries)), rest)
  {
    hide ParsePlain, ParseEntries, ParseValues, Collected;
    var after := [P('}')] + rest;
    var tokens := [P('{')] + (body + after);
    assert [P('{')] + body + [P('}')] + rest == tokens;
    assert tokens[1..] == body + after && after[1..] == rest;
  }

  lemma EntryReads(
      name: string, body: seq<Token>, v: Value, middle: seq<Token>, entries: seq<Entry>, constant: bool, rest: seq<Token>)
    requires ParseValue(body, constant) == Done(v, middle)
    requires ParseEntries(middle, constant) == Done(entries, rest)
    ensures ParseEntries([N(name), P(':')] + body, constant) == Done([Entry(name, v)] + entries, rest)
  {
    var tokens := [N(name), P(':')] + body;
    assert tokens[1..][0] == P(':') && tokens[2..] == body;
  }

  // ----- values, the fields of objects in any order -----

  /** A value as it may be spelled: the fields of an object in any order, and names more than once. */
  predicate ValueSpelled(v: Value, constant: bool) {
    match v
    case List(items) => ValuesSpelled(items, constant)
    case Object(entries) => EntriesSpelled(entries, constant)
    case _ => ValueOk(v, constant)
  }

  predicate ValuesSpelled(items: seq<Value>, constant: bool) {
    items == [] || (ValueSpelled(items[0], constant) && ValuesSpelled(items[1..], constant))
  }

  predicate EntriesSpelled(entries: seq<Entry>, constant: bool) {
    entries == [] || (IsName(entries[0].name) && ValueSpelled(entries[0].value, constant) && EntriesSpelled(entries[1..], constant))
  }

  /** The value that is read: strings as they are reread, the fields of an object collected. */
  function ValueRead(v: Value): Value {
    match v
    case List(items) => List(ValuesRead(items))
    case Object(entries) => Object(Collected(EntriesRead(entries)))
    case _ => RereadValue(v)
  }

  function ValuesRead(items: seq<Value>): seq<Value> {
    if items == [] then [] else [ValueRead(items[0])] + ValuesRead(items[1..])
  }

  function EntriesRead(entries: seq<Entry>): (r: seq<Entry>)
    ensures |r| == |entries| && forall i :: 0 <= i < |r| ==> r[i].name == entries[i].name && r[i].value == ValueRead(entries[i].value)
  {
    if entries == [] then [] else [Entry(entries[0].name, ValueRead(entries[0].value))] + EntriesRead(entries[1..])
  }

  /** The tokens of a value, spelled in any order, parse to the value with its objects collected. */
  lemma {:induction false} ValueReads(v: Value, constant: bool, rest: seq<Token>)
    requires ValueSpelled(v, constant)
    ensures ParseValue(ValueTokens(v) + rest, constant) == Done(ValueRead(v), rest)
    decreases v
  {
    hide ParseValue, ParseValues, ParseEntries, Collected;
    match v {
      case Variable(name) => VariableReads(name, rest);
      case List(items) =>
        ValuesReadBack(items, constant, [P(']')] + rest);
        ListReads(ValuesTokens(items), ValuesRead(items), constant, rest);
      case Object(entries) =>
        EntriesReadBack(entries, constant, [P('}')] + rest);
        ObjectReads(EntriesTokens(entries), EntriesRead(entries), constant, rest);
      case _ =>
        PlainBack(v, constant);
        OneTokenReads(ValueTokens(v)[0], RereadValue(v), constant, rest);
        assert ValueTokens(v) == [ValueTokens(v)[0]];
    }
  }

  lemma {:induction false} ValuesReadBack(items: seq<Value>, constant: bool, rest: seq<Token>)
    requires ValuesSpelled(items, constant) && Starts(rest, ']')
    ensures ParseValues(ValuesTokens(items) + rest, constant) == Done(ValuesRead(items), rest)
    decreases items
  {
    if items == [] {
      assert ValuesTokens(items) + rest == rest;
    } else {
      var after := ValuesTokens(items[1..]) + rest;
      assert ValuesTokens(items) + rest == ValueTokens(items[0]) + after;
      ValueStarts(items[0], constant, after);
      ValueReads(items[0], constant, after);
      ValuesReadBack(items[1..], constant, rest);
    }
  }

  lemma {:induction false} EntriesReadBack(entries: seq<Entry>, constant: bool, rest: seq<Token>)
    requires EntriesSpelled(entries, constant) && !StartsName(rest)
    ensures ParseEntries(EntriesTokens(entries) + rest, constant) == Done(EntriesRead(entries), rest)
    decreases entries
  {
    if entries == [] {
      assert EntriesTokens(entries) + rest == rest;
    } else {
      hide ParseValue, ParseEntries, ValueTokens, ValueRead, ValueSpelled;
      var e := entries[0];
      var after := EntriesTokens(entries[1..]) + rest;
      var body := ValueTokens(e.value) + after;
      assert EntriesTokens(entries) + rest == [N(e.name), P(':')] + body;
      ValueReads(e.value, constant, after);
      EntriesReadBack(entries[1..], constant, rest);
      EntryReads(e.name, body, ValueRead(e.value), after, EntriesRead(entries[1..]), constant, rest);
    }
  }

  lemma {:induction false} OkIsRead(v: Value, constant: bool)
    requires ValueOk(v, constant)
    ensures ValueSpelled(v, constant) && ValueRead(v) == RereadValue(v)
    decreases v
  {
    match v {
      case List(items) => ItemsAreRead(items, constant);
      case Object(entries) =>
        EntriesAreRead(entries, constant);
        CollectedSorted(RereadEntries(entries));
      case _ =>
    }
  }

  lemma {:induction false} ItemsAreRead(items: seq<Value>, constant: bool)
    requires ValuesOk(items, constant)
    ensures ValuesSpelled(items, constant) && ValuesRead(items) == RereadValues(items)
    decreases items
  {
    if items != [] {
      OkIsRead(items[0], constant);
      ItemsAreRead(items[1..], constant);
    }
  }

  lemma {:induction false} EntriesAreRead(entries: seq<Entry>, constant: bool)
    requires EntriesOk(entries, constant)
    ensures EntriesSpelled(entries, constant) && EntriesRead(entries) == RereadEntries(entries)
    decreases entries
  {
    if entries != [] {
      OkIsRead(entries[0].value, constant);
      EntriesAreRead(entries[1..], constant);
    }
  }

  lemma {:induction false} ValueBack(v: Value, constant: bool, rest: seq<Token>)
    requires ValueOk(v, constant)
    ensures ParseValue(ValueTokens(v) + rest, constant) == Done(RereadValue(v), rest)
  {
    OkIsRead(v, constant);
    ValueReads(v, constant, rest);
  }

  lemma {:induction false} EntriesBack(entries: seq<Entry>, constant: bool, rest: seq<Token>)
    requires EntriesOk(entries, constant) && !StartsName(rest)
    ensures ParseEntries(EntriesTokens(entries) + rest, constant) == Done(RereadEntries(entries), rest)
  {
    EntriesAreRead(entries, constant);
    EntriesReadBack(entries, constant, rest);
  }

  // ----- arguments, directives, types -----

  lemma ArgumentsRead(body: seq<Token>, arguments: seq<Entry>, rest: seq<Token>)
    requires arguments != [] && ParseEntries(body + ([P(')')] + rest), false) == Done(arguments, [P(')')] + rest)
    ensures ParseArguments([P('(')] + body + [P(')')] + rest) == Done(arguments, rest)
  {
    var tokens := [P('(')] + body + [P(')')] + rest;
    assert tokens[1..] == body + ([P(')')] + rest);
    assert ([P(')')] + rest)[1..] == rest;
  }

  lemma {:induction false} ArgumentsBack(arguments: seq<Entry>, rest: seq<Token>)
    requires EntriesOk(arguments, false) && !Starts(rest, '(')
    ensures ParseArguments(ArgumentsTokens(arguments) + rest) == Done(RereadEntries(arguments), rest)
  {
    if arguments == [] {
      assert ArgumentsTokens(arguments) + rest == rest;
    } else {
      hide ParseEntries, ParseArguments, EntriesTokens, RereadEntries;
      EntriesBack(arguments, false, [P(')')] + rest);
      ArgumentsRead(EntriesTokens(arguments), RereadEntries(arguments), rest);
    }
  }

  lemma DirectiveReads(name: string, body: seq<Token>, arguments: seq<Entry>, middle: seq<Token>,
                       directives: seq<Directive>, rest: seq<Token>)
    requires ParseArguments(body) == Done(arguments, middle) && ParseDirectives(middle) == Done(directives, rest)
    ensures ParseDirectives([P('@'), N(name)] + body) == Done([Directive(name, arguments)] + directives, rest)
  {
    var tokens := [P('@'), N(name)] + body;
    assert tokens[1..][0] == N(name) && tokens[2..] == body;
  }

  lemma DirectivesStart(directives: seq<Directive>, rest: seq<Token>, c: char)
    requires c != '@'
    ensures Starts(DirectivesTokens(directives) + rest, c) ==> directives == [] && Starts(rest, c)
  {
    if directives == [] {
      assert DirectivesTokens(directives) + rest == rest;
    }
  }

  lemma {:induction false} DirectivesCons(directives: seq<Directive>, rest: seq<Token>)
    requires directives != []
    ensures DirectivesTokens(directives) + rest ==
            [P('@'), N(directives[0].name)]
            + (ArgumentsTokens(directives[0].arguments) + (DirectivesTokens(directives[1..]) + rest))
  {
    hide ArgumentsTokens;
  }

  lemma {:induction false} DirectivesBack(directives: seq<Directive>, rest: seq<Token>)
    requires DirectivesOk(directives) && !Starts(rest, '@') && !Starts(rest, '(')
    ensures ParseDirectives(DirectivesTokens(directives) + rest) == Done(RereadDirectives(directives), rest)
    decreases directives
  {
    if directives == [] {
      assert DirectivesTokens(directives) + rest == rest;
    } else {
      var d := directives[0];
      var after := DirectivesTokens(directives[1..]) + rest;
      DirectivesCons(directives, rest);
      hide ParseArguments, ParseDirectives, ArgumentsTokens, RereadEntries, EntriesOk, DirectivesTokens;
      DirectivesStart(directives[1..], rest, '(');
      ArgumentsBack(d.arguments, after);
      DirectivesBack(directives[1..], rest);
      DirectiveReads(d.name, ArgumentsTokens(d.arguments) + after, RereadEntries(d.arguments), after,
                     RereadDirectives(directives[1..]), rest);
    }
  }

  /** A type and the mark that may stand behind it. */
  function Marked(t: Type, bang: bool): Type {
    if bang then NonNullType(t) else t
  }

  function Bang(bang: bool): seq<Token> {
    if bang then [P('!')] else []
  }

  lemma NamedTypeReads(name: string, bang: bool, rest: seq<Token>)
    requires !Starts(rest, '!')
    ensures ParseType([N(name)] + (Bang(bang) + rest)) == Done(Marked(NamedType(name), bang), rest)
  {
    assert ([N(name)] + (Bang(bang) + rest))[1..] == Bang(bang) + rest;
    BangReads(bang, rest);
  }

  lemma {:induction false} ListTypeReads(body: seq<Token>, t: Type, bang: bool, rest: seq<Token>)
    requires !Starts(rest, '!')
    requires ParseType(body + ([P(']')] + (Bang(bang) + rest))) == Done(t, [P(']')] + (Bang(bang) + rest))
    ensures ParseType([P('[')] + body + [P(']')] + (Bang(bang) + rest)) == Done(Marked(ListType(t), bang), rest)
  {
    BangReads(bang, rest);
    BareListReads(body, t, Bang(bang) + rest);
    hide ParseBareType, Bang;
  }

  lemma {:induction false} BareListReads(body: seq<Token>, t: Type, after: seq<Token>)
    requires ParseType(body + ([P(']')] + after)) == Done(t, [P(']')] + after)
    ensures ParseBareType([P('[')] + body + [P(']')] + after) == Done(ListType(t), after)
  {
    hide ParseType;
    var closing := [P(']')] + after;
    var tokens := [P('[')] + (body + closing);
    assert [P('[')] + body + [P(']')] + after == tokens;
    assert tokens[1..] == body + closing && closing[1..] == after;
  }

  lemma BangReads(bang: bool, rest: seq<Token>)
    requires !Starts(rest, '!')
    ensures Starts(Bang(bang) + rest, '!') <==> bang
    ensures bang ==> (Bang(bang) + rest)[1..] == rest
    ensures !bang ==> Bang(bang) + rest == rest
  {
    if bang {
      assert (Bang(bang) + rest)[1..] == rest;
    } else {
      assert Bang(bang) + rest == rest;
    }
  }

  lemma {:induction false} TypeBackMarked(t: Type, bang: bool, rest: seq<Token>)
    requires TypeOk(t) && !t.NonNullType? && !Starts(rest, '!')
    ensures ParseType(TypeTokens(t) + (Bang(bang) + rest)) == Done(Marked(t, bang), rest)
    decreases t, 0
  {
    match t {
      case NamedType(name) => NamedTypeReads(name, bang, rest);
      case ListType(inner) =>
        hide ParseType;
        TypeBack(inner, [P(']')] + (Bang(bang) + rest));
        ListTypeReads(TypeTokens(inner), inner, bang, rest);
    }
  }

  lemma {:induction false} TypeBack(t: Type, rest: seq<Token>)
    requires TypeOk(t) && !Starts(rest, '!')
    ensures ParseType(TypeTokens(t) + rest) == Done(t, rest)
    decreases t, 1
  {
    hide ParseType;
    if t.NonNullType? {
      TypeBackMarked(t.inner, true, rest);
      assert TypeTokens(t) + rest == TypeTokens(t.inner) + (Bang(true) + rest);
    } else {
      TypeBackMarked(t, false, rest);
      assert Bang(false) + rest == rest;
    }
  }

  // ----- selections -----

  /** What may stand behind a selection: another one or the end of the set. */
  predicate EndsSelection(rest: seq<Token>) {
    StartsSelection(rest) || Starts(rest, '}')
  }

  lemma SetReads(body: seq<Token>, items: seq<Selection>, rest: seq<Token>)
    requires items != [] && ParseSelections(body + ([P('}')] + rest)) == Done(items, [P('}')] + rest)
    ensures ParseSelectionSet([P('{')] + body + [P('}')] + rest) == Done(items, rest)
  {
    var tokens := [P('{')] + body + [P('}')] + rest;
    assert tokens[1..] == body + ([P('}')] + rest);
    assert ([P('}')] + rest)[1..] == rest;
  }

  lemma {:induction false} SetBack(items: seq<Selection>, rest: seq<Token>)
    requires SelectionsOk(items) && items != []
    ensures ParseSelectionSet(BlockTokens(items) + rest) == Done(RereadSelections(items), rest)
    decreases items, 1
  {
    hide ParseSelectionSet, ParseSelections, SelectionsTokens;
    SelectionsBack(items, [P('}')] + rest);
    SetReads(SelectionsTokens(items), RereadSelections(items), rest);
  }

  lemma SelectionStarts(s: Selection, rest: seq<Token>)
    ensures StartsSelection(SelectionTokens(s) + rest)
  {
  }

  lemma {:induction false} SelectionsBack(items: seq<Selection>, rest: seq<Token>)
    requires SelectionsOk(items) && Starts(rest, '}')
    ensures ParseSelections(SelectionsTokens(items) + rest) == Done(RereadSelections(items), rest)
    decreases items, 0
  {
    if items == [] {
      assert SelectionsTokens(items) + rest == rest;
    } else {
      hide ParseSelection, SelectionTokens, RereadSelection;
      var after := SelectionsTokens(items[1..]) + rest;
      SelectionsCons(items, rest);
      SelectionStarts(items[0], after);
      SelectionsEnd(items[1..], rest);
      SelectionBack(items[0], after);
      SelectionsBack(items[1..], rest);
    }
  }

  lemma {:induction false} SelectionsEnd(items: seq<Selection>, rest: seq<Token>)
    requires Starts(rest, '}')
    ensures EndsSelection(SelectionsTokens(items) + rest)
  {
    if items == [] {
      assert SelectionsTokens(items) + rest == rest;
    } else {
      hide SelectionTokens, SelectionsTokens;
      SelectionsCons(items, rest);
      SelectionStarts(items[0], SelectionsTokens(items[1..]) + rest);
    }
  }

  lemma {:induction false} SelectionsCons(items: seq<Selection>, rest: seq<Token>)
    requires items != []
    ensures SelectionsTokens(items) + rest == SelectionTokens(items[0]) + (SelectionsTokens(items[1..]) + rest)
  {
    hide SelectionTokens;
    var head, tail := SelectionTokens(items[0]), SelectionsTokens(items[1..]);
    assert SelectionsTokens(items) == head + tail;
    assert head + tail + rest == head + (tail + rest);
  }

  lemma {:induction false} SelectionBack(s: Selection, rest: seq<Token>)
    requires SelectionOk(s) && EndsSelection(rest)
    ensures ParseSelection(SelectionTokens(s) + rest) == Done(RereadSelection(s), rest)
    decreases s
  {
    match s {
      case Field(alias, name, arguments, directives, items) =>
        FieldBack(alias, name, arguments, directives, items, rest);
      case InlineFragment(on, directives, items) =>
        InlineBack(on, directives, items, rest);
      case FragmentSpread(name, directives) =>
        DirectivesBack(directives, rest);
        SpreadReads(name, DirectivesTokens(directives) + rest, RereadDirectives(directives), rest);
        assert SelectionTokens(s) + rest == [SPREAD, N(name)] + (DirectivesTokens(directives) + rest);
    }
  }

  lemma SpreadReads(name: string, body: seq<Token>, directives: seq<Directive>, rest: seq<Token>)
    requires name != "on" && ParseDirectives(body) == Done(directives, rest)
    ensures ParseSelection([SPREAD, N(name)] + body) == Done(FragmentSpread(name, directives), rest)
  {
    var tokens := [SPREAD, N(name)] + body;
    assert tokens[1..] == [N(name)] + body && tokens[1..][1..] == body;
  }

  function OptionalBlock(items: seq<Selection>): seq<Token> {
    if items == [] then [] else BlockTokens(items)
  }

  function AliasTokens(alias: Option<string>): seq<Token> {
    if alias.Some? then [N(alias.value), P(':')] else []
  }

  lemma FieldReads(alias: Option<string>, name: string, body: seq<Token>, arguments: seq<Entry>, middle: seq<Token>,
                   directives: seq<Directive>, after: seq<Token>, items: seq<Selection>, rest: seq<Token>)
    requires !Starts(body, ':')
    requires ParseArguments(body) == Done(arguments, middle) && ParseDirectives(middle) == Done(directives, after)
    requires if items == [] then !Starts(after, '{') && rest == after
             else Starts(after, '{') && ParseSelectionSet(after) == Done(items, rest)
    ensures ParseSelection(AliasTokens(alias) + [N(name)] + body) ==
            Done(Field(alias, name, arguments, directives, items), rest)
  {
    var tokens := AliasTokens(alias) + [N(name)] + body;
    if alias.Some? {
      assert tokens[1..][0] == P(':') && tokens[2..][0] == N(name) && tokens[3..] == body;
    } else {
      assert tokens == [N(name)] + body && tokens[1..] == body;
    }
  }

  /** What stands behind the arguments and the directives of a selection. */
  lemma BlockFollows(directives: seq<Directive>, items: seq<Selection>, rest: seq<Token>)
    requires EndsSelection(rest)
    ensures var after := OptionalBlock(items) + rest;
            && !Starts(after, '@') && !Starts(after, '(') && !Starts(after, ':')
            && (Starts(after, '{') <==> items != [])
            && var middle := DirectivesTokens(directives) + after;
               !Starts(middle, '(') && !Starts(middle, ':')
  {
    var after := OptionalBlock(items) + rest;
    if items == [] {
      assert after == rest;
    } else {
      assert after[0] == P('{');
    }
    DirectivesStart(directives, after, '(');
    DirectivesStart(directives, after, ':');
  }

  lemma ArgumentsStart(arguments: seq<Entry>, rest: seq<Token>)
    requires !Starts(rest, ':')
    ensures !Starts(ArgumentsTokens(arguments) + rest, ':')
  {
    if arguments == [] {
      assert ArgumentsTokens(arguments) + rest == rest;
    }
  }

  lemma {:induction false} FieldBack(alias: Option<string>, name: string, arguments: seq<Entry>,
                                     directives: seq<Directive>, items: seq<Selection>, rest: seq<Token>)
    requires SelectionOk(Field(alias, name, arguments, directives, items)) && EndsSelection(rest)
    ensures var s := Field(alias, name, arguments, directives, items);
            ParseSelection(SelectionTokens(s) + rest) == Done(RereadSelection(s), rest)
    decreases items, 2
  {
    var after := OptionalBlock(items) + rest;
    var middle := DirectivesTokens(directives) + after;
    var body := ArgumentsTokens(arguments) + middle;
    FieldTokens(alias, name, arguments, directives, items, rest);
    hide ParseSelection, ParseArguments, ParseDirectives, ParseSelectionSet, SelectionTokens;
    hide ArgumentsTokens, DirectivesTokens, BlockTokens, SelectionsOk, EntriesOk, DirectivesOk;
    BlockFollows(directives, items, rest);
    ArgumentsStart(arguments, middle);
    ArgumentsBack(arguments, middle);
    DirectivesBack(directives, after);
    if items != [] {
      SetBack(items, rest);
    } else {
      assert after == rest;
    }
    FieldReads(alias, name, body, RereadEntries(arguments), middle, RereadDirectives(directives), after,
               RereadSelections(items), rest);
  }

  lemma FieldTokens(alias: Option<string>, name: string, arguments: seq<Entry>, directives: seq<Directive>,
                    items: seq<Selection>, rest: seq<Token>)
    ensures SelectionTokens(Field(alias, name, arguments, directives, items)) + rest ==
            AliasTokens(alias) + [N(name)]
            + (ArgumentsTokens(arguments) + (DirectivesTokens(directives) + (OptionalBlock(items) + rest)))
  {
    hide ArgumentsTokens, DirectivesTokens, SelectionsTokens;
  }

  function OnTokens(on: Option<string>): seq<Token> {
    if on.Some? then [N("on"), N(on.value)] else []
  }

  lemma {:induction false} InlineReads(on: Option<string>, body: seq<Token>, directives: seq<Directive>, after: seq<Token>,
                    items: seq<Selection>, rest: seq<Token>)
    requires Starts(body, '@') || Starts(body, '{')
    requires ParseDirectives(body) == Done(directives, after) && ParseSelectionSet(after) == Done(items, rest)
    ensures ParseSelection([SPREAD] + OnTokens(on) + body) == Done(InlineFragment(on, directives, items), rest)
  {
    hide ParseField, ParseDirectives, ParseSelectionSet;
    var after' := OnTokens(on) + body;
    var tokens := [SPREAD] + after';
    assert [SPREAD] + OnTokens(on) + body == tokens && tokens[1..] == after';
    if on.Some? {
      assert after'[1..][0] == N(on.value) && after'[2..] == body;
    } else {
      assert OnTokens(on) + body == body;
    }
  }

  lemma {:induction false} InlineBack(on: Option<string>, directives: seq<Directive>, items: seq<Selection>,
                                      rest: seq<Token>)
    requires SelectionOk(InlineFragment(on, directives, items))
    ensures var s := InlineFragment(on, directives, items);
            ParseSelection(SelectionTokens(s) + rest) == Done(RereadSelection(s), rest)
    decreases items, 2
  {
    var after := BlockTokens(items) + rest;
    var body := DirectivesTokens(directives) + after;
    InlineTokens(on, directives, items, rest);
    DirectivesThenBlock(directives, items, rest);
    hide ParseSelection, ParseDirectives, ParseSelectionSet, SelectionTokens;
    hide DirectivesTokens, BlockTokens, SelectionsOk, DirectivesOk;
    DirectivesBack(directives, after);
    SetBack(items, rest);
    InlineReads(on, body, RereadDirectives(directives), after, RereadSelections(items), rest);
  }

  lemma InlineTokens(on: Option<string>, directives: seq<Directive>, items: seq<Selection>, rest: seq<Token>)
    ensures SelectionTokens(InlineFragment(on, directives, items)) + rest ==
            [SPREAD] + OnTokens(on) + (DirectivesTokens(directives) + (BlockTokens(items) + rest))
  {
    hide DirectivesTokens, SelectionsTokens;
  }

  lemma DirectivesThenBlock(directives: seq<Directive>, items: seq<Selection>, rest: seq<Token>)
    ensures var after := BlockTokens(items) + rest;
            && Starts(after, '{')
            && var body := DirectivesTokens(directives) + after; Starts(body, '@') || Starts(body, '{')
  {
    if directives == [] {
      assert DirectivesTokens(directives) + (BlockTokens(items) + rest) == BlockTokens(items) + rest;
    }
  }

  // ----- definitions -----

  lemma VariableReadsBare(name: string, body: seq<Token>, t: Type, rest: seq<Token>)
    requires ParseType(body) == Done(t, rest) && !Starts(rest, '=')
    ensures ParseVariable([P('$'), N(name), P(':')] + body) == Done(VariableDefinition(name, t, None), rest)
  {
    var tokens := [P('$'), N(name), P(':')] + body;
    assert tokens[1..][0] == N(name) && tokens[2..][0] == P(':') && tokens[3..] == body;
  }

  lemma VariableReadsDefault(name: string, body: seq<Token>, t: Type, after: seq<Token>, v: Value, rest: seq<Token>)
    requires ParseType(body) == Done(t, [P('=')] + after) && ParseValue(after, true) == Done(v, rest)
    ensures ParseVariable([P('$'), N(name), P(':')] + body) == Done(VariableDefinition(name, t, Some(v)), rest)
  {
    var tokens := [P('$'), N(name), P(':')] + body;
    assert tokens[1..][0] == N(name) && tokens[2..][0] == P(':') && tokens[3..] == body;
    assert ([P('=')] + after)[1..] == after;
  }

  lemma {:induction false} VariableBack(v: VariableDefinition, rest: seq<Token>)
    requires VariablesOk([v]) && !Starts(rest, '=') && !Starts(rest, '!')
    ensures ParseVariable(VariableTokens(v) + rest) == Done(RereadVariables([v])[0], rest)
  {
    hide ParseVariable, ParseType, ParseValue, TypeTokens, ValueTokens, TypeOk, ValueOk;
    if v.defaultValue.Some? {
      var default := v.defaultValue.value;
      var after := ValueTokens(default) + rest;
      ValueBack(default, true, rest);
      TypeBack(v.varType, [P('=')] + after);
      VariableReadsDefault(v.name, TypeTokens(v.varType) + ([P('=')] + after), v.varType, after, RereadValue(default), rest);
      assert VariableTokens(v) + rest == [P('$'), N(v.name), P(':')] + (TypeTokens(v.varType) + ([P('=')] + after));
    } else {
      TypeBack(v.varType, rest);
      VariableReadsBare(v.name, TypeTokens(v.varType) + rest, v.varType, rest);
      assert VariableTokens(v) + rest == [P('$'), N(v.name), P(':')] + (TypeTokens(v.varType) + rest);
    }
  }

  lemma VariablesStart(variables: seq<VariableDefinition>, rest: seq<Token>)
    requires Starts(rest, ')')
    ensures var tokens := VariablesTokens(variables) + rest;
            !Starts(tokens, '=') && !Starts(tokens, '!') && (Starts(tokens, '$') <==> variables != [])
  {
    if variables == [] {
      assert VariablesTokens(variables) + rest == rest;
    } else {
      assert (VariablesTokens(variables) + rest)[0] == P('$');
    }
  }

  lemma {:induction false} VariablesBack(variables: seq<VariableDefinition>, rest: seq<Token>)
    requires VariablesOk(variables) && Starts(rest, ')')
    ensures ParseVariables(VariablesTokens(variables) + rest) == Done(RereadVariables(variables), rest)
  {
    VariablesStart(variables, rest);
    if variables == [] {
      assert VariablesTokens(variables) + rest == rest;
    } else {
      var after := VariablesTokens(variables[1..]) + rest;
      VariablesStart(variables[1..], rest);
      RereadCons(variables);
      VariablesCons(variables, rest);
      hide ParseVariable, ParseVariables, VariableTokens, VariablesTokens, TypeOk, ValueOk, IsName, RereadVariables;
      VariableBack(variables[0], after);
      VariablesBack(variables[1..], rest);
      VariablesStep(VariablesTokens(variables) + rest, RereadVariables([variables[0]])[0], after, RereadVariables(variables[1..]), rest);
    }
  }

  lemma {:induction false} VariablesStep(tokens: seq<Token>, v: VariableDefinition, after: seq<Token>,
                                         variables: seq<VariableDefinition>, rest: seq<Token>)
    requires Starts(tokens, '$') && ParseVariable(tokens) == Done(v, after) && ParseVariables(after) == Done(variables, rest)
    ensures ParseVariables(tokens) == Done([v] + variables, rest)
  {
    hide ParseVariable;
  }

  lemma RereadCons(variables: seq<VariableDefinition>)
    requires variables != []
    ensures RereadVariables(variables) == [RereadVariables([variables[0]])[0]] + RereadVariables(variables[1..])
  {
    hide RereadValue;
  }

  lemma VariablesCons(variables: seq<VariableDefinition>, rest: seq<Token>)
    requires variables != []
    ensures VariablesTokens(variables) + rest == VariableTokens(variables[0]) + (VariablesTokens(variables[1..]) + rest)
  {
    hide VariableTokens;
  }

  function VariableBlockTokens(variables: seq<VariableDefinition>): seq<Token> {
    if variables == [] then [] else [P('(')] + VariablesTokens(variables) + [P(')')]
  }

  lemma {:induction false} VariableBlockBack(variables: seq<VariableDefinition>, rest: seq<Token>)
    requires VariablesOk(variables) && !Starts(rest, '(')
    ensures ParseVariableBlock(VariableBlockTokens(variables) + rest) == Done(RereadVariables(variables), rest)
  {
    if variables == [] {
      assert VariableBlockTokens(variables) + rest == rest;
    } else {
      hide ParseVariables, ParseVariableBlock, VariablesTokens, RereadVariables, VariablesOk;
      VariablesBack(variables, [P(')')] + rest);
      VariableBlockReads(VariablesTokens(variables), RereadVariables(variables), rest);
    }
  }

  lemma VariableBlockReads(body: seq<Token>, variables: seq<VariableDefinition>, rest: seq<Token>)
    requires variables != [] && ParseVariables(body + ([P(')')] + rest)) == Done(variables, [P(')')] + rest)
    ensures ParseVariableBlock([P('(')] + body + [P(')')] + rest) == Done(variables, rest)
  {
    var tokens := [P('(')] + body + [P(')')] + rest;
    assert tokens[1..] == body + ([P(')')] + rest);
    assert ([P(')')] + rest)[1..] == rest;
  }

  function NameTokens(name: Option<string>): seq<Token> {
    if name.Some? then [N(name.value)] else []
  }

  lemma OperationReads(
      kind: OperationKind, name: Option<string>, body: seq<Token>, variables: seq<VariableDefinition>, middle: seq<Token>,
      directives: seq<Directive>, after: seq<Token>, items: seq<Selection>, rest: seq<Token>)
    requires !StartsName(body) && ParseVariableBlock(body) == Done(variables, middle)
    requires ParseDirectives(middle) == Done(directives, after) && ParseSelectionSet(after) == Done(items, rest)
    ensures ParseOperation(kind, NameTokens(name) + body) == Done(Operation(kind, name, variables, directives, items), rest)
  {
    var tokens := NameTokens(name) + body;
    if name.Some? {
      assert tokens[1..] == body;
    } else {
      assert tokens == body;
    }
  }

  lemma KeywordReads(kind: OperationKind, tokens: seq<Token>)
    ensures ParseDefinition([N(Keyword(kind))] + tokens) == ParseOperation(kind, tokens)
  {
    hide ParseOperation, ParseFragment, ParseSelectionSet;
    assert ([N(Keyword(kind))] + tokens)[1..] == tokens;
    assert Keyword(Query)[0] == 'q' && Keyword(Mutation)[0] == 'm' && Keyword(Subscription)[0] == 's';
  }

  lemma {:induction false} OperationBack(d: Definition, rest: seq<Token>)
    requires DefinitionOk(d) && d.Operation?
    ensures ParseDefinition(DefinitionTokens(d) + rest) == Done(RereadDefinition(d), rest)
  {
    var written := WrittenVariables(d.kind, d.name, d.variables);
    var after := BlockTokens(d.items) + rest;
    var middle := DirectivesTokens(d.directives) + after;
    var body := VariableBlockTokens(written) + middle;
    OperationTokens(d, rest);
    DirectivesThenBlock(d.directives, d.items, rest);
    VariableBlockStart(written, middle);
    hide ParseDefinition, ParseVariableBlock, ParseDirectives, ParseSelectionSet, DefinitionTokens;
    hide VariableBlockTokens, DirectivesTokens, BlockTokens;
    VariableBlockBack(written, middle);
    DirectivesBack(d.directives, after);
    SetBack(d.items, rest);
    OperationReads(d.kind, d.name, body, RereadVariables(written), middle, RereadDirectives(d.directives), after,
                   RereadSelections(d.items), rest);
    KeywordReads(d.kind, NameTokens(d.name) + body);
  }

  lemma VariableBlockStart(variables: seq<VariableDefinition>, rest: seq<Token>)
    requires Starts(rest, '@') || Starts(rest, '{')
    ensures !StartsName(VariableBlockTokens(variables) + rest)
  {
    if variables == [] {
      assert VariableBlockTokens(variables) + rest == rest;
    }
  }

  lemma OperationTokens(d: Definition, rest: seq<Token>)
    requires d.Operation?
    ensures DefinitionTokens(d) + rest ==
            [N(Keyword(d.kind))]
            + (NameTokens(d.name)
               + (VariableBlockTokens(WrittenVariables(d.kind, d.name, d.variables))
                  + (DirectivesTokens(d.directives) + (BlockTokens(d.items) + rest))))
  {
    hide VariablesTokens, DirectivesTokens, BlockTokens, Keyword;
  }

  lemma FragmentReads(name: string, on: string, body: seq<Token>, directives: seq<Directive>, after: seq<Token>,
                      items: seq<Selection>, rest: seq<Token>)
    requires ParseDirectives(body) == Done(directives, after) && ParseSelectionSet(after) == Done(items, rest)
    ensures ParseDefinition([N("fragment"), N(name), N("on"), N(on)] + body) ==
            Done(Fragment(name, on, directives, items), rest)
  {
    hide ParseOperation, ParseDirectives, ParseSelectionSet;
    var tokens := [N("fragment"), N(name), N("on"), N(on)] + body;
    assert "fragment"[0] == 'f' && Keyword(Query)[0] == 'q' && Keyword(Mutation)[0] == 'm' && Keyword(Subscription)[0] == 's';
    var after := tokens[1..];
    assert after[0] == N(name) && after[1..][0] == N("on") && after[2..][0] == N(on) && after[3..] == body;
  }

  lemma {:induction false} FragmentBack(d: Definition, rest: seq<Token>)
    requires DefinitionOk(d) && d.Fragment?
    ensures ParseDefinition(DefinitionTokens(d) + rest) == Done(RereadDefinition(d), rest)
  {
    var after := BlockTokens(d.items) + rest;
    var body := DirectivesTokens(d.directives) + after;
    assert DefinitionTokens(d) + rest == [N("fragment"), N(d.fragment), N("on"), N(d.on)] + body;
    DirectivesThenBlock(d.directives, d.items, rest);
    hide ParseDefinition, ParseDirectives, ParseSelectionSet, DefinitionTokens, DirectivesTokens, BlockTokens;
    DirectivesBack(d.directives, after);
    SetBack(d.items, rest);
    FragmentReads(d.fragment, d.on, body, RereadDirectives(d.directives), after, RereadSelections(d.items), rest);
  }

  lemma {:induction false} SetDefinitionBack(items: seq<Selection>, rest: seq<Token>)
    requires SelectionsOk(items) && items != []
    ensures ParseDefinition(BlockTokens(items) + rest) == Done(SelectionSet(RereadSelections(items)), rest)
  {
    assert (BlockTokens(items) + rest)[0] == P('{');
    SetBack(items, rest);
  }

  lemma {:induction false} DefinitionBack(d: Definition, rest: seq<Token>)
    requires DefinitionOk(d)
    ensures ParseDefinition(DefinitionTokens(d) + rest) == Done(RereadDefinition(d), rest)
  {
    match d {
      case SelectionSet(items) => SetDefinitionBack(items, rest);
      case Operation(_, _, _, _, _) => OperationBack(d, rest);
      case Fragment(_, _, _, _) => FragmentBack(d, rest);
    }
  }

  lemma {:induction false} DefinitionsBack(d: Document)
    requires DefinitionsOk(d)
    ensures ParseDefinitions(DocumentTokens(d)) == Some(Reread(d))
  {
    if d != [] {
      hide ParseDefinition, DefinitionTokens, RereadDefinition, DefinitionOk;
      DefinitionBack(d[0], DocumentTokens(d[1..]));
      DefinitionsBack(d[1..]);
    }
  }

  /** Parsing the tokens of a document gives it back as it is reread. */
  lemma {:induction false} DocumentBack(d: Document)
    requires DocumentOk(d)
    ensures ParseDocument(DocumentTokens(d)) == Some(Reread(d))
  {
    DefinitionsBack(d);
  }
}
