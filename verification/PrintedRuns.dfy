/** Everything the printer writes runs through: no two tokens are written so close that they would be read as one. */
module PrintedRuns {
  import opened Common
  import opened Lexer
  import opened Scanning
  import opened Strings
  import opened StringFacts
  import opened BlockStrings
  import opened Layouts
  import opened Syntax
  import opened Printing
  import opened PrintedTokens
  import Reparse

  // ----- tokens -----

  lemma PunctuatorIsToken(c: char)
    requires IsOpen(c) || IsClose(c) || IsSign(c)
    ensures IsToken(P(c)) && Tight(P(c))
  {
  }

  lemma NameIsToken(name: string)
    requires name != "" && IsNameStart(name[0]) && forall k :: 0 <= k < |name| ==> IsNameChar(name[k])
    ensures IsToken(N(name))
  {
    NameEndIs(name, 1, |name|);
  }

  lemma WordsAreTokens(kind: OperationKind)
    ensures IsToken(N(Keyword(kind))) && IsToken(N("fragment")) && IsToken(N("on"))
    ensures IsToken(N("true")) && IsToken(N("false")) && IsToken(N("null"))
  {
    NameIsToken(Keyword(kind));
    NameIsToken("fragment");
    NameIsToken("on");
    NameIsToken("true");
    NameIsToken("false");
    NameIsToken("null");
  }

  lemma {:induction false} NoLeadingZero(n: nat)
    requires n > 0
    ensures Digits(n)[0] != '0'
  {
    if n >= 10 {
      NoLeadingZero(n / 10);
    }
  }

  lemma DigitsStopNothing(text: string)
    requires AllDigits(text)
    ensures LastOf(text, '.', '.').None? && LastOf(text, 'e', 'E').None?
  {
    assert forall k :: 0 <= k < |text| ==> IsDigit(text[k]);
  }

  /** A number is written as an integer or, from 2^64 on, a big integer. */
  lemma {:induction false} NumberIsToken(n: nat)
    ensures IsToken(Token(if n <= MAX_U64 then IntValue else BigIntValue, Digits(n)))
  {
    var text := Digits(n);
    NumberEndIs(text, 1, |text|);
    assert text[..|text|] == text;
    DigitsStopNothing(text);
    Reparse.DecimalDigits(n);
    if n > 0 {
      NoLeadingZero(n);
    } else {
      assert text == "0";
    }
  }

  lemma StringIsToken(text: string, style: Style, i: nat)
    ensures IsToken(StringToken(text, style, i))
  {
    if TakesQuotes(text) {
      QuoteIsToken(text);
    } else {
      BlockIsToken(text, i, style.indent);
    }
  }

  // ----- short runs -----

  lemma RunPunctuator(c: char, open: bool)
    requires IsOpen(c) || IsClose(c) || IsSign(c)
    ensures Run([Tok(P(c))], open) == Some(false)
  {
    PunctuatorIsToken(c);
    assert [Tok(P(c))][1..] == [];
  }

  lemma RunWord(t: Token)
    requires IsToken(t)
    ensures Run([Tok(t)], false) == Some(t.kind != Punctuator)
  {
    assert [Tok(t)][1..] == [];
  }

  lemma RunGap(gap: string, open: bool)
    requires IsGap(gap)
    ensures Run([Gap(gap)], open) == Some(open && gap == "")
  {
    assert [Gap(gap)][1..] == [];
  }

  lemma RunNamed(name: string)
    requires IsName(name)
    ensures Run(NamedBits(name), false) == Some(false)
  {
    var bits := NamedBits(name);
    assert bits == [Tok(N(name))] + ([Tok(P(':'))] + [Gap(" ")]);
    hide Run;
    RunWord(N(name));
    RunPunctuator(':', true);
    RunGap(" ", false);
    RunAppend([Tok(P(':'))], [Gap(" ")], true);
    RunAppend([Tok(N(name))], [Tok(P(':'))] + [Gap(" ")], false);
  }

  lemma RunBreak(style: Style, i: nat, open: bool)
    ensures Run(Break(style, i), open) == Some(open && !style.multiline)
  {
    if style.multiline {
      var a, b := [Gap("\n")], [Gap(Spaces(i))];
      assert Break(style, i) == a + b;
      RunGap("\n", open);
      RunGap(Spaces(i), false);
      RunAppend(a, b, open);
    }
  }

  lemma RunBetween(style: Style, first: bool, i: nat, open: bool)
    requires first ==> !open
    ensures Run(Between(style, first, i), open) == Some(false)
  {
    if first {
      assert Between(style, first, i) == Break(style, i);
      RunBreak(style, i, open);
    } else {
      RunDelimiter(style, open);
      RunBreak(style, i, false);
      RunAppend(Delimiter(style), Break(style, i), open);
    }
  }

  lemma RunDelimiter(style: Style, open: bool)
    ensures Run(Delimiter(style), open) == Some(false)
  {
    RunGap(",", open);
    if !style.multiline {
      RunGap(" ", false);
      assert Delimiter(style) == [Gap(",")] + [Gap(" ")];
      RunAppend([Gap(",")], [Gap(" ")], open);
    }
  }

  lemma RunClose(style: Style, i: nat, c: char, open: bool)
    requires IsClose(c)
    ensures Run(Break(style, i) + [Tok(P(c))], open) == Some(false)
  {
    RunBreak(style, i, open);
    RunPunctuator(c, open && !style.multiline);
    RunAppend(Break(style, i), [Tok(P(c))], open);
  }

  /** A body between brackets. */
  lemma {:induction false} RunBracketed(open: char, body: seq<Bit>, style: Style, i: nat, close: char, before: bool)
    requires IsOpen(open) && IsClose(close) && Run(body, false).Some?
    ensures Run([Tok(P(open))] + body + (Break(style, i) + [Tok(P(close))]), before) == Some(false)
  {
    hide Run;
    var end := Break(style, i) + [Tok(P(close))];
    RunPunctuator(open, before);
    RunAppend([Tok(P(open))], body, before);
    RunClose(style, i, close, Run(body, false).value);
    RunAppend([Tok(P(open))] + body, end, before);
  }

  // ----- values -----

  lemma {:induction false} RunOneToken(v: Value, constant: bool, style: Style, i: nat)
    requires ValueOk(v, constant) && Reparse.OneToken(v)
    ensures Run(ValueBits(v, style, i), false) == Some(true)
  {
    WordsAreTokens(Query);
    hide Run;
    match v {
      case BigInt(n) =>
        NumberIsToken(n);
        RunWord(Token(BigIntValue, Digits(n)));
      case Int(n) =>
        NumberIsToken(n);
        RunWord(Token(IntValue, Digits(n)));
      case Float(literal) => RunWord(Token(FloatValue, literal));
      case Str(text) =>
        StringIsToken(text, style, i);
        RunWord(StringToken(text, style, i));
      case Boolean(b) => RunWord(N(if b then "true" else "false"));
      case Null => RunWord(N("null"));
      case Enum(name) => RunWord(N(name));
    }
  }

  lemma {:induction false} RunValue(v: Value, constant: bool, style: Style, i: nat)
    requires ValueOk(v, constant)
    ensures Run(ValueBits(v, style, i), false).Some?
    decreases v
  {
    match v {
      case Variable(name) =>
        RunPunctuator('$', false);
        RunWord(N(name));
        RunAppend([Tok(P('$'))], [Tok(N(name))], false);
        assert ValueBits(v, style, i) == [Tok(P('$'))] + [Tok(N(name))];
      case List(items) =>
        hide Run;
        RunItems(items, constant, style, Inner(style, i), true, false);
        RunBracketed('[', ItemsBits(items, style, Inner(style, i), true), style, i, ']', false);
      case Object(entries) =>
        hide Run;
        RunEntries(entries, constant, style, Inner(style, i), true, false);
        RunBracketed('{', EntriesBits(entries, style, Inner(style, i), true), style, i, '}', false);
      case _ =>
        RunOneToken(v, constant, style, i);
    }
  }

  lemma {:induction false} RunItems(items: seq<Value>, constant: bool, style: Style, i: nat, first: bool, open: bool)
    requires ValuesOk(items, constant) && (first ==> !open)
    ensures Run(ItemsBits(items, style, i, first), open).Some?
    decreases items
  {
    if items != [] {
      var gap, value := Between(style, first, i), ValueBits(items[0], style, i);
      var rest := ItemsBits(items[1..], style, i, false);
      RunBetween(style, first, i, open);
      RunValue(items[0], constant, style, i);
      RunItems(items[1..], constant, style, i, false, Run(value, false).value);
      hide Run;
      RunAppend(value, rest, false);
      RunAppend(gap, value + rest, open);
    }
  }

  lemma {:induction false} RunEntries(entries: seq<Entry>, constant: bool, style: Style, i: nat, first: bool, open: bool)
    requires EntriesOk(entries, constant) && (first ==> !open)
    ensures Run(EntriesBits(entries, style, i, first), open).Some?
    decreases entries
  {
    if entries != [] {
      var gap, name, value := Between(style, first, i), NamedBits(entries[0].name), ValueBits(entries[0].value, style, i);
      var rest := EntriesBits(entries[1..], style, i, false);
      RunBetween(style, first, i, open);
      RunNamed(entries[0].name);
      RunValue(entries[0].value, constant, style, i);
      RunEntries(entries[1..], constant, style, i, false, Run(value, false).value);
      hide Run;
      RunAppend(value, rest, false);
      RunAppend(name, value + rest, false);
      RunAppend(gap, name + (value + rest), open);
    }
  }

  lemma {:induction false} RunArguments(arguments: seq<Entry>, style: Style, i: nat, open: bool)
    requires EntriesOk(arguments, false)
    ensures Run(ArgumentsBits(arguments, style, i), open).Some?
  {
    if arguments != [] {
      hide Run;
      RunEntries(arguments, false, style, Inner(style, i), true, false);
      RunBracketed('(', EntriesBits(arguments, style, Inner(style, i), true), style, i, ')', open);
    }
  }

  // ----- directives and types -----

  lemma {:induction false} RunDirectives(directives: seq<Directive>, style: Style, i: nat, open: bool)
    requires DirectivesOk(directives)
    ensures Run(DirectivesBits(directives, style, i), open).Some?
    decreases directives
  {
    if directives != [] {
      var d := directives[0];
      var head, arguments := [Gap(" "), Tok(P('@')), Tok(N(d.name))], ArgumentsBits(d.arguments, style, i);
      var rest := DirectivesBits(directives[1..], style, i);
      RunDirectiveHead(d.name, open);
      RunArguments(d.arguments, style, i, true);
      RunDirectives(directives[1..], style, i, Run(arguments, true).value);
      hide Run;
      RunAppend(arguments, rest, true);
      RunAppend(head, arguments + rest, open);
    }
  }

  lemma RunDirectiveHead(name: string, open: bool)
    requires IsName(name)
    ensures Run([Gap(" "), Tok(P('@')), Tok(N(name))], open) == Some(true)
  {
    PunctuatorIsToken('@');
    RunWord(N(name));
    var bits := [Gap(" "), Tok(P('@')), Tok(N(name))];
    assert bits[1..] == [Tok(P('@')), Tok(N(name))] && bits[1..][1..] == [Tok(N(name))];
  }

  lemma {:induction false} RunType(t: Type)
    requires TypeOk(t)
    ensures Run(TypeBits(t), false).Some?
    decreases t
  {
    hide Run;
    match t {
      case NamedType(name) => RunWord(N(name));
      case ListType(inner) =>
        RunType(inner);
        RunPunctuator('[', false);
        RunAppend([Tok(P('['))], TypeBits(inner), false);
        RunPunctuator(']', Run(TypeBits(inner), false).value);
        RunAppend([Tok(P('['))] + TypeBits(inner), [Tok(P(']'))], false);
      case NonNullType(inner) =>
        RunType(inner);
        RunPunctuator('!', Run(TypeBits(inner), false).value);
        RunAppend(TypeBits(inner), [Tok(P('!'))], false);
    }
  }

  // ----- selections -----

  lemma RunBlockEnd(i: nat)
    ensures Run(BlockEnd(i), false) == Some(false)
  {
    var a, b, c := [Gap(Spaces(i))], [Tok(P('}'))], [Gap("\n")];
    RunGap(Spaces(i), false);
    RunPunctuator('}', false);
    RunGap("\n", false);
    hide Run;
    assert BlockEnd(i) == a + (b + c);
    RunAppend(b, c, false);
    RunAppend(a, b + c, false);
  }

  lemma RunBlockStart(open: bool)
    ensures Run([Tok(P('{')), Gap("\n")], open) == Some(false)
  {
    RunPunctuator('{', open);
    RunGap("\n", false);
    hide Run;
    assert [Tok(P('{')), Gap("\n")] == [Tok(P('{'))] + [Gap("\n")];
    RunAppend([Tok(P('{'))], [Gap("\n")], open);
  }

  lemma {:induction false} RunBlock(items: seq<Selection>, style: Style, i: nat, open: bool)
    requires SelectionsOk(items)
    ensures Run(BlockBits(items, style, i), open) == Some(false)
    decreases items, 1
  {
    hide Run;
    var head, body := [Tok(P('{')), Gap("\n")], SelectionsBits(items, style, i + style.indent);
    RunBlockStart(open);
    RunSelections(items, style, i + style.indent);
    RunBlockEnd(i);
    RunAppend(body, BlockEnd(i), false);
    RunAppend(head, body + BlockEnd(i), open);
  }

  lemma {:induction false} RunSelections(items: seq<Selection>, style: Style, i: nat)
    requires SelectionsOk(items)
    ensures Run(SelectionsBits(items, style, i), false) == Some(false)
    decreases items, 0
  {
    if items != [] {
      RunSelection(items[0], style, i);
      RunSelections(items[1..], style, i);
      hide Run;
      RunAppend(SelectionBits(items[0], style, i), SelectionsBits(items[1..], style, i), false);
    }
  }

  /** What stands behind the directives: a set, or the end of the line. */
  function Ending(items: seq<Selection>, style: Style, i: nat): seq<Bit> {
    if items == [] then [Gap("\n")] else [Gap(" ")] + BlockBits(items, style, i)
  }

  lemma {:induction false} RunEnding(items: seq<Selection>, style: Style, i: nat, open: bool)
    requires SelectionsOk(items)
    ensures Run(Ending(items, style, i), open) == Some(false)
    decreases items, 2
  {
    hide Run;
    if items == [] {
      RunGap("\n", open);
    } else {
      RunGap(" ", open);
      RunBlock(items, style, i, false);
      RunAppend([Gap(" ")], BlockBits(items, style, i), open);
    }
  }

  lemma {:induction false} RunAlias(alias: Option<string>)
    requires alias.Some? ==> IsName(alias.value)
    ensures Run(AliasBits(alias), false) == Some(false)
  {
    if alias.Some? {
      RunNamed(alias.value);
    }
  }

  /** Directives with what follows them. */
  lemma {:induction false} RunTail(directives: seq<Directive>, items: seq<Selection>, style: Style, i: nat, open: bool)
    requires DirectivesOk(directives) && SelectionsOk(items)
    ensures Run(DirectivesBits(directives, style, i) + Ending(items, style, i), open) == Some(false)
    decreases items, 3
  {
    hide Run;
    RunDirectives(directives, style, i, open);
    RunEnding(items, style, i, Run(DirectivesBits(directives, style, i), open).value);
    RunAppend(DirectivesBits(directives, style, i), Ending(items, style, i), open);
  }

  lemma {:induction false} RunSelection(s: Selection, style: Style, i: nat)
    requires SelectionOk(s)
    ensures Run(SelectionBits(s, style, i), false) == Some(false)
    decreases s
  {
    match s {
      case Field(alias, name, arguments, directives, items) =>
        RunField(alias, name, arguments, directives, items, style, i);
      case InlineFragment(on, directives, items) => RunInline(on, directives, items, style, i);
      case FragmentSpread(name, directives) =>
        var head := [Gap(Spaces(i)), Tok(SPREAD), Tok(N(name))];
        RunSpreadHead(name, i);
        hide Run;
        RunDirectives(directives, style, i, true);
        RunGap("\n", Run(DirectivesBits(directives, style, i), true).value);
        RunAppend(DirectivesBits(directives, style, i), [Gap("\n")], true);
        RunAppend(head, DirectivesBits(directives, style, i) + [Gap("\n")], false);
    }
  }

  lemma RunSpreadHead(name: string, i: nat)
    requires IsName(name)
    ensures Run([Gap(Spaces(i)), Tok(SPREAD), Tok(N(name))], false) == Some(true)
    ensures Run([Gap(Spaces(i)), Tok(SPREAD)], false) == Some(false)
  {
    RunGap(Spaces(i), false);
    assert IsToken(SPREAD);
    RunWord(SPREAD);
    RunWord(N(name));
    hide Run;
    var a, b, c := [Gap(Spaces(i))], [Tok(SPREAD)], [Tok(N(name))];
    RunAppend(a, b, false);
    assert a + b == [Gap(Spaces(i)), Tok(SPREAD)];
    RunAppend(a + b, c, false);
    assert a + b + c == [Gap(Spaces(i)), Tok(SPREAD), Tok(N(name))];
  }

  lemma {:induction false} RunField(alias: Option<string>, name: string, arguments: seq<Entry>,
                                    directives: seq<Directive>, items: seq<Selection>, style: Style, i: nat)
    requires SelectionOk(Field(alias, name, arguments, directives, items))
    ensures Run(SelectionBits(Field(alias, name, arguments, directives, items), style, i), false) == Some(false)
    decreases items, 4
  {
    hide Run, ArgumentsBits, DirectivesBits, AliasBits;
    var a, b, c, d := [Gap(Spaces(i))], AliasBits(alias), [Tok(N(name))], ArgumentsBits(arguments, style, i);
    var e := DirectivesBits(directives, style, i) + Ending(items, style, i);
    RunGap(Spaces(i), false);
    RunAlias(alias);
    RunWord(N(name));
    RunArguments(arguments, style, i, true);
    var state := Run(d, true).value;
    RunTail(directives, items, style, i, state);
    RunAppend(d, e, true);
    RunAppend(c, d + e, false);
    RunAppend(b, c + (d + e), false);
    RunAppend(a, b + (c + (d + e)), false);
  }

  lemma RunOn(on: Option<string>)
    requires on.Some? ==> IsName(on.value)
    ensures Run(OnBits(on), false).Some?
  {
    if on.Some? {
      WordsAreTokens(Query);
      var a, b := [Gap(" "), Tok(N("on"))], [Gap(" "), Tok(N(on.value))];
      RunSpaced("on", false);
      RunSpaced(on.value, true);
      hide Run;
      assert OnBits(on) == a + b;
      RunAppend(a, b, false);
    }
  }

  lemma RunSpaced(name: string, open: bool)
    requires IsName(name)
    ensures Run([Gap(" "), Tok(N(name))], open) == Some(true)
  {
    RunGap(" ", open);
    RunWord(N(name));
    hide Run;
    RunAppend([Gap(" ")], [Tok(N(name))], open);
    assert [Gap(" "), Tok(N(name))] == [Gap(" ")] + [Tok(N(name))];
  }

  lemma {:induction false} RunInline(on: Option<string>, directives: seq<Directive>, items: seq<Selection>,
                                     style: Style, i: nat)
    requires SelectionOk(InlineFragment(on, directives, items))
    ensures Run(SelectionBits(InlineFragment(on, directives, items), style, i), false) == Some(false)
    decreases items, 4
  {
    hide Run, DirectivesBits, OnBits;
    var a, b := [Gap(Spaces(i)), Tok(SPREAD)], OnBits(on);
    var e := DirectivesBits(directives, style, i) + Ending(items, style, i);
    WordsAreTokens(Query);
    RunSpreadHead("on", i);
    RunOn(on);
    var state := Run(b, false).value;
    RunTail(directives, items, style, i, state);
    RunAppend(b, e, false);
    RunAppend(a, b + e, false);
  }

  // ----- definitions -----

  lemma {:induction false} RunVariable(v: VariableDefinition, style: Style, i: nat, open: bool)
    requires VariablesOk([v])
    ensures Run(VariableBits(v, style, i), open).Some?
  {
    var head := [Tok(P('$')), Tok(N(v.name)), Tok(P(':')), Gap(" ")];
    RunVariableHead(v.name, open);
    RunType(v.varType);
    var state := Run(TypeBits(v.varType), false).value;
    RunDefault(v.defaultValue, style, i, state);
    hide Run;
    RunAppend(TypeBits(v.varType), DefaultBits(v.defaultValue, style, i), false);
    RunAppend(head, TypeBits(v.varType) + DefaultBits(v.defaultValue, style, i), open);
  }

  lemma RunVariableHead(name: string, open: bool)
    requires IsName(name)
    ensures Run([Tok(P('$')), Tok(N(name)), Tok(P(':')), Gap(" ")], open) == Some(false)
  {
    RunPunctuator('$', open);
    RunNamed(name);
    hide Run;
    assert [Tok(P('$')), Tok(N(name)), Tok(P(':')), Gap(" ")] == [Tok(P('$'))] + NamedBits(name);
    RunAppend([Tok(P('$'))], NamedBits(name), open);
  }

  lemma {:induction false} RunDefault(v: Option<Value>, style: Style, i: nat, open: bool)
    requires v.Some? ==> ValueOk(v.value, true)
    ensures Run(DefaultBits(v, style, i), open).Some?
  {
    if v.Some? {
      var a, b, c := [Gap(" ")], [Tok(P('='))], [Gap(" ")];
      RunGap(" ", open);
      RunPunctuator('=', false);
      RunGap(" ", false);
      RunValue(v.value, true, style, i);
      hide Run;
      assert [Gap(" "), Tok(P('=')), Gap(" ")] == a + (b + c);
      RunAppend(b, c, false);
      RunAppend(a, b + c, open);
      RunAppend(a + (b + c), ValueBits(v.value, style, i), open);
    }
  }

  lemma {:induction false} RunVariables(variables: seq<VariableDefinition>, style: Style, i: nat, commas: bool,
                                        first: bool, open: bool)
    requires VariablesOk(variables)
    ensures Run(VariablesBits(variables, style, i, commas, first), open).Some?
    decreases variables
  {
    if variables != [] {
      var gap := if first || !commas then [] else [Gap(","), Gap(" ")];
      var v, rest := VariableBits(variables[0], style, i), VariablesBits(variables[1..], style, i, commas, false);
      RunDelimiter(Style(0, false), open);
      assert Run(gap, open).Some?;
      RunVariable(variables[0], style, i, Run(gap, open).value);
      RunVariables(variables[1..], style, i, commas, false, Run(v, Run(gap, open).value).value);
      hide Run;
      RunAppend(v, rest, Run(gap, open).value);
      RunAppend(gap, v + rest, open);
    }
  }

  lemma {:induction false} RunVariableBlock(kind: OperationKind, name: Option<string>,
                                            variables: seq<VariableDefinition>, style: Style, i: nat, open: bool)
    requires VariablesOk(variables)
    ensures Run(VariableBlockBits(kind, name, variables, style, i), open).Some?
  {
    var written := WrittenVariables(kind, name, variables);
    if written != [] {
      hide Run;
      var body := VariablesBits(written, style, i, kind != Subscription, true);
      RunPunctuator('(', open);
      RunVariables(written, style, i, kind != Subscription, true, false);
      RunPunctuator(')', Run(body, false).value);
      RunAppend(body, [Tok(P(')'))], false);
      RunAppend([Tok(P('('))], body + [Tok(P(')'))], open);
    }
  }

  lemma {:induction false} RunDefinition(d: Definition, style: Style)
    requires DefinitionOk(d)
    ensures Run(DefinitionBits(d, style), false) == Some(false)
  {
    match d {
      case SelectionSet(items) =>
        RunGap(Spaces(0), false);
        RunBlock(items, style, 0, false);
        RunAppend([Gap(Spaces(0))], BlockBits(items, style, 0), false);
      case Operation(kind, name, variables, directives, items) =>
        RunOperation(kind, name, variables, directives, items, style);
      case Fragment(name, on, directives, items) => RunFragment(name, on, directives, items, style);
    }
  }

  lemma {:induction false} RunOperation(kind: OperationKind, name: Option<string>, variables: seq<VariableDefinition>,
                                        directives: seq<Directive>, items: seq<Selection>, style: Style)
    requires DefinitionOk(Operation(kind, name, variables, directives, items))
    ensures Run(DefinitionBits(Operation(kind, name, variables, directives, items), style), false) == Some(false)
  {
    hide Run, DirectivesBits, BlockBits, VariableBlockBits, Keyword;
    var a, b := [Gap(Spaces(0)), Tok(N(Keyword(kind)))], NameBits(name);
    var c, e := VariableBlockBits(kind, name, variables, style, 0),
                DirectivesBits(directives, style, 0) + Ending(items, style, 0);
    WordsAreTokens(kind);
    RunGap(Spaces(0), false);
    RunWord(N(Keyword(kind)));
    RunAppend([Gap(Spaces(0))], [Tok(N(Keyword(kind)))], false);
    assert a == [Gap(Spaces(0))] + [Tok(N(Keyword(kind)))];
    RunName(name);
    RunVariableBlock(kind, name, variables, style, 0, true);
    var state := Run(c, true).value;
    RunTail(directives, items, style, 0, state);
    RunAppend(c, e, true);
    RunAppend(b, c + e, true);
    RunAppend(a, b + (c + e), false);
  }

  lemma RunName(name: Option<string>)
    requires name.Some? ==> IsName(name.value)
    ensures Run(NameBits(name), true) == Some(true)
  {
    if name.Some? {
      RunSpaced(name.value, true);
    }
  }

  lemma {:induction false} RunFragment(name: string, on: string, directives: seq<Directive>, items: seq<Selection>,
                                       style: Style)
    requires DefinitionOk(Fragment(name, on, directives, items))
    ensures Run(DefinitionBits(Fragment(name, on, directives, items), style), false) == Some(false)
  {
    hide Run, DirectivesBits, BlockBits;
    WordsAreTokens(Query);
    var a, b, c, d := [Gap(Spaces(0)), Tok(N("fragment"))], [Gap(" "), Tok(N(name))], [Gap(" "), Tok(N("on"))],
                      [Gap(" "), Tok(N(on))];
    var e := DirectivesBits(directives, style, 0) + Ending(items, style, 0);
    RunGap(Spaces(0), false);
    RunWord(N("fragment"));
    RunAppend([Gap(Spaces(0))], [Tok(N("fragment"))], false);
    assert a == [Gap(Spaces(0))] + [Tok(N("fragment"))];
    RunSpaced(name, true);
    RunSpaced("on", true);
    RunSpaced(on, true);
    RunTail(directives, items, style, 0, true);
    RunAppend(a, b, false);
    RunAppend(a + b, c, false);
    RunAppend(a + b + c, d, false);
    RunAppend(a + b + c + d, e, false);
    assert DefinitionBits(Fragment(name, on, directives, items), style) == a + b + c + d + e;
  }

  lemma {:induction false} RunDefinitions(d: Document, style: Style, first: bool)
    requires DefinitionsOk(d)
    ensures Run(DefinitionsBits(d, style, first), false) == Some(false)
    decreases d
  {
    if d != [] {
      var gap := if first then [] else [Gap("\n")];
      var head, rest := DefinitionBits(d[0], style), DefinitionsBits(d[1..], style, false);
      RunGap("\n", false);
      assert Run(gap, false) == Some(false);
      RunDefinition(d[0], style);
      RunDefinitions(d[1..], style, false);
      hide Run;
      RunAppend(head, rest, false);
      RunAppend(gap, head + rest, false);
    }
  }
}
