/** Printing a document and parsing the text again. */
module PrintedDocuments {
  import opened Common
  import opened Lexer
  import opened Strings
  import opened BlockStrings
  import opened Layouts
  import opened Syntax
  import opened Grammar
  import opened Printing
  import opened PrintedTokens
  import opened PrintedRuns
  import opened Reparse
  import opened Fidelity
  import opened Nesting
  import opened SameReading
  import opened WrittenTrees

  // ----- what the bits write -----

  /** The bits write tokens that mean these. */
  predicate Writes(bits: seq<Bit>, tokens: seq<Token>) {
    Same(BitTokens(bits), tokens)
  }

  lemma WritesBoth(a: seq<Bit>, s: seq<Token>, b: seq<Bit>, t: seq<Token>)
    requires Writes(a, s) && Writes(b, t)
    ensures Writes(a + b, s + t)
  {
    BitTokensAppend(a, b);
    var x, y := BitTokens(a), BitTokens(b);
    forall i | 0 <= i < |s + t| ensures SameToken((x + y)[i], (s + t)[i]) {
      if i < |s| {
        assert SameToken(x[i], s[i]);
      } else {
        assert SameToken(y[i - |s|], t[i - |s|]);
      }
    }
  }

  lemma WritesToken(t: Token)
    ensures Writes([Tok(t)], [t])
  {
    assert [Tok(t)][1..] == [];
  }

  lemma WritesGap(gap: string)
    ensures Writes([Gap(gap)], [])
  {
    assert [Gap(gap)][1..] == [];
  }

  function One(b: Bit): seq<Token> {
    if b.Tok? then [b.token] else []
  }

  lemma WritesOne(b: Bit)
    ensures Writes([b], One(b))
  {
    assert [b][1..] == [];
  }

  lemma WritesTwo(a: Bit, b: Bit)
    ensures Writes([a, b], One(a) + One(b))
  {
    WritesOne(a);
    WritesOne(b);
    WritesBoth([a], One(a), [b], One(b));
    assert [a] + [b] == [a, b];
  }

  lemma WritesThree(a: Bit, b: Bit, c: Bit)
    ensures Writes([a, b, c], One(a) + One(b) + One(c))
  {
    WritesTwo(a, b);
    WritesOne(c);
    WritesBoth([a, b], One(a) + One(b), [c], One(c));
    assert [a, b] + [c] == [a, b, c];
  }

  // ----- values -----

  lemma WritesBreak(style: Style, i: nat)
    ensures Writes(Break(style, i), [])
  {
    if style.multiline {
      WritesTwo(Gap("\n"), Gap(Spaces(i)));
    }
  }

  lemma WritesBetween(style: Style, first: bool, i: nat)
    ensures Writes(Between(style, first, i), [])
  {
    WritesBreak(style, i);
    WritesGap(",");
    WritesTwo(Gap(","), Gap(" "));
    WritesBoth(Delimiter(style), [], Break(style, i), []);
    assert [] + Break(style, i) == Break(style, i);
  }

  lemma {:induction false} WritesBracketed(open: char, body: seq<Bit>, tokens: seq<Token>, style: Style, i: nat, close: char)
    requires Writes(body, tokens)
    ensures Writes([Tok(P(open))] + body + (Break(style, i) + [Tok(P(close))]), [P(open)] + tokens + [P(close)])
  {
    hide Writes;
    WritesToken(P(open));
    WritesToken(P(close));
    WritesBreak(style, i);
    WritesBoth(Break(style, i), [], [Tok(P(close))], [P(close)]);
    assert [] + [P(close)] == [P(close)];
    WritesBoth([Tok(P(open))], [P(open)], body, tokens);
    WritesBoth([Tok(P(open))] + body, [P(open)] + tokens, Break(style, i) + [Tok(P(close))], [P(close)]);
  }

  lemma WritesString(text: string, style: Style, i: nat)
    ensures Writes([Tok(StringToken(text, style, i))], [Token(StringValue, Quote(TextWritten(text, i)))])
  {
    var t := StringToken(text, style, i);
    assert [Tok(t)][1..] == [];
    assert BitTokens([Tok(t)]) == [t];
    StringMeans(text, style, i);
  }

  lemma {:induction false} WritesValue(v: Value, style: Style, i: nat)
    ensures Writes(ValueBits(v, style, i), ValueTokens(ValueWritten(v, style, i)))
    decreases v
  {
    hide Writes, TakesQuotes, Digits;
    match v {
      case Variable(name) =>
        WritesTwo(Tok(P('$')), Tok(N(name)));
        assert [P('$')] + [N(name)] == [P('$'), N(name)];
      case BigInt(n) => WritesToken(Token(BigIntValue, Digits(n)));
      case Int(n) => WritesToken(Token(IntValue, Digits(n)));
      case Float(literal) => WritesToken(Token(FloatValue, literal));
      case Str(text) => WritesString(text, style, i);
      case Boolean(b) => WritesToken(N(if b then "true" else "false"));
      case Null => WritesToken(N("null"));
      case Enum(name) => WritesToken(N(name));
      case List(items) =>
        WritesItems(items, style, Inner(style, i), true);
        WritesBracketed('[', ItemsBits(items, style, Inner(style, i), true),
                        ValuesTokens(ValuesWritten(items, style, Inner(style, i))), style, i, ']');
      case Object(entries) =>
        WritesEntries(entries, style, Inner(style, i), true);
        WritesBracketed('{', EntriesBits(entries, style, Inner(style, i), true),
                        EntriesTokens(EntriesWritten(entries, style, Inner(style, i))), style, i, '}');
    }
  }

  lemma WritesNothing()
    ensures Writes([], [])
  {
  }

  lemma {:induction false} WritesItems(items: seq<Value>, style: Style, i: nat, first: bool)
    ensures Writes(ItemsBits(items, style, i, first), ValuesTokens(ValuesWritten(items, style, i)))
    decreases items
  {
    WritesNothing();
    hide Writes, ValueBits, ValueTokens, Between;
    if items != [] {
      var gap, value := Between(style, first, i), ValueBits(items[0], style, i);
      var s, t := ValueTokens(ValueWritten(items[0], style, i)), ValuesTokens(ValuesWritten(items[1..], style, i));
      WritesBetween(style, first, i);
      WritesValue(items[0], style, i);
      WritesItems(items[1..], style, i, false);
      WritesBoth(value, s, ItemsBits(items[1..], style, i, false), t);
      WritesBoth(gap, [], value + ItemsBits(items[1..], style, i, false), s + t);
      assert [] + (s + t) == s + t;
    }
  }

  lemma WritesNamed(name: string)
    ensures Writes(NamedBits(name), [N(name), P(':')])
  {
    WritesThree(Tok(N(name)), Tok(P(':')), Gap(" "));
    assert [N(name)] + [P(':')] + [] == [N(name), P(':')];
  }

  lemma {:induction false} WritesEntries(entries: seq<Entry>, style: Style, i: nat, first: bool)
    ensures Writes(EntriesBits(entries, style, i, first), EntriesTokens(EntriesWritten(entries, style, i)))
    decreases entries
  {
    WritesNothing();
    hide Writes, ValueBits, ValueTokens, Between, NamedBits;
    if entries != [] {
      var e := entries[0];
      var gap, name, value := Between(style, first, i), NamedBits(e.name), ValueBits(e.value, style, i);
      var rest := EntriesBits(entries[1..], style, i, false);
      var r, s := [N(e.name), P(':')], ValueTokens(ValueWritten(e.value, style, i));
      var t := EntriesTokens(EntriesWritten(entries[1..], style, i));
      WritesBetween(style, first, i);
      WritesNamed(e.name);
      WritesValue(e.value, style, i);
      WritesEntries(entries[1..], style, i, false);
      WritesBoth(value, s, rest, t);
      WritesBoth(name, r, value + rest, s + t);
      WritesBoth(gap, [], name + (value + rest), r + (s + t));
      assert [] + (r + (s + t)) == r + s + t;
    }
  }

  lemma {:induction false} WritesArguments(arguments: seq<Entry>, style: Style, i: nat)
    ensures Writes(ArgumentsBits(arguments, style, i), ArgumentsTokens(ArgumentsWritten(arguments, style, i)))
  {
    WritesNothing();
    hide Writes, EntriesBits, EntriesTokens;
    if arguments != [] {
      WritesEntries(arguments, style, Inner(style, i), true);
      WritesBracketed('(', EntriesBits(arguments, style, Inner(style, i), true),
                      EntriesTokens(EntriesWritten(arguments, style, Inner(style, i))), style, i, ')');
    }
  }

  // ----- directives and types -----

  lemma {:induction false} WritesDirectives(directives: seq<Directive>, style: Style, i: nat)
    ensures Writes(DirectivesBits(directives, style, i), DirectivesTokens(DirectivesWritten(directives, style, i)))
    decreases directives
  {
    WritesNothing();
    hide Writes, ArgumentsBits, ArgumentsTokens;
    if directives != [] {
      var d := directives[0];
      var head, arguments := [Gap(" "), Tok(P('@')), Tok(N(d.name))], ArgumentsBits(d.arguments, style, i);
      var rest := DirectivesBits(directives[1..], style, i);
      var r, s := [P('@'), N(d.name)], ArgumentsTokens(ArgumentsWritten(d.arguments, style, i));
      var t := DirectivesTokens(DirectivesWritten(directives[1..], style, i));
      WritesThree(Gap(" "), Tok(P('@')), Tok(N(d.name)));
      assert [] + [P('@')] + [N(d.name)] == r;
      WritesArguments(d.arguments, style, i);
      WritesDirectives(directives[1..], style, i);
      WritesBoth(arguments, s, rest, t);
      WritesBoth(head, r, arguments + rest, s + t);
      assert r + (s + t) == r + s + t;
    }
  }

  lemma {:induction false} WritesType(t: Type)
    ensures Writes(TypeBits(t), TypeTokens(t))
    decreases t
  {
    hide Writes;
    match t {
      case NamedType(name) => WritesToken(N(name));
      case ListType(inner) =>
        WritesType(inner);
        WritesToken(P('['));
        WritesToken(P(']'));
        WritesBoth([Tok(P('['))], [P('[')], TypeBits(inner), TypeTokens(inner));
        WritesBoth([Tok(P('['))] + TypeBits(inner), [P('[')] + TypeTokens(inner), [Tok(P(']'))], [P(']')]);
      case NonNullType(inner) =>
        WritesType(inner);
        WritesToken(P('!'));
        WritesBoth(TypeBits(inner), TypeTokens(inner), [Tok(P('!'))], [P('!')]);
    }
  }

  // ----- selections -----

  lemma {:induction false} WritesBlock(items: seq<Selection>, style: Style, i: nat)
    ensures Writes(BlockBits(items, style, i), BlockTokens(SelectionsWritten(items, style, i + style.indent)))
    decreases items, 1
  {
    hide Writes, SelectionsBits, SelectionsTokens;
    var body, tokens := SelectionsBits(items, style, i + style.indent), SelectionsTokens(SelectionsWritten(items, style, i + style.indent));
    WritesTwo(Tok(P('{')), Gap("\n"));
    assert [P('{')] + [] == [P('{')];
    WritesSelections(items, style, i + style.indent);
    WritesThree(Gap(Spaces(i)), Tok(P('}')), Gap("\n"));
    assert [] + [P('}')] + [] == [P('}')];
    WritesBoth(body, tokens, BlockEnd(i), [P('}')]);
    WritesBoth([Tok(P('{')), Gap("\n")], [P('{')], body + BlockEnd(i), tokens + [P('}')]);
    assert [P('{')] + (tokens + [P('}')]) == [P('{')] + tokens + [P('}')];
  }

  lemma {:induction false} WritesSelections(items: seq<Selection>, style: Style, i: nat)
    ensures Writes(SelectionsBits(items, style, i), SelectionsTokens(SelectionsWritten(items, style, i)))
    decreases items, 0
  {
    WritesNothing();
    hide Writes, SelectionBits, SelectionTokens;
    if items != [] {
      WritesSelection(items[0], style, i);
      WritesSelections(items[1..], style, i);
      WritesBoth(SelectionBits(items[0], style, i), SelectionTokens(SelectionWritten(items[0], style, i)),
                 SelectionsBits(items[1..], style, i), SelectionsTokens(SelectionsWritten(items[1..], style, i)));
    }
  }

  lemma {:induction false} WritesSet(items: seq<Selection>, style: Style, i: nat)
    ensures Writes([Gap(" ")] + BlockBits(items, style, i), BlockTokens(SelectionsWritten(items, style, i + style.indent)))
    decreases items, 2
  {
    hide Writes, BlockBits, BlockTokens;
    WritesGap(" ");
    WritesBlock(items, style, i);
    WritesBoth([Gap(" ")], [], BlockBits(items, style, i), BlockTokens(SelectionsWritten(items, style, i + style.indent)));
    var tokens := BlockTokens(SelectionsWritten(items, style, i + style.indent));
    assert [] + tokens == tokens;
  }

  /** Directives with the set or the end of the line behind them. */
  lemma {:induction false} WritesTail(directives: seq<Directive>, items: seq<Selection>, style: Style, i: nat)
    ensures Writes(DirectivesBits(directives, style, i) + Ending(items, style, i),
                   DirectivesTokens(DirectivesWritten(directives, style, i)) + OptionalBlock(SelectionsWritten(items, style, i + style.indent)))
    decreases items, 3
  {
    hide Writes, DirectivesBits, DirectivesTokens, BlockBits, BlockTokens;
    WritesDirectives(directives, style, i);
    if items == [] {
      WritesGap("\n");
    } else {
      WritesSet(items, style, i);
    }
    WritesBoth(DirectivesBits(directives, style, i), DirectivesTokens(DirectivesWritten(directives, style, i)), Ending(items, style, i),
               OptionalBlock(SelectionsWritten(items, style, i + style.indent)));
  }

  lemma {:induction false} WritesSelection(s: Selection, style: Style, i: nat)
    ensures Writes(SelectionBits(s, style, i), SelectionTokens(SelectionWritten(s, style, i)))
    decreases s
  {
    hide Writes;
    match s {
      case Field(alias, name, arguments, directives, items) =>
        WritesField(alias, name, arguments, directives, items, style, i);
      case InlineFragment(on, directives, items) => WritesInline(on, directives, items, style, i);
      case FragmentSpread(name, directives) =>
        var head := [Gap(Spaces(i)), Tok(SPREAD), Tok(N(name))];
        WritesThree(Gap(Spaces(i)), Tok(SPREAD), Tok(N(name)));
        assert [] + [SPREAD] + [N(name)] == [SPREAD, N(name)];
        WritesDirectives(directives, style, i);
        WritesGap("\n");
        WritesBoth(DirectivesBits(directives, style, i), DirectivesTokens(DirectivesWritten(directives, style, i)), [Gap("\n")], []);
        assert DirectivesTokens(DirectivesWritten(directives, style, i)) + [] == DirectivesTokens(DirectivesWritten(directives, style, i));
        WritesBoth(head, [SPREAD, N(name)], DirectivesBits(directives, style, i) + [Gap("\n")],
                   DirectivesTokens(DirectivesWritten(directives, style, i)));
    }
  }

  lemma {:induction false} WritesField(alias: Option<string>, name: string, arguments: seq<Entry>,
                                       directives: seq<Directive>, items: seq<Selection>, style: Style, i: nat)
    ensures var s := Field(alias, name, arguments, directives, items);
            Writes(SelectionBits(s, style, i), SelectionTokens(SelectionWritten(s, style, i)))
    decreases items, 4
  {
    WritesNothing();
    hide Writes, ArgumentsBits, DirectivesBits, ArgumentsTokens, DirectivesTokens, BlockTokens, NamedBits;
    var a, b, c, d := [Gap(Spaces(i))], AliasBits(alias), [Tok(N(name))], ArgumentsBits(arguments, style, i);
    var e := DirectivesBits(directives, style, i) + Ending(items, style, i);
    var arguments', directives' := ArgumentsWritten(arguments, style, i), DirectivesWritten(directives, style, i);
    var items' := SelectionsWritten(items, style, i + style.indent);
    var r, s, t := AliasTokens(alias), ArgumentsTokens(arguments'), DirectivesTokens(directives') + OptionalBlock(items');
    WritesGap(Spaces(i));
    if alias.Some? {
      WritesNamed(alias.value);
    }
    WritesToken(N(name));
    WritesArguments(arguments, style, i);
    WritesTail(directives, items, style, i);
    WritesBoth(d, s, e, t);
    WritesBoth(c, [N(name)], d + e, s + t);
    WritesBoth(b, r, c + (d + e), [N(name)] + (s + t));
    WritesBoth(a, [], b + (c + (d + e)), r + ([N(name)] + (s + t)));
    FieldTokens(alias, name, arguments', directives', items', []);
    FieldGroups(r, [N(name)], s, DirectivesTokens(directives'), OptionalBlock(items'));
    assert SelectionTokens(Field(alias, name, arguments', directives', items')) + []
        == SelectionTokens(Field(alias, name, arguments', directives', items'));
  }

  lemma FieldGroups<T>(a: seq<T>, b: seq<T>, c: seq<T>, d: seq<T>, e: seq<T>)
    ensures [] + (a + (b + (c + (d + e)))) == a + b + (c + (d + (e + [])))
  {
    assert e + [] == e;
    assert a + (b + (c + (d + e))) == a + b + (c + (d + e));
  }

  lemma WritesOn(on: Option<string>)
    ensures Writes(OnBits(on), OnTokens(on))
  {
    WritesNothing();
    if on.Some? {
      WritesTwo(Gap(" "), Tok(N("on")));
      WritesTwo(Gap(" "), Tok(N(on.value)));
      var a, b := [Gap(" "), Tok(N("on"))], [Gap(" "), Tok(N(on.value))];
      hide Writes;
      WritesBoth(a, [] + [N("on")], b, [] + [N(on.value)]);
      assert OnBits(on) == a + b;
      assert [] + [N("on")] + ([] + [N(on.value)]) == OnTokens(on);
    }
  }

  lemma {:induction false} WritesInline(on: Option<string>, directives: seq<Directive>, items: seq<Selection>,
                                        style: Style, i: nat)
    ensures var s := InlineFragment(on, directives, items);
            Writes(SelectionBits(s, style, i), SelectionTokens(SelectionWritten(s, style, i)))
    decreases items, 4
  {
    hide Writes, DirectivesBits, DirectivesTokens, BlockTokens, OnBits, OnTokens;
    var a, b, c, d := [Gap(Spaces(i)), Tok(SPREAD)], OnBits(on), DirectivesBits(directives, style, i),
                      [Gap(" ")] + BlockBits(items, style, i);
    var directives', items' := DirectivesWritten(directives, style, i), SelectionsWritten(items, style, i + style.indent);
    var s, t := OnTokens(on), DirectivesTokens(directives');
    WritesTwo(Gap(Spaces(i)), Tok(SPREAD));
    assert [] + [SPREAD] == [SPREAD];
    WritesOn(on);
    WritesDirectives(directives, style, i);
    WritesSet(items, style, i);
    WritesBoth(c, t, d, BlockTokens(items'));
    WritesBoth(b, s, c + d, t + BlockTokens(items'));
    WritesBoth(a, [SPREAD], b + (c + d), s + (t + BlockTokens(items')));
    InlineTokens(on, directives', items', []);
    InlineGroups([SPREAD], s, t, BlockTokens(items'));
    assert SelectionTokens(InlineFragment(on, directives', items')) + []
        == SelectionTokens(InlineFragment(on, directives', items'));
  }

  lemma InlineGroups<T>(a: seq<T>, b: seq<T>, c: seq<T>, d: seq<T>)
    ensures a + (b + (c + d)) == a + b + (c + (d + []))
  {
    assert d + [] == d;
  }

  // ----- definitions -----

  function DefaultTokens(v: Option<Value>): seq<Token> {
    if v.Some? then [P('=')] + ValueTokens(v.value) else []
  }

  lemma {:induction false} WritesDefault(v: Option<Value>, style: Style)
    ensures Writes(DefaultBits(v, style, 0), DefaultTokens(if v.Some? then Some(ValueWritten(v.value, style, 0)) else None))
  {
    WritesNothing();
    hide Writes, ValueBits, ValueTokens;
    if v.Some? {
      WritesThree(Gap(" "), Tok(P('=')), Gap(" "));
      assert [] + [P('=')] + [] == [P('=')];
      WritesValue(v.value, style, 0);
      WritesBoth([Gap(" "), Tok(P('=')), Gap(" ")], [P('=')], ValueBits(v.value, style, 0), ValueTokens(ValueWritten(v.value, style, 0)));
    }
  }

  lemma {:induction false} WritesVariable(v: VariableDefinition, style: Style)
    ensures Writes(VariableBits(v, style, 0), VariableTokens(VariableWritten(v, style)))
  {
    hide Writes, TypeBits, TypeTokens, DefaultBits, NamedBits;
    var default := DefaultTokens(VariableWritten(v, style).defaultValue);
    VariableHead(v.name);
    WritesType(v.varType);
    WritesDefault(v.defaultValue, style);
    WritesBoth(TypeBits(v.varType), TypeTokens(v.varType), DefaultBits(v.defaultValue, style, 0), default);
    WritesBoth([Tok(P('$')), Tok(N(v.name)), Tok(P(':')), Gap(" ")], [P('$'), N(v.name), P(':')],
               TypeBits(v.varType) + DefaultBits(v.defaultValue, style, 0), TypeTokens(v.varType) + default);
    assert [P('$'), N(v.name), P(':')] + (TypeTokens(v.varType) + default) == VariableTokens(VariableWritten(v, style));
  }

  lemma VariableHead(name: string)
    ensures Writes([Tok(P('$')), Tok(N(name)), Tok(P(':')), Gap(" ")], [P('$'), N(name), P(':')])
  {
    WritesToken(P('$'));
    WritesNamed(name);
    WritesBoth([Tok(P('$'))], [P('$')], NamedBits(name), [N(name), P(':')]);
    assert [Tok(P('$'))] + NamedBits(name) == [Tok(P('$')), Tok(N(name)), Tok(P(':')), Gap(" ")];
  }

  lemma {:induction false} WritesVariables(variables: seq<VariableDefinition>, style: Style, commas: bool,
                                           first: bool)
    ensures Writes(VariablesBits(variables, style, 0, commas, first), VariablesTokens(VariablesWritten(variables, style)))
    decreases variables
  {
    WritesNothing();
    hide Writes, VariableBits, VariableTokens;
    if variables != [] {
      var gap := if first || !commas then [] else [Gap(","), Gap(" ")];
      var v, rest := VariableBits(variables[0], style, 0), VariablesBits(variables[1..], style, 0, commas, false);
      var s, t := VariableTokens(VariableWritten(variables[0], style)), VariablesTokens(VariablesWritten(variables[1..], style));
      WritesTwo(Gap(","), Gap(" "));
      var none: seq<Token> := [];
      assert none + none == none;
      WritesVariable(variables[0], style);
      WritesVariables(variables[1..], style, commas, false);
      WritesBoth(v, s, rest, t);
      WritesBoth(gap, [], v + rest, s + t);
      assert [] + (s + t) == s + t;
    }
  }

  lemma {:induction false} WritesVariableBlock(kind: OperationKind, name: Option<string>,
                                               variables: seq<VariableDefinition>, style: Style)
    ensures Writes(VariableBlockBits(kind, name, variables, style, 0),
                   VariableBlockTokens(VariablesWritten(WrittenVariables(kind, name, variables), style)))
  {
    WritesNothing();
    hide Writes, VariablesBits, VariablesTokens;
    var written := WrittenVariables(kind, name, variables);
    if written != [] {
      var body, tokens := VariablesBits(written, style, 0, kind != Subscription, true), VariablesTokens(VariablesWritten(written, style));
      WritesVariables(written, style, kind != Subscription, true);
      WritesToken(P('('));
      WritesToken(P(')'));
      WritesBoth(body, tokens, [Tok(P(')'))], [P(')')]);
      WritesBoth([Tok(P('('))], [P('(')], body + [Tok(P(')'))], tokens + [P(')')]);
      assert [P('(')] + (tokens + [P(')')]) == [P('(')] + tokens + [P(')')];
    }
  }

  lemma WritesName(name: Option<string>)
    ensures Writes(NameBits(name), NameTokens(name))
  {
    WritesNothing();
    if name.Some? {
      WritesTwo(Gap(" "), Tok(N(name.value)));
      assert [] + [N(name.value)] == [N(name.value)];
    }
  }

  lemma {:induction false} WritesDefinition(d: Definition, style: Style)
    ensures Writes(DefinitionBits(d, style), DefinitionTokens(DefinitionWritten(d, style)))
  {
    match d {
      case SelectionSet(items) =>
        WritesGap(Spaces(0));
        WritesBlock(items, style, 0);
        WritesBoth([Gap(Spaces(0))], [], BlockBits(items, style, 0), BlockTokens(SelectionsWritten(items, style, 0 + style.indent)));
        var tokens := BlockTokens(SelectionsWritten(items, style, 0 + style.indent));
        assert [] + tokens == tokens;
      case Operation(kind, name, variables, directives, items) =>
        WritesOperation(kind, name, variables, directives, items, style);
      case Fragment(name, on, directives, items) => WritesFragment(name, on, directives, items, style);
    }
  }

  lemma {:induction false} WritesOperation(
      kind: OperationKind, name: Option<string>, variables: seq<VariableDefinition>, directives: seq<Directive>,
      items: seq<Selection>, style: Style)
    ensures var d := Operation(kind, name, variables, directives, items);
            Writes(DefinitionBits(d, style), DefinitionTokens(DefinitionWritten(d, style)))
  {
    var variables', directives' := VariablesWritten(variables, style), DirectivesWritten(directives, style, 0);
    var items' := SelectionsWritten(items, style, 0 + style.indent);
    var written := Operation(kind, name, variables', directives', items');
    OperationTokens(written, []);
    WrittenTwice(kind, name, variables, style);
    hide Writes, DirectivesBits, DirectivesTokens, BlockBits, BlockTokens, VariableBlockBits, VariableBlockTokens;
    hide Keyword, NameBits, NameTokens, DefinitionTokens;
    var a, b, c := [Gap(Spaces(0)), Tok(N(Keyword(kind)))], NameBits(name), VariableBlockBits(kind, name, variables, style, 0);
    var d, e := DirectivesBits(directives, style, 0), [Gap(" ")] + BlockBits(items, style, 0);
    var q, r, s, t := NameTokens(name), VariableBlockTokens(WrittenVariables(kind, name, variables')),
                      DirectivesTokens(directives'), BlockTokens(items');
    WritesTwo(Gap(Spaces(0)), Tok(N(Keyword(kind))));
    assert [] + [N(Keyword(kind))] == [N(Keyword(kind))];
    WritesName(name);
    WritesVariableBlock(kind, name, variables, style);
    WritesDirectives(directives, style, 0);
    WritesSet(items, style, 0);
    WritesBoth(d, s, e, t);
    WritesBoth(c, r, d + e, s + t);
    WritesBoth(b, q, c + (d + e), r + (s + t));
    WritesBoth(a, [N(Keyword(kind))], b + (c + (d + e)), q + (r + (s + t)));
    assert t + [] == t;
    assert DefinitionTokens(written) + [] == DefinitionTokens(written);
  }

  lemma WrittenTwice(kind: OperationKind, name: Option<string>, variables: seq<VariableDefinition>, style: Style)
    ensures VariablesWritten(WrittenVariables(kind, name, variables), style)
         == WrittenVariables(kind, name, VariablesWritten(variables, style))
  {
  }

  lemma {:induction false} WritesFragment(name: string, on: string, directives: seq<Directive>, items: seq<Selection>,
                                          style: Style)
    ensures var d := Fragment(name, on, directives, items); Writes(DefinitionBits(d, style), DefinitionTokens(DefinitionWritten(d, style)))
  {
    hide Writes, DirectivesBits, DirectivesTokens, BlockBits, BlockTokens;
    var head := [Gap(Spaces(0)), Tok(N("fragment")), Gap(" "), Tok(N(name)), Gap(" "), Tok(N("on")), Gap(" "), Tok(N(on))];
    var tokens := [N("fragment"), N(name), N("on"), N(on)];
    var directives', items' := DirectivesWritten(directives, style, 0), SelectionsWritten(items, style, 0 + style.indent);
    var d, e, t := DirectivesBits(directives, style, 0), [Gap(" ")] + BlockBits(items, style, 0), BlockTokens(items');
    FragmentHead(name, on);
    WritesDirectives(directives, style, 0);
    WritesSet(items, style, 0);
    WritesBoth(d, DirectivesTokens(directives'), e, t);
    WritesBoth(head, tokens, d + e, DirectivesTokens(directives') + t);
    assert tokens + (DirectivesTokens(directives') + t) == tokens + DirectivesTokens(directives') + t;
  }

  lemma {:induction false} FragmentHead(name: string, on: string)
    ensures Writes([Gap(Spaces(0)), Tok(N("fragment")), Gap(" "), Tok(N(name)), Gap(" "), Tok(N("on")), Gap(" "), Tok(N(on))],
                   [N("fragment"), N(name), N("on"), N(on)])
  {
    hide Writes, Spaces;
    var a, b, c, d := [Gap(Spaces(0)), Tok(N("fragment"))], [Gap(" "), Tok(N(name))], [Gap(" "), Tok(N("on"))],
                      [Gap(" "), Tok(N(on))];
    WritesTwo(Gap(Spaces(0)), Tok(N("fragment")));
    WritesTwo(Gap(" "), Tok(N(name)));
    WritesTwo(Gap(" "), Tok(N("on")));
    WritesTwo(Gap(" "), Tok(N(on)));
    WritesBoth(a, [] + [N("fragment")], b, [] + [N(name)]);
    WritesBoth(c, [] + [N("on")], d, [] + [N(on)]);
    WritesBoth(a + b, [] + [N("fragment")] + ([] + [N(name)]), c + d, [] + [N("on")] + ([] + [N(on)]));
    assert a + b + (c + d)
        == [Gap(Spaces(0)), Tok(N("fragment")), Gap(" "), Tok(N(name)), Gap(" "), Tok(N("on")), Gap(" "), Tok(N(on))];
    assert [] + [N("fragment")] + ([] + [N(name)]) + ([] + [N("on")] + ([] + [N(on)]))
        == [N("fragment"), N(name), N("on"), N(on)];
  }

  lemma {:induction false} WritesDefinitions(d: Document, style: Style, first: bool)
    ensures Writes(DefinitionsBits(d, style, first), DocumentTokens(DocumentWritten(d, style)))
    decreases d
  {
    WritesNothing();
    hide Writes, DefinitionBits, DefinitionTokens;
    if d != [] {
      var gap := if first then [] else [Gap("\n")];
      var head, rest := DefinitionBits(d[0], style), DefinitionsBits(d[1..], style, false);
      WritesGap("\n");
      WritesDefinition(d[0], style);
      WritesDefinitions(d[1..], style, false);
      WritesBoth(head, DefinitionTokens(DefinitionWritten(d[0], style)), rest, DocumentTokens(DocumentWritten(d[1..], style)));
      WritesBoth(gap, [], head + rest, DefinitionTokens(DefinitionWritten(d[0], style)) + DocumentTokens(DocumentWritten(d[1..], style)));
      assert [] + (DefinitionTokens(DefinitionWritten(d[0], style)) + DocumentTokens(DocumentWritten(d[1..], style)))
          == DocumentTokens(DocumentWritten(d, style));
    }
  }

  // ----- the round trip -----

  lemma {:induction false} SameAffordable(written: seq<Token>, tokens: seq<Token>, limit: nat)
    requires Same(written, tokens) && Affordable(tokens, limit)
    ensures Affordable(written, limit)
  {
    if tokens != [] {
      assert SameToken(written[0], tokens[0]);
      SameFrom(written, tokens, 1);
      SameAffordable(written[1..], tokens[1..], Spend(limit, tokens[0]).value);
    }
  }

  /** The text printed for a document a parse can return is read back as the tokens that were written, in any style
      and whether or not strings are written as blocks. */
  lemma {:induction false} PrintedLexes(d: Document, style: Style)
    requires DocumentOk(d) && DocumentNest(d) <= BRACKET_LIMIT
    ensures Lex(Printed(d, style)) == Some(BitTokens(DocumentBits(d, style)))
  {
    hide DefinitionsBits, DocumentTokens, BitTokens, Affordable, Lex, Run, DefinitionsOk, DocumentWritten, Same;
    WritesDefinitions(d, style, true);
    DocumentStays(d, style);
    DocumentCosts(DocumentWritten(d, style), BRACKET_LIMIT);
    SameAffordable(BitTokens(DefinitionsBits(d, style, true)), DocumentTokens(DocumentWritten(d, style)), BRACKET_LIMIT);
    RunDefinitions(d, style, true);
    RunLexes(DocumentBits(d, style));
  }

  /** Printing any document a parse can return, in any style, and parsing the text gives the document as it was written
      and reread. */
  lemma {:induction false} PrintThenParse(d: Document, style: Style)
    requires DocumentOk(d) && DocumentNest(d) <= BRACKET_LIMIT && FloatFree(d)
    ensures ParseQuery(Printed(d, style)) == Some(Reread(DocumentWritten(d, style)))
  {
    var written := DocumentWritten(d, style);
    hide Lex, DefinitionsBits, DocumentTokens, BitTokens, Printed, DefinitionsOk, Reread, FloatFree, Same, ParseDefinitions;
    hide DocumentWritten;
    PrintedLexes(d, style);
    WritesDefinitions(d, style, true);
    DocumentStays(d, style);
    DocumentBack(written);
    DocumentSame(BitTokens(DocumentBits(d, style)), DocumentTokens(written));
    SameLength(BitTokens(DocumentBits(d, style)), DocumentTokens(written));
  }

  /** The document itself comes back exactly when its strings are kept and no subscription without a name has
      variables. */
  lemma {:induction false} RoundTripIff(d: Document, style: Style)
    requires DocumentOk(d) && DocumentNest(d) <= BRACKET_LIMIT && FloatFree(d)
    ensures ParseQuery(Printed(d, style)) == Some(d) <==> Kept(d, style)
  {
    PrintThenParse(d, style);
    RereadIsSameIff(d, style);
  }

  /** `subscription($v: T) { f }` is printed without its variable, and read back without it. */
  lemma {:induction false} UnnamedSubscriptionLosesVariables(style: Style)
    ensures var items := [Field(None, "f", [], [], [])];
      var d := [Operation(Subscription, None, [VariableDefinition("v", NamedType("T"), None)], [], items)];
      && DocumentOk(d)
      && ParseQuery(Printed(d, style)) == Some([Operation(Subscription, None, [], [], items)])
  {
    var field := Field(None, "f", [], [], []);
    var variable := VariableDefinition("v", NamedType("T"), None);
    var definition := Operation(Subscription, None, [variable], [], [field]);
    SmallSubscription(field, variable, definition);
    SmallComesBack(field, variable, definition, style);
    hide *;
    PrintThenParse([definition], style);
  }

  lemma {:induction false} SmallSubscription(field: Selection, variable: VariableDefinition, definition: Definition)
    requires field == Field(None, "f", [], [], []) && variable == VariableDefinition("v", NamedType("T"), None)
    requires definition == Operation(Subscription, None, [variable], [], [field])
    ensures DocumentOk([definition]) && DocumentNest([definition]) <= BRACKET_LIMIT && FloatFree([definition])
  {
    NameIsToken("f");
    NameIsToken("v");
    NameIsToken("T");
    hide IsName;
    assert SelectionOk(field) && SelectionsOk([field]) && VariablesOk([variable]) && DefinitionOk(definition);
    assert DefinitionsOk([definition]);
    assert SelectionNest(field) == 0 && SelectionsNest([field]) == 0 && VariablesNest([variable]) == 0;
    assert DefinitionNest(definition) == 1 && DocumentNest([definition]) == 1;
    assert SelectionFloatFree(field) && SelectionsFloatFree([field]) && DefinitionFloatFree(definition) && FloatFree([definition]);
  }

  lemma {:induction false} SmallComesBack(field: Selection, variable: VariableDefinition, definition: Definition, style: Style)
    requires field == Field(None, "f", [], [], []) && variable == VariableDefinition("v", NamedType("T"), None)
    requires definition == Operation(Subscription, None, [variable], [], [field])
    ensures Reread(DocumentWritten([definition], style)) == [Operation(Subscription, None, [], [], [field])]
  {
    assert SelectionWritten(field, style, style.indent) == field && SelectionsWritten([field], style, style.indent) == [field];
    var written := DefinitionWritten(definition, style);
    assert RereadSelection(field) == field && RereadSelections([field]) == [field];
    assert RereadDefinition(written) == Operation(Subscription, None, [], [], [field]);
    assert [definition][1..] == [] && [written][1..] == [];
    assert DocumentWritten([definition], style) == [written] && Reread([written]) == [RereadDefinition(written)];
  }
}
