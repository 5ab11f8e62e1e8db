/** How deeply the brackets of a tree are nested: the budget that sufficed for a parsed text suffices for the tree. */
module Nesting {
  import opened Common
  import opened Lexer
  import opened Layouts
  import opened Syntax
  import opened Grammar
  import opened Reparse

  function Max(a: nat, b: nat): nat {
    if a < b then b else a
  }

  function ValueNest(v: Value): nat {
    match v
    case List(items) => 1 + ValuesNest(items)
    case Object(entries) => 1 + EntriesNest(entries)
    case _ => 0
  }

  function ValuesNest(items: seq<Value>): nat {
    if items == [] then 0 else Max(ValueNest(items[0]), ValuesNest(items[1..]))
  }

  function EntriesNest(entries: seq<Entry>): nat {
    if entries == [] then 0 else Max(ValueNest(entries[0].value), EntriesNest(entries[1..]))
  }

  function ArgumentsNest(arguments: seq<Entry>): nat {
    if arguments == [] then 0 else 1 + EntriesNest(arguments)
  }

  function DirectivesNest(directives: seq<Directive>): nat {
    if directives == [] then 0 else Max(ArgumentsNest(directives[0].arguments), DirectivesNest(directives[1..]))
  }

  function TypeNest(t: Type): nat {
    match t
    case NamedType(_) => 0
    case ListType(inner) => 1 + TypeNest(inner)
    case NonNullType(inner) => TypeNest(inner)
  }

  function SelectionNest(s: Selection): nat
    decreases s
  {
    match s
    case Field(_, _, arguments, directives, items) =>
      Max(ArgumentsNest(arguments), Max(DirectivesNest(directives), if items == [] then 0 else 1 + SelectionsNest(items)))
    case InlineFragment(_, directives, items) => Max(DirectivesNest(directives), 1 + SelectionsNest(items))
    case FragmentSpread(_, directives) => DirectivesNest(directives)
  }

  function SelectionsNest(items: seq<Selection>): nat
    decreases items
  {
    if items == [] then 0 else Max(SelectionNest(items[0]), SelectionsNest(items[1..]))
  }

  function VariablesNest(variables: seq<VariableDefinition>): nat {
    if variables == [] then 0
    else
      var v := variables[0];
      Max(Max(TypeNest(v.varType), if v.defaultValue.Some? then ValueNest(v.defaultValue.value) else 0),
          VariablesNest(variables[1..]))
  }

  function VariableBlockNest(variables: seq<VariableDefinition>): nat {
    if variables == [] then 0 else 1 + VariablesNest(variables)
  }

  function DefinitionNest(d: Definition): nat {
    match d
    case SelectionSet(items) => 1 + SelectionsNest(items)
    case Operation(_, _, variables, directives, items) =>
      Max(VariableBlockNest(variables), Max(DirectivesNest(directives), 1 + SelectionsNest(items)))
    case Fragment(_, _, directives, items) => Max(DirectivesNest(directives), 1 + SelectionsNest(items))
  }

  function DocumentNest(d: Document): nat {
    if d == [] then 0 else Max(DefinitionNest(d[0]), DocumentNest(d[1..]))
  }

  // ----- what writing a tree costs -----

  /** A token that is no bracket costs nothing. */
  lemma FreeToken(t: Token, rest: seq<Token>, limit: nat)
    requires t.kind != Punctuator || t.value == "" || (!IsOpen(t.value[0]) && !IsClose(t.value[0]))
    ensures Affordable([t] + rest, limit) <==> Affordable(rest, limit)
  {
    assert ([t] + rest)[1..] == rest;
  }

  lemma ClosingToken(c: char, rest: seq<Token>, limit: nat)
    requires IsClose(c)
    ensures Affordable([P(c)] + rest, limit) <==> Affordable(rest, limit + 1)
  {
    assert ([P(c)] + rest)[1..] == rest;
  }

  lemma OpeningToken(c: char, rest: seq<Token>, limit: nat)
    requires IsOpen(c)
    ensures Affordable([P(c)] + rest, limit) <==> limit > 0 && Affordable(rest, limit - 1)
  {
    assert ([P(c)] + rest)[1..] == rest;
  }

  /** A bracketed body needs one more than the body. */
  lemma {:induction false} BracketsCost(open: char, body: seq<Token>, close: char, rest: seq<Token>, limit: nat)
    requires IsOpen(open) && IsClose(close) && limit > 0
    requires Affordable(body + ([P(close)] + rest), limit - 1)
    ensures Affordable([P(open)] + body + [P(close)] + rest, limit)
  {
    hide Affordable;
    assert [P(open)] + body + [P(close)] + rest == [P(open)] + (body + ([P(close)] + rest));
    OpeningToken(open, body + ([P(close)] + rest), limit);
  }

  lemma {:induction false} ValueCosts(v: Value, rest: seq<Token>, limit: nat)
    requires ValueNest(v) <= limit && Affordable(rest, limit)
    ensures Affordable(ValueTokens(v) + rest, limit)
    decreases v
  {
    hide Affordable;
    match v {
      case Variable(name) =>
        FreeToken(N(name), rest, limit);
        FreeToken(P('$'), [N(name)] + rest, limit);
        assert [P('$'), N(name)] + rest == [P('$')] + ([N(name)] + rest);
      case List(items) =>
        ClosingToken(']', rest, limit - 1);
        ValuesCost(items, [P(']')] + rest, limit - 1);
        BracketsCost('[', ValuesTokens(items), ']', rest, limit);
      case Object(entries) =>
        ClosingToken('}', rest, limit - 1);
        EntriesCost(entries, [P('}')] + rest, limit - 1);
        BracketsCost('{', EntriesTokens(entries), '}', rest, limit);
      case _ =>
        FreeToken(ValueTokens(v)[0], rest, limit);
    }
  }

  lemma {:induction false} ValuesCost(items: seq<Value>, rest: seq<Token>, limit: nat)
    requires ValuesNest(items) <= limit && Affordable(rest, limit)
    ensures Affordable(ValuesTokens(items) + rest, limit)
    decreases items
  {
    hide Affordable, ValueTokens;
    if items == [] {
      assert ValuesTokens(items) + rest == rest;
    } else {
      ValuesCost(items[1..], rest, limit);
      ValueCosts(items[0], ValuesTokens(items[1..]) + rest, limit);
      assert ValuesTokens(items) + rest == ValueTokens(items[0]) + (ValuesTokens(items[1..]) + rest);
    }
  }

  lemma {:induction false} EntriesCost(entries: seq<Entry>, rest: seq<Token>, limit: nat)
    requires EntriesNest(entries) <= limit && Affordable(rest, limit)
    ensures Affordable(EntriesTokens(entries) + rest, limit)
    decreases entries
  {
    hide Affordable, ValueTokens;
    if entries == [] {
      assert EntriesTokens(entries) + rest == rest;
    } else {
      var e := entries[0];
      var after := EntriesTokens(entries[1..]) + rest;
      EntriesConsTokens(entries, rest);
      hide EntriesTokens;
      EntriesCost(entries[1..], rest, limit);
      ValueCosts(e.value, after, limit);
      FreeToken(P(':'), ValueTokens(e.value) + after, limit);
      FreeToken(N(e.name), [P(':')] + (ValueTokens(e.value) + after), limit);
    }
  }

  lemma {:induction false} EntriesConsTokens(entries: seq<Entry>, rest: seq<Token>)
    requires entries != []
    ensures EntriesTokens(entries) + rest ==
            [N(entries[0].name)] + ([P(':')] + (ValueTokens(entries[0].value) + (EntriesTokens(entries[1..]) + rest)))
  {
    hide ValueTokens;
  }

  lemma {:induction false} ArgumentsCost(arguments: seq<Entry>, rest: seq<Token>, limit: nat)
    requires ArgumentsNest(arguments) <= limit && Affordable(rest, limit)
    ensures Affordable(ArgumentsTokens(arguments) + rest, limit)
  {
    hide Affordable, EntriesTokens;
    if arguments == [] {
      assert ArgumentsTokens(arguments) + rest == rest;
    } else {
      ClosingToken(')', rest, limit - 1);
      EntriesCost(arguments, [P(')')] + rest, limit - 1);
      BracketsCost('(', EntriesTokens(arguments), ')', rest, limit);
    }
  }

  lemma {:induction false} DirectivesCost(directives: seq<Directive>, rest: seq<Token>, limit: nat)
    requires DirectivesNest(directives) <= limit && Affordable(rest, limit)
    ensures Affordable(DirectivesTokens(directives) + rest, limit)
    decreases directives
  {
    hide Affordable, ArgumentsTokens;
    if directives == [] {
      assert DirectivesTokens(directives) + rest == rest;
    } else {
      var d := directives[0];
      var after := DirectivesTokens(directives[1..]) + rest;
      DirectivesCost(directives[1..], rest, limit);
      ArgumentsCost(d.arguments, after, limit);
      FreeToken(N(d.name), ArgumentsTokens(d.arguments) + after, limit);
      FreeToken(P('@'), [N(d.name)] + (ArgumentsTokens(d.arguments) + after), limit);
      assert DirectivesTokens(directives) + rest == [P('@')] + ([N(d.name)] + (ArgumentsTokens(d.arguments) + after));
    }
  }

  lemma {:induction false} TypeCosts(t: Type, rest: seq<Token>, limit: nat)
    requires TypeNest(t) <= limit && Affordable(rest, limit)
    ensures Affordable(TypeTokens(t) + rest, limit)
    decreases t
  {
    hide Affordable;
    match t {
      case NamedType(name) => FreeToken(N(name), rest, limit);
      case ListType(inner) =>
        ClosingToken(']', rest, limit - 1);
        TypeCosts(inner, [P(']')] + rest, limit - 1);
        BracketsCost('[', TypeTokens(inner), ']', rest, limit);
      case NonNullType(inner) =>
        FreeToken(P('!'), rest, limit);
        TypeCosts(inner, [P('!')] + rest, limit);
        assert TypeTokens(t) + rest == TypeTokens(inner) + ([P('!')] + rest);
    }
  }

  lemma {:induction false} BlockCosts(items: seq<Selection>, rest: seq<Token>, limit: nat)
    requires 1 + SelectionsNest(items) <= limit && Affordable(rest, limit)
    ensures Affordable(BlockTokens(items) + rest, limit)
    decreases items, 1
  {
    hide Affordable, SelectionsTokens;
    ClosingToken('}', rest, limit - 1);
    SelectionsCost(items, [P('}')] + rest, limit - 1);
    BracketsCost('{', SelectionsTokens(items), '}', rest, limit);
  }

  lemma {:induction false} SelectionsCost(items: seq<Selection>, rest: seq<Token>, limit: nat)
    requires SelectionsNest(items) <= limit && Affordable(rest, limit)
    ensures Affordable(SelectionsTokens(items) + rest, limit)
    decreases items, 0
  {
    hide Affordable, SelectionTokens, SelectionNest;
    if items == [] {
      assert SelectionsTokens(items) + rest == rest;
    } else {
      SelectionsCost(items[1..], rest, limit);
      SelectionCosts(items[0], SelectionsTokens(items[1..]) + rest, limit);
      SelectionsCons(items, rest);
    }
  }

  lemma {:induction false} SelectionCosts(s: Selection, rest: seq<Token>, limit: nat)
    requires SelectionNest(s) <= limit && Affordable(rest, limit)
    ensures Affordable(SelectionTokens(s) + rest, limit)
    decreases s
  {
    hide Affordable, ArgumentsTokens, DirectivesTokens, SelectionsTokens;
    match s {
      case Field(alias, name, arguments, directives, items) =>
        FieldTokens(alias, name, arguments, directives, items, rest);
        FieldCosts(alias, name, arguments, directives, items, rest, limit);
      case InlineFragment(on, directives, items) =>
        InlineTokens(on, directives, items, rest);
        InlineCosts(on, directives, items, rest, limit);
      case FragmentSpread(name, directives) =>
        DirectivesCost(directives, rest, limit);
        FreeToken(N(name), DirectivesTokens(directives) + rest, limit);
        FreeToken(SPREAD, [N(name)] + (DirectivesTokens(directives) + rest), limit);
        assert SelectionTokens(s) + rest == [SPREAD] + ([N(name)] + (DirectivesTokens(directives) + rest));
    }
  }

  lemma {:induction false} FieldCosts(alias: Option<string>, name: string, arguments: seq<Entry>,
                                      directives: seq<Directive>, items: seq<Selection>, rest: seq<Token>, limit: nat)
    requires SelectionNest(Field(alias, name, arguments, directives, items)) <= limit && Affordable(rest, limit)
    ensures Affordable(AliasTokens(alias) + [N(name)]
                       + (ArgumentsTokens(arguments) + (DirectivesTokens(directives) + (OptionalBlock(items) + rest))), limit)
    decreases items, 2
  {
    hide Affordable, ArgumentsTokens, DirectivesTokens, BlockTokens, SelectionsNest, ArgumentsNest, DirectivesNest;
    if items == [] {
      assert OptionalBlock(items) + rest == rest;
    } else {
      BlockCosts(items, rest, limit);
    }
    DirectivesCost(directives, OptionalBlock(items) + rest, limit);
    ArgumentsCost(arguments, DirectivesTokens(directives) + (OptionalBlock(items) + rest), limit);
    var body := ArgumentsTokens(arguments) + (DirectivesTokens(directives) + (OptionalBlock(items) + rest));
    FreeToken(N(name), body, limit);
    if alias.Some? {
      FreeToken(P(':'), [N(name)] + body, limit);
      FreeToken(N(alias.value), [P(':')] + ([N(name)] + body), limit);
      assert AliasTokens(alias) + [N(name)] + body == [N(alias.value)] + ([P(':')] + ([N(name)] + body));
    } else {
      assert AliasTokens(alias) + [N(name)] + body == [N(name)] + body;
    }
  }

  lemma {:induction false} InlineCosts(on: Option<string>, directives: seq<Directive>, items: seq<Selection>,
                                       rest: seq<Token>, limit: nat)
    requires SelectionNest(InlineFragment(on, directives, items)) <= limit && Affordable(rest, limit)
    ensures Affordable([SPREAD] + OnTokens(on) + (DirectivesTokens(directives) + (BlockTokens(items) + rest)), limit)
    decreases items, 2
  {
    hide Affordable, DirectivesTokens, BlockTokens, SelectionsNest, DirectivesNest;
    BlockCosts(items, rest, limit);
    DirectivesCost(directives, BlockTokens(items) + rest, limit);
    var body := DirectivesTokens(directives) + (BlockTokens(items) + rest);
    if on.Some? {
      FreeToken(N(on.value), body, limit);
      FreeToken(N("on"), [N(on.value)] + body, limit);
      FreeToken(SPREAD, [N("on")] + ([N(on.value)] + body), limit);
      assert [SPREAD] + OnTokens(on) + body == [SPREAD] + ([N("on")] + ([N(on.value)] + body));
    } else {
      FreeToken(SPREAD, body, limit);
      assert [SPREAD] + OnTokens(on) + body == [SPREAD] + body;
    }
  }

  lemma {:induction false} VariablesCost(variables: seq<VariableDefinition>, rest: seq<Token>, limit: nat)
    requires VariablesNest(variables) <= limit && Affordable(rest, limit)
    ensures Affordable(VariablesTokens(variables) + rest, limit)
  {
    hide Affordable, VariableTokens;
    if variables == [] {
      assert VariablesTokens(variables) + rest == rest;
    } else {
      VariablesCost(variables[1..], rest, limit);
      VariableCosts(variables[0], VariablesTokens(variables[1..]) + rest, limit);
      assert VariablesTokens(variables) + rest == VariableTokens(variables[0]) + (VariablesTokens(variables[1..]) + rest);
    }
  }

  lemma {:induction false} VariableCosts(v: VariableDefinition, rest: seq<Token>, limit: nat)
    requires VariablesNest([v]) <= limit && Affordable(rest, limit)
    ensures Affordable(VariableTokens(v) + rest, limit)
  {
    hide Affordable, TypeTokens, ValueTokens;
    var tail := if v.defaultValue.Some? then [P('=')] + (ValueTokens(v.defaultValue.value) + rest) else rest;
    if v.defaultValue.Some? {
      ValueCosts(v.defaultValue.value, rest, limit);
      FreeToken(P('='), ValueTokens(v.defaultValue.value) + rest, limit);
    }
    TypeCosts(v.varType, tail, limit);
    var body := TypeTokens(v.varType) + tail;
    FreeToken(P(':'), body, limit);
    FreeToken(N(v.name), [P(':')] + body, limit);
    FreeToken(P('$'), [N(v.name)] + ([P(':')] + body), limit);
    assert VariableTokens(v) + rest == [P('$')] + ([N(v.name)] + ([P(':')] + body));
  }

  lemma {:induction false} VariableBlockCosts(variables: seq<VariableDefinition>, rest: seq<Token>, limit: nat)
    requires VariableBlockNest(variables) <= limit && Affordable(rest, limit)
    ensures Affordable(VariableBlockTokens(variables) + rest, limit)
  {
    hide Affordable, VariablesTokens;
    if variables == [] {
      assert VariableBlockTokens(variables) + rest == rest;
    } else {
      ClosingToken(')', rest, limit - 1);
      VariablesCost(variables, [P(')')] + rest, limit - 1);
      BracketsCost('(', VariablesTokens(variables), ')', rest, limit);
    }
  }

  lemma {:induction false} DefinitionCosts(d: Definition, rest: seq<Token>, limit: nat)
    requires DefinitionNest(d) <= limit && Affordable(rest, limit)
    ensures Affordable(DefinitionTokens(d) + rest, limit)
  {
    match d {
      case SelectionSet(items) => BlockCosts(items, rest, limit);
      case Operation(_, _, _, _, _) => OperationCosts(d, rest, limit);
      case Fragment(_, _, _, _) => FragmentCosts(d, rest, limit);
    }
  }

  lemma {:induction false} OperationCosts(d: Definition, rest: seq<Token>, limit: nat)
    requires d.Operation? && DefinitionNest(d) <= limit && Affordable(rest, limit)
    ensures Affordable(DefinitionTokens(d) + rest, limit)
  {
    OperationTokens(d, rest);
    var written := WrittenVariables(d.kind, d.name, d.variables);
    hide Affordable, DefinitionTokens, DirectivesTokens, BlockTokens, VariableBlockTokens, Keyword;
    hide SelectionsNest, DirectivesNest, VariablesNest;
    var tail := BlockTokens(d.items) + rest;
    var body := VariableBlockTokens(written) + (DirectivesTokens(d.directives) + tail);
    BlockCosts(d.items, rest, limit);
    DirectivesCost(d.directives, tail, limit);
    VariableBlockCosts(written, DirectivesTokens(d.directives) + tail, limit);
    if d.name.Some? {
      FreeToken(N(d.name.value), body, limit);
    } else {
      assert NameTokens(d.name) + body == body;
    }
    FreeToken(N(Keyword(d.kind)), NameTokens(d.name) + body, limit);
  }

  lemma {:induction false} FragmentCosts(d: Definition, rest: seq<Token>, limit: nat)
    requires d.Fragment? && DefinitionNest(d) <= limit && Affordable(rest, limit)
    ensures Affordable(DefinitionTokens(d) + rest, limit)
  {
    var body := DirectivesTokens(d.directives) + (BlockTokens(d.items) + rest);
    assert DefinitionTokens(d) + rest == [N("fragment")] + ([N(d.fragment)] + ([N("on")] + ([N(d.on)] + body)));
    hide Affordable, DefinitionTokens, DirectivesTokens, BlockTokens, SelectionsNest, DirectivesNest;
    BlockCosts(d.items, rest, limit);
    DirectivesCost(d.directives, BlockTokens(d.items) + rest, limit);
    FreeToken(N(d.on), body, limit);
    FreeToken(N("on"), [N(d.on)] + body, limit);
    FreeToken(N(d.fragment), [N("on")] + ([N(d.on)] + body), limit);
    FreeToken(N("fragment"), [N(d.fragment)] + ([N("on")] + ([N(d.on)] + body)), limit);
  }

  /** A document whose brackets are nested no deeper than the budget can be afforded. */
  lemma {:induction false} DocumentCosts(d: Document, limit: nat)
    requires DocumentNest(d) <= limit
    ensures Affordable(DocumentTokens(d), limit)
  {
    if d != [] {
      hide DefinitionTokens, DefinitionNest;
      DocumentCosts(d[1..], limit);
      DefinitionCosts(d[0], DocumentTokens(d[1..]), limit);
    }
  }

  // ----- what a parsed text could afford -----

  lemma {:induction false} InsertNest(entries: seq<Entry>, e: Entry)
    ensures EntriesNest(Insert(entries, e)) <= Max(EntriesNest(entries), ValueNest(e.value))
  {
    hide ValueNest;
    if entries == [] || Less(e.name, entries[0].name) {
      assert ([e] + entries)[1..] == entries;
    } else if entries[0].name == e.name {
      assert ([e] + entries[1..])[1..] == entries[1..];
    } else {
      InsertNest(entries[1..], e);
      assert ([entries[0]] + Insert(entries[1..], e))[1..] == Insert(entries[1..], e);
    }
  }

  lemma {:induction false} PrefixNest(entries: seq<Entry>)
    requires entries != []
    ensures var n := |entries| - 1;
            EntriesNest(entries[..n]) <= EntriesNest(entries) && ValueNest(entries[n].value) <= EntriesNest(entries)
  {
    hide ValueNest;
    if |entries| > 1 {
      var rest := entries[1..];
      PrefixNest(rest);
      assert entries[..|entries| - 1][1..] == rest[..|rest| - 1];
    }
  }

  lemma {:induction false} CollectedNest(entries: seq<Entry>)
    ensures EntriesNest(Collected(entries)) <= EntriesNest(entries)
    decreases |entries|
  {
    if entries != [] {
      var n := |entries| - 1;
      CollectedNest(entries[..n]);
      PrefixNest(entries);
      hide EntriesNest, Insert;
      InsertNest(Collected(entries[..n]), entries[n]);
    }
  }

  /** Dropping tokens that are no brackets changes nothing. */
  lemma FreeTail(tokens: seq<Token>, limit: nat)
    requires tokens != [] && (tokens[0].kind != Punctuator || tokens[0] == SPREAD || tokens[0] == P('$') || tokens[0] == P(':')
                              || tokens[0] == P('=') || tokens[0] == P('!') || tokens[0] == P('@'))
    ensures Affordable(tokens, limit) <==> Affordable(tokens[1..], limit)
  {
    FreeToken(tokens[0], tokens[1..], limit);
    assert [tokens[0]] + tokens[1..] == tokens;
  }

  lemma OpenTail(tokens: seq<Token>, c: char, limit: nat)
    requires Starts(tokens, c) && IsOpen(c)
    ensures Affordable(tokens, limit) <==> limit > 0 && Affordable(tokens[1..], limit - 1)
  {
    OpeningToken(c, tokens[1..], limit);
    assert [P(c)] + tokens[1..] == tokens;
  }

  lemma CloseTail(tokens: seq<Token>, c: char, limit: nat)
    requires Starts(tokens, c) && IsClose(c)
    ensures Affordable(tokens, limit) <==> Affordable(tokens[1..], limit + 1)
  {
    ClosingToken(c, tokens[1..], limit);
    assert [P(c)] + tokens[1..] == tokens;
  }

  lemma {:induction false} ValueAfforded(tokens: seq<Token>, constant: bool, limit: nat)
    requires Affordable(tokens, limit)
    ensures var r := ParseValue(tokens, constant); r.Done? ==> ValueNest(r.value) <= limit && Affordable(r.rest, limit)
    decreases |tokens|, 0
  {
    hide Affordable;
    if tokens != [] {
      if tokens[0].kind != Punctuator {
        FreeTail(tokens, limit);
      } else if !constant && Starts(tokens, '$') {
        if StartsName(tokens[1..]) {
          FreeTail(tokens, limit);
          FreeTail(tokens[1..], limit);
          assert tokens[1..][1..] == tokens[2..];
        }
      } else if Starts(tokens, '[') {
        OpenTail(tokens, '[', limit);
        ValuesAfforded(tokens[1..], constant, limit - 1);
        var r := ParseValues(tokens[1..], constant);
        if r.Done? && Starts(r.rest, ']') {
          CloseTail(r.rest, ']', limit - 1);
        }
      } else if Starts(tokens, '{') {
        OpenTail(tokens, '{', limit);
        EntriesAfforded(tokens[1..], constant, limit - 1);
        var r := ParseEntries(tokens[1..], constant);
        if r.Done? && Starts(r.rest, '}') {
          CloseTail(r.rest, '}', limit - 1);
          CollectedNest(r.value);
        }
      }
    }
  }

  lemma {:induction false} ValuesAfforded(tokens: seq<Token>, constant: bool, limit: nat)
    requires Affordable(tokens, limit)
    ensures var r := ParseValues(tokens, constant); r.Done? ==> ValuesNest(r.value) <= limit && Affordable(r.rest, limit)
    decreases |tokens|, 1
  {
    hide Affordable, ParseValue, ValueNest;
    if StartsValue(tokens, constant) {
      ValueAfforded(tokens, constant, limit);
      var r := ParseValue(tokens, constant);
      if r.Done? {
        ValuesAfforded(r.rest, constant, limit);
      }
    }
  }

  lemma {:induction false} EntriesAfforded(tokens: seq<Token>, constant: bool, limit: nat)
    requires Affordable(tokens, limit)
    ensures var r := ParseEntries(tokens, constant); r.Done? ==> EntriesNest(r.value) <= limit && Affordable(r.rest, limit)
    decreases |tokens|, 1
  {
    hide Affordable, ParseValue, ValueNest;
    if StartsName(tokens) && Starts(tokens[1..], ':') {
      FreeTail(tokens, limit);
      FreeTail(tokens[1..], limit);
      assert tokens[1..][1..] == tokens[2..];
      ValueAfforded(tokens[2..], constant, limit);
      var r := ParseValue(tokens[2..], constant);
      if r.Done? {
        EntriesAfforded(r.rest, constant, limit);
      }
    }
  }

  lemma {:induction false} ArgumentsAfforded(tokens: seq<Token>, limit: nat)
    requires Affordable(tokens, limit)
    ensures var r := ParseArguments(tokens); r.Done? ==> ArgumentsNest(r.value) <= limit && Affordable(r.rest, limit)
  {
    hide Affordable, ParseEntries, EntriesNest;
    if Starts(tokens, '(') {
      OpenTail(tokens, '(', limit);
      EntriesAfforded(tokens[1..], false, limit - 1);
      var r := ParseEntries(tokens[1..], false);
      if r.Done? && Starts(r.rest, ')') {
        CloseTail(r.rest, ')', limit - 1);
      }
    }
  }

  lemma {:induction false} DirectivesAfforded(tokens: seq<Token>, limit: nat)
    requires Affordable(tokens, limit)
    ensures var r := ParseDirectives(tokens); r.Done? ==> DirectivesNest(r.value) <= limit && Affordable(r.rest, limit)
    decreases |tokens|
  {
    hide Affordable, ParseArguments, ArgumentsNest;
    if Starts(tokens, '@') && StartsName(tokens[1..]) {
      FreeTail(tokens, limit);
      FreeTail(tokens[1..], limit);
      assert tokens[1..][1..] == tokens[2..];
      ArgumentsAfforded(tokens[2..], limit);
      var r := ParseArguments(tokens[2..]);
      if r.Done? {
        DirectivesAfforded(r.rest, limit);
      }
    }
  }

  lemma {:induction false} TypeAfforded(tokens: seq<Token>, limit: nat)
    requires Affordable(tokens, limit)
    ensures var r := ParseType(tokens); r.Done? ==> TypeNest(r.value) <= limit && Affordable(r.rest, limit)
    decreases |tokens|
  {
    hide Affordable;
    if StartsName(tokens) {
      FreeTail(tokens, limit);
    } else if Starts(tokens, '[') {
      OpenTail(tokens, '[', limit);
      TypeAfforded(tokens[1..], limit - 1);
      var r := ParseType(tokens[1..]);
      if r.Done? && Starts(r.rest, ']') {
        CloseTail(r.rest, ']', limit - 1);
      }
    }
    var bare := ParseBareType(tokens);
    if bare.Done? && Starts(bare.rest, '!') {
      FreeTail(bare.rest, limit);
    }
  }

  lemma {:induction false} SetAfforded(tokens: seq<Token>, limit: nat)
    requires Affordable(tokens, limit)
    ensures var r := ParseSelectionSet(tokens); r.Done? ==> 1 + SelectionsNest(r.value) <= limit && Affordable(r.rest, limit)
    decreases |tokens|, 0
  {
    hide Affordable, ParseSelections, SelectionsNest;
    if Starts(tokens, '{') {
      OpenTail(tokens, '{', limit);
      SelectionsAfforded(tokens[1..], limit - 1);
      var r := ParseSelections(tokens[1..]);
      if r.Done? && Starts(r.rest, '}') {
        CloseTail(r.rest, '}', limit - 1);
      }
    }
  }

  lemma {:induction false} SelectionsAfforded(tokens: seq<Token>, limit: nat)
    requires Affordable(tokens, limit)
    ensures var r := ParseSelections(tokens); r.Done? ==> SelectionsNest(r.value) <= limit && Affordable(r.rest, limit)
    decreases |tokens|, 2
  {
    hide Affordable, ParseSelection, SelectionNest;
    if StartsSelection(tokens) {
      SelectionAfforded(tokens, limit);
      var r := ParseSelection(tokens);
      if r.Done? {
        SelectionsAfforded(r.rest, limit);
      }
    }
  }

  lemma {:induction false} SelectionAfforded(tokens: seq<Token>, limit: nat)
    requires Affordable(tokens, limit) && StartsSelection(tokens)
    ensures var r := ParseSelection(tokens); r.Done? ==> SelectionNest(r.value) <= limit && Affordable(r.rest, limit)
    decreases |tokens|, 1
  {
    hide Affordable, ParseField, ParseInline, ParseDirectives, DirectivesNest;
    if tokens[0].kind == Name {
      FieldAfforded(tokens, limit);
    } else {
      var after := tokens[1..];
      FreeTail(tokens, limit);
      if StartsWord(after, "on") {
        if StartsName(after[1..]) {
          FreeTail(after, limit);
          FreeTail(after[1..], limit);
          assert after[1..][1..] == after[2..];
          InlineAfforded(Some(after[1].value), after[2..], limit);
        }
      } else if Starts(after, '@') || Starts(after, '{') {
        InlineAfforded(None, after, limit);
      } else if StartsName(after) {
        FreeTail(after, limit);
        DirectivesAfforded(after[1..], limit);
      }
    }
  }

  lemma {:induction false} InlineAfforded(on: Option<string>, tokens: seq<Token>, limit: nat)
    requires Affordable(tokens, limit)
    ensures var r := ParseInline(on, tokens); r.Done? ==> SelectionNest(r.value) <= limit && Affordable(r.rest, limit)
    decreases |tokens|, 1
  {
    hide Affordable, ParseDirectives, ParseSelectionSet, DirectivesNest, SelectionsNest;
    DirectivesAfforded(tokens, limit);
    var r := ParseDirectives(tokens);
    if r.Done? {
      SetAfforded(r.rest, limit);
    }
  }

  lemma {:induction false} FieldAfforded(tokens: seq<Token>, limit: nat)
    requires Affordable(tokens, limit) && StartsName(tokens)
    ensures var r := ParseField(tokens); r.Done? ==> SelectionNest(r.value) <= limit && Affordable(r.rest, limit)
    decreases |tokens|, 0
  {
    hide Affordable, ParseArguments, ParseDirectives, ParseSelectionSet, DirectivesNest, SelectionsNest, ArgumentsNest;
    var aliased := Starts(tokens[1..], ':');
    FreeTail(tokens, limit);
    if aliased && StartsName(tokens[2..]) {
      FreeTail(tokens[1..], limit);
      assert tokens[1..][1..] == tokens[2..];
      FreeTail(tokens[2..], limit);
      assert tokens[2..][1..] == tokens[3..];
    }
    if !aliased || StartsName(tokens[2..]) {
      var body := if aliased then tokens[3..] else tokens[1..];
      ArgumentsAfforded(body, limit);
      var a := ParseArguments(body);
      if a.Done? {
        DirectivesAfforded(a.rest, limit);
        var d := ParseDirectives(a.rest);
        if d.Done? {
          SetAfforded(d.rest, limit);
        }
      }
    }
  }

  lemma {:induction false} VariableAfforded(tokens: seq<Token>, limit: nat)
    requires Affordable(tokens, limit)
    ensures var r := ParseVariable(tokens);
            r.Done? ==>
              && TypeNest(r.value.varType) <= limit && Affordable(r.rest, limit)
              && (r.value.defaultValue.Some? ==> ValueNest(r.value.defaultValue.value) <= limit)
  {
    hide Affordable, ParseType, ParseValue, TypeNest, ValueNest;
    if Starts(tokens, '$') && StartsName(tokens[1..]) && Starts(tokens[2..], ':') {
      FreeTail(tokens, limit);
      FreeTail(tokens[1..], limit);
      assert tokens[1..][1..] == tokens[2..];
      FreeTail(tokens[2..], limit);
      assert tokens[2..][1..] == tokens[3..];
      TypeAfforded(tokens[3..], limit);
      var r := ParseType(tokens[3..]);
      if r.Done? && Starts(r.rest, '=') {
        FreeTail(r.rest, limit);
        ValueAfforded(r.rest[1..], true, limit);
      }
    }
  }

  lemma {:induction false} VariablesAfforded(tokens: seq<Token>, limit: nat)
    requires Affordable(tokens, limit)
    ensures var r := ParseVariables(tokens); r.Done? ==> VariablesNest(r.value) <= limit && Affordable(r.rest, limit)
    decreases |tokens|
  {
    hide Affordable, ParseVariable, TypeNest, ValueNest;
    if Starts(tokens, '$') {
      VariableAfforded(tokens, limit);
      var r := ParseVariable(tokens);
      if r.Done? {
        VariablesAfforded(r.rest, limit);
      }
    }
  }

  lemma {:induction false} VariableBlockAfforded(tokens: seq<Token>, limit: nat)
    requires Affordable(tokens, limit)
    ensures var r := ParseVariableBlock(tokens); r.Done? ==> VariableBlockNest(r.value) <= limit && Affordable(r.rest, limit)
  {
    hide Affordable, ParseVariables, VariablesNest;
    if Starts(tokens, '(') {
      OpenTail(tokens, '(', limit);
      VariablesAfforded(tokens[1..], limit - 1);
      var r := ParseVariables(tokens[1..]);
      if r.Done? && Starts(r.rest, ')') {
        CloseTail(r.rest, ')', limit - 1);
      }
    }
  }

  lemma {:induction false} OperationAfforded(kind: OperationKind, tokens: seq<Token>, limit: nat)
    requires Affordable(tokens, limit)
    ensures var r := ParseOperation(kind, tokens); r.Done? ==> DefinitionNest(r.value) <= limit && Affordable(r.rest, limit)
  {
    hide Affordable, ParseVariableBlock, ParseDirectives, ParseSelectionSet, VariableBlockNest, DirectivesNest, SelectionsNest;
    if StartsName(tokens) {
      FreeTail(tokens, limit);
    }
    var body := if StartsName(tokens) then tokens[1..] else tokens;
    VariableBlockAfforded(body, limit);
    var v := ParseVariableBlock(body);
    if v.Done? {
      DirectivesAfforded(v.rest, limit);
      var d := ParseDirectives(v.rest);
      if d.Done? {
        SetAfforded(d.rest, limit);
      }
    }
  }

  lemma {:induction false} FragmentAfforded(tokens: seq<Token>, limit: nat)
    requires Affordable(tokens, limit)
    ensures var r := ParseFragment(tokens); r.Done? ==> DefinitionNest(r.value) <= limit && Affordable(r.rest, limit)
  {
    hide Affordable, ParseDirectives, ParseSelectionSet, DirectivesNest, SelectionsNest;
    if StartsName(tokens) && StartsWord(tokens[1..], "on") && StartsName(tokens[2..]) {
      FreeTail(tokens, limit);
      FreeTail(tokens[1..], limit);
      assert tokens[1..][1..] == tokens[2..];
      FreeTail(tokens[2..], limit);
      assert tokens[2..][1..] == tokens[3..];
      DirectivesAfforded(tokens[3..], limit);
      var d := ParseDirectives(tokens[3..]);
      if d.Done? {
        SetAfforded(d.rest, limit);
      }
    }
  }

  lemma {:induction false} DefinitionAfforded(tokens: seq<Token>, limit: nat)
    requires Affordable(tokens, limit)
    ensures var r := ParseDefinition(tokens); r.Done? ==> DefinitionNest(r.value) <= limit && Affordable(r.rest, limit)
  {
    hide Affordable, ParseOperation, ParseFragment, ParseSelectionSet, Keyword, SelectionsNest;
    if Starts(tokens, '{') {
      SetAfforded(tokens, limit);
    } else if StartsName(tokens) {
      FreeTail(tokens, limit);
      OperationAfforded(Query, tokens[1..], limit);
      OperationAfforded(Mutation, tokens[1..], limit);
      OperationAfforded(Subscription, tokens[1..], limit);
      FragmentAfforded(tokens[1..], limit);
    }
  }

  /** A parsed document is nested no deeper than its text could afford. */
  lemma {:induction false} DocumentAfforded(tokens: seq<Token>, limit: nat)
    requires Affordable(tokens, limit)
    ensures var r := ParseDefinitions(tokens); r.Some? ==> DocumentNest(r.value) <= limit
    decreases |tokens|
  {
    hide Affordable, ParseDefinition, DefinitionNest;
    if tokens != [] {
      DefinitionAfforded(tokens, limit);
      var r := ParseDefinition(tokens);
      if r.Done? {
        DocumentAfforded(r.rest, limit);
      }
    }
  }
}
