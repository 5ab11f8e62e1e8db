/** The parser accepts nothing but documents: whatever parses is, token for token, a document spelled out, and parses to
    that document with its objects collected. */
module Spelling {
  import opened Common
  import opened Lexer
  import opened Syntax
  import opened Grammar
  import opened Reparse

  // ----- what a spelled document parses to -----

  function CollectedValue(v: Value): Value {
    match v
    case List(items) => List(CollectedValues(items))
    case Object(entries) => Object(Collected(CollectedEntries(entries)))
    case _ => v
  }

  function CollectedValues(items: seq<Value>): seq<Value> {
    if items == [] then [] else [CollectedValue(items[0])] + CollectedValues(items[1..])
  }

  /** Arguments keep their order; only the fields of objects are collected. */
  function CollectedEntries(entries: seq<Entry>): (r: seq<Entry>)
    ensures |r| == |entries|
  {
    if entries == [] then [] else [Entry(entries[0].name, CollectedValue(entries[0].value))] + CollectedEntries(entries[1..])
  }

  function CollectedDirectives(directives: seq<Directive>): seq<Directive> {
    if directives == [] then []
    else [Directive(directives[0].name, CollectedEntries(directives[0].arguments))] + CollectedDirectives(directives[1..])
  }

  function CollectedSelection(s: Selection): Selection
    decreases s
  {
    match s
    case Field(alias, name, arguments, directives, items) =>
      Field(alias, name, CollectedEntries(arguments), CollectedDirectives(directives), CollectedSelections(items))
    case InlineFragment(on, directives, items) => InlineFragment(on, CollectedDirectives(directives), CollectedSelections(items))
    case FragmentSpread(name, directives) => FragmentSpread(name, CollectedDirectives(directives))
  }

  function CollectedSelections(items: seq<Selection>): (r: seq<Selection>)
    ensures |r| == |items|
    decreases items
  {
    if items == [] then [] else [CollectedSelection(items[0])] + CollectedSelections(items[1..])
  }

  function CollectedVariable(v: VariableDefinition): VariableDefinition {
    match v.defaultValue
    case None => v
    case Some(default) => v.(defaultValue := Some(CollectedValue(default)))
  }

  function CollectedVariables(variables: seq<VariableDefinition>): (r: seq<VariableDefinition>)
    ensures |r| == |variables|
  {
    if variables == [] then [] else [CollectedVariable(variables[0])] + CollectedVariables(variables[1..])
  }

  function CollectedDefinition(d: Definition): Definition {
    match d
    case SelectionSet(items) => SelectionSet(CollectedSelections(items))
    case Operation(kind, name, variables, directives, items) =>
      Operation(kind, name, CollectedVariables(variables), CollectedDirectives(directives), CollectedSelections(items))
    case Fragment(name, on, directives, items) => Fragment(name, on, CollectedDirectives(directives), CollectedSelections(items))
  }

  function CollectedDocument(d: Document): Document {
    if d == [] then [] else [CollectedDefinition(d[0])] + CollectedDocument(d[1..])
  }

  /** The tokens of a definition as it may be spelled: a subscription without a name can have variables. */
  function SpelledDefinition(d: Definition): seq<Token> {
    match d
    case SelectionSet(items) => BlockTokens(items)
    case Operation(kind, name, variables, directives, items) =>
      [N(Keyword(kind))] + (NameTokens(name) + (VariableBlockTokens(variables) + (DirectivesTokens(directives) + BlockTokens(items))))
    case Fragment(name, on, directives, items) =>
      [N("fragment")] + ([N(name)] + ([N("on")] + ([N(on)] + (DirectivesTokens(directives) + BlockTokens(items)))))
  }

  function SpelledDocument(d: Document): seq<Token> {
    if d == [] then [] else SpelledDefinition(d[0]) + SpelledDocument(d[1..])
  }

  // ----- what was read -----

  /** A token stands for another one that means the same value: a string or a number may be written differently. */
  ghost predicate Stands(a: Token, b: Token) {
    a == b || exists v :: ParsePlain(a) == Some(v) && ValueTokens(v) == [b]
  }

  /** The tokens begin with these, and go on with the rest. */
  ghost predicate Reads(tokens: seq<Token>, spelled: seq<Token>, rest: seq<Token>) {
    && |tokens| == |spelled| + |rest| && rest == tokens[|spelled|..]
    && forall i :: 0 <= i < |spelled| ==> Stands(tokens[i], spelled[i])
  }

  lemma ReadsNothing(tokens: seq<Token>)
    ensures Reads(tokens, [], tokens)
  {
  }

  lemma ReadsToken(tokens: seq<Token>, t: Token)
    requires tokens != [] && tokens[0] == t
    ensures Reads(tokens, [t], tokens[1..])
  {
  }

  lemma ReadsBoth(tokens: seq<Token>, a: seq<Token>, middle: seq<Token>, b: seq<Token>, rest: seq<Token>)
    requires Reads(tokens, a, middle) && Reads(middle, b, rest)
    ensures Reads(tokens, a + b, rest)
  {
    forall i | 0 <= i < |a + b| ensures Stands(tokens[i], (a + b)[i]) {
      if i >= |a| {
        assert tokens[i] == middle[i - |a|];
      }
    }
    assert tokens[|a| + |b|..] == middle[|b|..];
  }

  /** A token and what follows it. */
  lemma ReadsFirst(tokens: seq<Token>, t: Token, b: seq<Token>, rest: seq<Token>)
    requires tokens != [] && tokens[0] == t && Reads(tokens[1..], b, rest)
    ensures Reads(tokens, [t] + b, rest)
  {
    ReadsToken(tokens, t);
    ReadsBoth(tokens, [t], tokens[1..], b, rest);
  }

  lemma ReadsLast(tokens: seq<Token>, a: seq<Token>, rest: seq<Token>, t: Token)
    requires Reads(tokens, a, rest) && rest != [] && rest[0] == t
    ensures Reads(tokens, a + [t], rest[1..])
  {
    ReadsToken(rest, t);
    ReadsBoth(tokens, a, rest, [t], rest[1..]);
  }

  // ----- values -----

  lemma {:induction false} PlainSpells(tokens: seq<Token>)
    requires tokens != [] && ParsePlain(tokens[0]).Some?
    ensures var v := ParsePlain(tokens[0]).value; Reads(tokens, ValueTokens(v), tokens[1..]) && CollectedValue(v) == v
  {
    var v := ParsePlain(tokens[0]).value;
    assert ValueTokens(v) == [ValueTokens(v)[0]];
  }

  lemma {:induction false} ValueSpells(tokens: seq<Token>, constant: bool) returns (raw: Value)
    requires ParseValue(tokens, constant).Done?
    ensures var r := ParseValue(tokens, constant); CollectedValue(raw) == r.value && Reads(tokens, ValueTokens(raw), r.rest)
    decreases |tokens|, 0
  {
    var r := ParseValue(tokens, constant);
    if tokens[0].kind != Punctuator {
      PlainSpells(tokens);
      raw := r.value;
    } else if !constant && Starts(tokens, '$') {
      raw := r.value;
      assert tokens[1..][0] == N(tokens[1].value);
      ReadsToken(tokens[1..], N(raw.name));
      ReadsFirst(tokens, P('$'), [N(raw.name)], tokens[1..][1..]);
      assert [P('$')] + [N(raw.name)] == ValueTokens(raw);
    } else if Starts(tokens, '[') {
      var items := ValuesSpell(tokens[1..], constant);
      raw := List(items);
      var inner := ParseValues(tokens[1..], constant);
      hide Reads;
      ReadsFirst(tokens, P('['), ValuesTokens(items), inner.rest);
      ReadsLast(tokens, [P('[')] + ValuesTokens(items), inner.rest, P(']'));
    } else {
      var entries := EntriesSpell(tokens[1..], constant);
      raw := Object(entries);
      var inner := ParseEntries(tokens[1..], constant);
      hide Reads;
      ReadsFirst(tokens, P('{'), EntriesTokens(entries), inner.rest);
      ReadsLast(tokens, [P('{')] + EntriesTokens(entries), inner.rest, P('}'));
    }
  }

  lemma {:induction false} ValuesSpell(tokens: seq<Token>, constant: bool) returns (raw: seq<Value>)
    requires ParseValues(tokens, constant).Done?
    ensures var r := ParseValues(tokens, constant); CollectedValues(raw) == r.value && Reads(tokens, ValuesTokens(raw), r.rest)
    decreases |tokens|, 1
  {
    ReadsNothing(tokens);
    hide Reads, ParseValue, ValueTokens;
    if !StartsValue(tokens, constant) {
      raw := [];
    } else {
      var head := ValueSpells(tokens, constant);
      var middle := ParseValue(tokens, constant).rest;
      var tail := ValuesSpell(middle, constant);
      raw := [head] + tail;
      assert raw[1..] == tail;
      ReadsBoth(tokens, ValueTokens(head), middle, ValuesTokens(tail), ParseValues(middle, constant).rest);
    }
  }

  lemma {:induction false} EntriesSpell(tokens: seq<Token>, constant: bool) returns (raw: seq<Entry>)
    requires ParseEntries(tokens, constant).Done?
    ensures var r := ParseEntries(tokens, constant); CollectedEntries(raw) == r.value && Reads(tokens, EntriesTokens(raw), r.rest)
    decreases |tokens|, 1
  {
    ReadsNothing(tokens);
    hide Reads, ParseValue, ValueTokens;
    if !StartsName(tokens) {
      raw := [];
    } else {
      var name := tokens[0].value;
      assert tokens[1..][1..] == tokens[2..];
      var head := ValueSpells(tokens[2..], constant);
      var middle := ParseValue(tokens[2..], constant).rest;
      var tail := EntriesSpell(middle, constant);
      raw := [Entry(name, head)] + tail;
      assert raw[1..] == tail;
      var rest := ParseEntries(middle, constant).rest;
      ReadsBoth(tokens[2..], ValueTokens(head), middle, EntriesTokens(tail), rest);
      ReadsFirst(tokens[1..], P(':'), ValueTokens(head) + EntriesTokens(tail), rest);
      ReadsFirst(tokens, N(name), [P(':')] + (ValueTokens(head) + EntriesTokens(tail)), rest);
      EntriesAre(name, head, tail);
    }
  }

  lemma {:induction false} EntriesAre(name: string, head: Value, tail: seq<Entry>)
    ensures EntriesTokens([Entry(name, head)] + tail) == [N(name)] + ([P(':')] + (ValueTokens(head) + EntriesTokens(tail)))
  {
    hide ValueTokens;
    assert ([Entry(name, head)] + tail)[1..] == tail;
    assert [N(name), P(':')] + ValueTokens(head) + EntriesTokens(tail)
        == [N(name)] + ([P(':')] + (ValueTokens(head) + EntriesTokens(tail)));
  }

  // ----- arguments, directives, types -----

  lemma {:induction false} ArgumentsSpell(tokens: seq<Token>) returns (raw: seq<Entry>)
    requires ParseArguments(tokens).Done?
    ensures var r := ParseArguments(tokens); CollectedEntries(raw) == r.value && Reads(tokens, ArgumentsTokens(raw), r.rest)
  {
    ReadsNothing(tokens);
    hide Reads, ParseEntries, EntriesTokens, CollectedValue;
    if !Starts(tokens, '(') {
      raw := [];
    } else {
      raw := EntriesSpell(tokens[1..], false);
      var inner := ParseEntries(tokens[1..], false);
      ReadsFirst(tokens, P('('), EntriesTokens(raw), inner.rest);
      ReadsLast(tokens, [P('(')] + EntriesTokens(raw), inner.rest, P(')'));
    }
  }

  lemma {:induction false} DirectivesSpell(tokens: seq<Token>) returns (raw: seq<Directive>)
    requires ParseDirectives(tokens).Done?
    ensures var r := ParseDirectives(tokens); CollectedDirectives(raw) == r.value && Reads(tokens, DirectivesTokens(raw), r.rest)
    decreases |tokens|
  {
    ReadsNothing(tokens);
    hide Reads, ParseArguments, ArgumentsTokens, CollectedEntries;
    if !Starts(tokens, '@') {
      raw := [];
    } else {
      var name := tokens[1].value;
      assert tokens[1..][0] == N(name) && tokens[1..][1..] == tokens[2..];
      var arguments := ArgumentsSpell(tokens[2..]);
      var middle := ParseArguments(tokens[2..]).rest;
      var tail := DirectivesSpell(middle);
      raw := [Directive(name, arguments)] + tail;
      assert raw[1..] == tail;
      var rest := ParseDirectives(middle).rest;
      ReadsBoth(tokens[2..], ArgumentsTokens(arguments), middle, DirectivesTokens(tail), rest);
      ReadsFirst(tokens[1..], N(name), ArgumentsTokens(arguments) + DirectivesTokens(tail), rest);
      ReadsFirst(tokens, P('@'), [N(name)] + (ArgumentsTokens(arguments) + DirectivesTokens(tail)), rest);
      assert DirectivesTokens(raw) == [P('@')] + ([N(name)] + (ArgumentsTokens(arguments) + DirectivesTokens(tail)));
    }
  }

  lemma {:induction false} TypeSpells(tokens: seq<Token>)
    requires ParseType(tokens).Done?
    ensures Reads(tokens, TypeTokens(ParseType(tokens).value), ParseType(tokens).rest)
    decreases |tokens|, 1
  {
    hide Reads, ParseBareType;
    BareTypeSpells(tokens);
    var r := ParseBareType(tokens);
    if Starts(r.rest, '!') {
      ReadsLast(tokens, TypeTokens(r.value), r.rest, P('!'));
    }
  }

  lemma {:induction false} BareTypeSpells(tokens: seq<Token>)
    requires ParseBareType(tokens).Done?
    ensures Reads(tokens, TypeTokens(ParseBareType(tokens).value), ParseBareType(tokens).rest)
    decreases |tokens|, 0
  {
    hide Reads, ParseType;
    if StartsName(tokens) {
      ReadsToken(tokens, N(tokens[0].value));
    } else {
      TypeSpells(tokens[1..]);
      var inner := ParseType(tokens[1..]);
      ReadsFirst(tokens, P('['), TypeTokens(inner.value), inner.rest);
      ReadsLast(tokens, [P('[')] + TypeTokens(inner.value), inner.rest, P(']'));
    }
  }

  // ----- selections -----

  lemma {:induction false} SetSpells(tokens: seq<Token>) returns (raw: seq<Selection>)
    requires ParseSelectionSet(tokens).Done?
    ensures raw != []
    ensures var r := ParseSelectionSet(tokens); CollectedSelections(raw) == r.value && Reads(tokens, BlockTokens(raw), r.rest)
    decreases |tokens|, 0
  {
    hide Reads, ParseSelections, SelectionsTokens, CollectedSelection;
    raw := SelectionsSpell(tokens[1..]);
    var inner := ParseSelections(tokens[1..]);
    ReadsFirst(tokens, P('{'), SelectionsTokens(raw), inner.rest);
    ReadsLast(tokens, [P('{')] + SelectionsTokens(raw), inner.rest, P('}'));
  }

  lemma {:induction false} SelectionsSpell(tokens: seq<Token>) returns (raw: seq<Selection>)
    requires ParseSelections(tokens).Done?
    ensures var r := ParseSelections(tokens); CollectedSelections(raw) == r.value && Reads(tokens, SelectionsTokens(raw), r.rest)
    decreases |tokens|, 4
  {
    ReadsNothing(tokens);
    hide Reads, ParseSelection, SelectionTokens, CollectedSelection;
    if !StartsSelection(tokens) {
      raw := [];
    } else {
      var head := SelectionSpells(tokens);
      var middle := ParseSelection(tokens).rest;
      var tail := SelectionsSpell(middle);
      raw := [head] + tail;
      assert raw[1..] == tail;
      ReadsBoth(tokens, SelectionTokens(head), middle, SelectionsTokens(tail), ParseSelections(middle).rest);
    }
  }

  lemma {:induction false} SelectionSpells(tokens: seq<Token>) returns (raw: Selection)
    requires StartsSelection(tokens) && ParseSelection(tokens).Done?
    ensures var r := ParseSelection(tokens); CollectedSelection(raw) == r.value && Reads(tokens, SelectionTokens(raw), r.rest)
    decreases |tokens|, 3
  {
    hide Reads, ParseField, ParseInline, ParseDirectives, DirectivesTokens, SelectionsTokens, ArgumentsTokens;
    var after := tokens[1..];
    if tokens[0].kind == Name {
      raw := FieldSpells(tokens);
    } else if StartsWord(after, "on") {
      assert after[1..][0] == N(after[1].value) && after[1..][1..] == after[2..];
      raw := InlineSpells(Some(after[1].value), after[2..]);
      var parts := DirectivesTokens(raw.directives) + BlockTokens(raw.items);
      var rest := ParseInline(Some(after[1].value), after[2..]).rest;
      ReadsFirst(after[1..], N(after[1].value), parts, rest);
      ReadsFirst(after, N("on"), [N(after[1].value)] + parts, rest);
      ReadsFirst(tokens, SPREAD, [N("on")] + ([N(after[1].value)] + parts), rest);
      InlineIs(raw.on, raw.directives, raw.items);
      assert OnTokens(raw.on) + parts == [N("on")] + ([N(after[1].value)] + parts);
    } else if Starts(after, '@') || Starts(after, '{') {
      raw := InlineSpells(None, after);
      var parts := DirectivesTokens(raw.directives) + BlockTokens(raw.items);
      ReadsFirst(tokens, SPREAD, parts, ParseInline(None, after).rest);
      InlineIs(raw.on, raw.directives, raw.items);
      assert OnTokens(raw.on) + parts == parts;
    } else {
      var directives := DirectivesSpell(after[1..]);
      var name := after[0].value;
      raw := FragmentSpread(name, directives);
      var rest := ParseDirectives(after[1..]).rest;
      ReadsFirst(after, N(name), DirectivesTokens(directives), rest);
      ReadsFirst(tokens, SPREAD, [N(name)] + DirectivesTokens(directives), rest);
      assert SelectionTokens(raw) == [SPREAD] + ([N(name)] + DirectivesTokens(directives));
    }
  }

  lemma InlineIs(on: Option<string>, directives: seq<Directive>, items: seq<Selection>)
    ensures SelectionTokens(InlineFragment(on, directives, items))
         == [SPREAD] + (OnTokens(on) + (DirectivesTokens(directives) + BlockTokens(items)))
  {
    hide DirectivesTokens, SelectionsTokens;
    InlineTokens(on, directives, items, []);
  }

  lemma {:induction false} InlineSpells(on: Option<string>, tokens: seq<Token>) returns (raw: Selection)
    requires ParseInline(on, tokens).Done?
    ensures raw.InlineFragment? && raw.on == on
    ensures var r := ParseInline(on, tokens);
      CollectedSelection(raw) == r.value && Reads(tokens, DirectivesTokens(raw.directives) + BlockTokens(raw.items), r.rest)
    decreases |tokens|, 1
  {
    hide Reads, ParseDirectives, ParseSelectionSet, DirectivesTokens, BlockTokens, CollectedSelections, CollectedDirectives;
    var directives := DirectivesSpell(tokens);
    var middle := ParseDirectives(tokens).rest;
    var items := SetSpells(middle);
    raw := InlineFragment(on, directives, items);
    ReadsBoth(tokens, DirectivesTokens(directives), middle, BlockTokens(items), ParseSelectionSet(middle).rest);
  }

  lemma {:induction false} FieldSpells(tokens: seq<Token>) returns (raw: Selection)
    requires StartsName(tokens) && ParseField(tokens).Done?
    ensures var r := ParseField(tokens); CollectedSelection(raw) == r.value && Reads(tokens, SelectionTokens(raw), r.rest)
    decreases |tokens|, 2
  {
    hide Reads, ParseArguments, ParseDirectives, ParseSelectionSet, DirectivesTokens, BlockTokens, ArgumentsTokens, SelectionTokens;
    hide CollectedDirectives, CollectedEntries;
    var aliased := Starts(tokens[1..], ':');
    var alias := if aliased then Some(tokens[0].value) else None;
    var name := if aliased then tokens[2].value else tokens[0].value;
    var body := if aliased then tokens[3..] else tokens[1..];
    var arguments := ArgumentsSpell(body);
    var a := ParseArguments(body);
    var directives := DirectivesSpell(a.rest);
    var d := ParseDirectives(a.rest);
    var items: seq<Selection> := [];
    ReadsNothing(d.rest);
    if Starts(d.rest, '{') {
      items := SetSpells(d.rest);
    }
    raw := Field(alias, name, arguments, directives, items);
    var rest := ParseField(tokens).rest;
    ReadsBoth(a.rest, DirectivesTokens(directives), d.rest, OptionalBlock(items), rest);
    var tail := DirectivesTokens(directives) + OptionalBlock(items);
    ReadsBoth(body, ArgumentsTokens(arguments), a.rest, tail, rest);
    NameSpells(tokens, ArgumentsTokens(arguments) + tail, rest);
    FieldIs(alias, name, arguments, directives, items);
    NoSelections();
  }

  lemma NoSelections()
    ensures CollectedSelections([]) == []
  {
  }

  /** The alias and the name of a field in front of what follows them. */
  lemma {:induction false} NameSpells(tokens: seq<Token>, body: seq<Token>, rest: seq<Token>)
    requires StartsName(tokens)
    requires if Starts(tokens[1..], ':') then StartsName(tokens[2..]) && Reads(tokens[3..], body, rest) else Reads(tokens[1..], body, rest)
    ensures if Starts(tokens[1..], ':')
            then Reads(tokens, AliasTokens(Some(tokens[0].value)) + ([N(tokens[2].value)] + body), rest)
            else Reads(tokens, AliasTokens(None) + ([N(tokens[0].value)] + body), rest)
  {
    hide Reads;
    if Starts(tokens[1..], ':') {
      assert tokens[1..][1..] == tokens[2..] && tokens[2..][0] == N(tokens[2].value) && tokens[2..][1..] == tokens[3..];
      ReadsFirst(tokens[2..], N(tokens[2].value), body, rest);
      ReadsFirst(tokens[1..], P(':'), [N(tokens[2].value)] + body, rest);
      ReadsFirst(tokens, N(tokens[0].value), [P(':')] + ([N(tokens[2].value)] + body), rest);
      assert AliasTokens(Some(tokens[0].value)) + ([N(tokens[2].value)] + body)
          == [N(tokens[0].value)] + ([P(':')] + ([N(tokens[2].value)] + body));
    } else {
      ReadsFirst(tokens, N(tokens[0].value), body, rest);
      assert AliasTokens(None) + ([N(tokens[0].value)] + body) == [N(tokens[0].value)] + body;
    }
  }

  lemma {:induction false} FieldIs(alias: Option<string>, name: string, arguments: seq<Entry>, directives: seq<Directive>, items: seq<Selection>)
    ensures SelectionTokens(Field(alias, name, arguments, directives, items))
         == AliasTokens(alias) + ([N(name)] + (ArgumentsTokens(arguments) + (DirectivesTokens(directives) + OptionalBlock(items))))
  {
    FieldTokens(alias, name, arguments, directives, items, []);
    hide *;
    var all := SelectionTokens(Field(alias, name, arguments, directives, items));
    assert all + [] == all && OptionalBlock(items) + [] == OptionalBlock(items);
    assert AliasTokens(alias) + [N(name)] + (ArgumentsTokens(arguments) + (DirectivesTokens(directives) + OptionalBlock(items)))
        == AliasTokens(alias) + ([N(name)] + (ArgumentsTokens(arguments) + (DirectivesTokens(directives) + OptionalBlock(items))));
  }

  // ----- definitions -----

  lemma {:induction false} VariableSpells(tokens: seq<Token>) returns (raw: VariableDefinition)
    requires ParseVariable(tokens).Done?
    ensures var r := ParseVariable(tokens); CollectedVariable(raw) == r.value && Reads(tokens, VariableTokens(raw), r.rest)
  {
    hide Reads, ParseType, ParseValue, TypeTokens, ValueTokens, CollectedValue;
    var name, body := tokens[1].value, tokens[3..];
    TypeSpells(body);
    var t := ParseType(body);
    var default: Option<Value> := None;
    ReadsNothing(t.rest);
    if Starts(t.rest, '=') {
      var v := ValueSpells(t.rest[1..], true);
      default := Some(v);
      ReadsFirst(t.rest, P('='), ValueTokens(v), ParseVariable(tokens).rest);
    }
    raw := VariableDefinition(name, t.value, default);
    VariableIs(tokens, raw, t.rest, ParseVariable(tokens).rest);
  }

  function DefaultTokens(v: Option<Value>): seq<Token> {
    if v.Some? then [P('=')] + ValueTokens(v.value) else []
  }

  lemma {:induction false} VariableIs(tokens: seq<Token>, v: VariableDefinition, middle: seq<Token>, rest: seq<Token>)
    requires Starts(tokens, '$') && StartsName(tokens[1..]) && Starts(tokens[2..], ':') && tokens[1].value == v.name
    requires Reads(tokens[3..], TypeTokens(v.varType), middle) && Reads(middle, DefaultTokens(v.defaultValue), rest)
    ensures Reads(tokens, VariableTokens(v), rest)
  {
    hide Reads, TypeTokens, ValueTokens, DefaultTokens;
    var tail := TypeTokens(v.varType) + DefaultTokens(v.defaultValue);
    assert tokens[1..][0] == N(v.name) && tokens[1..][1..] == tokens[2..] && tokens[2..][1..] == tokens[3..];
    ReadsBoth(tokens[3..], TypeTokens(v.varType), middle, DefaultTokens(v.defaultValue), rest);
    ReadsFirst(tokens[2..], P(':'), tail, rest);
    ReadsFirst(tokens[1..], N(v.name), [P(':')] + tail, rest);
    ReadsFirst(tokens, P('$'), [N(v.name)] + ([P(':')] + tail), rest);
    VariableTokensAre(v);
  }

  lemma VariableTokensAre(v: VariableDefinition)
    ensures VariableTokens(v) == [P('$')] + ([N(v.name)] + ([P(':')] + (TypeTokens(v.varType) + DefaultTokens(v.defaultValue))))
  {
    hide TypeTokens, ValueTokens;
  }

  lemma {:induction false} VariablesSpell(tokens: seq<Token>) returns (raw: seq<VariableDefinition>)
    requires ParseVariables(tokens).Done?
    ensures var r := ParseVariables(tokens); CollectedVariables(raw) == r.value && Reads(tokens, VariablesTokens(raw), r.rest)
    decreases |tokens|
  {
    ReadsNothing(tokens);
    hide Reads, ParseVariable, VariableTokens, CollectedVariable;
    if !Starts(tokens, '$') {
      raw := [];
    } else {
      var head := VariableSpells(tokens);
      var middle := ParseVariable(tokens).rest;
      var tail := VariablesSpell(middle);
      raw := [head] + tail;
      assert raw[1..] == tail;
      ReadsBoth(tokens, VariableTokens(head), middle, VariablesTokens(tail), ParseVariables(middle).rest);
    }
  }

  lemma {:induction false} VariableBlockSpells(tokens: seq<Token>) returns (raw: seq<VariableDefinition>)
    requires ParseVariableBlock(tokens).Done?
    ensures var r := ParseVariableBlock(tokens); CollectedVariables(raw) == r.value && Reads(tokens, VariableBlockTokens(raw), r.rest)
  {
    ReadsNothing(tokens);
    hide Reads, ParseVariables, VariablesTokens, CollectedVariable;
    if !Starts(tokens, '(') {
      raw := [];
    } else {
      raw := VariablesSpell(tokens[1..]);
      var inner := ParseVariables(tokens[1..]);
      ReadsFirst(tokens, P('('), VariablesTokens(raw), inner.rest);
      ReadsLast(tokens, [P('(')] + VariablesTokens(raw), inner.rest, P(')'));
    }
  }

  lemma {:induction false} OperationSpells(kind: OperationKind, tokens: seq<Token>) returns (raw: Definition)
    requires StartsWord(tokens, Keyword(kind)) && ParseOperation(kind, tokens[1..]).Done?
    ensures var r := ParseOperation(kind, tokens[1..]); CollectedDefinition(raw) == r.value && Reads(tokens, SpelledDefinition(raw), r.rest)
  {
    hide Reads, ParseVariableBlock, ParseDirectives, ParseSelectionSet, Keyword;
    hide VariableBlockTokens, DirectivesTokens, BlockTokens, CollectedVariables, CollectedDirectives, CollectedSelections;
    var after := tokens[1..];
    var named := StartsName(after);
    var name := if named then Some(after[0].value) else None;
    var body := if named then after[1..] else after;
    var variables := VariableBlockSpells(body);
    var v := ParseVariableBlock(body);
    var directives := DirectivesSpell(v.rest);
    var d := ParseDirectives(v.rest);
    var items := SetSpells(d.rest);
    var rest := ParseSelectionSet(d.rest).rest;
    raw := Operation(kind, name, variables, directives, items);
    var tail := DirectivesTokens(directives) + BlockTokens(items);
    ReadsBoth(v.rest, DirectivesTokens(directives), d.rest, BlockTokens(items), rest);
    ReadsBoth(body, VariableBlockTokens(variables), v.rest, tail, rest);
    var inner := VariableBlockTokens(variables) + tail;
    if named {
      ReadsFirst(after, N(after[0].value), inner, rest);
    } else {
      assert NameTokens(name) + inner == inner;
    }
    ReadsFirst(tokens, N(Keyword(kind)), NameTokens(name) + inner, rest);
  }

  lemma {:induction false} FragmentSpells(tokens: seq<Token>) returns (raw: Definition)
    requires StartsWord(tokens, "fragment") && ParseFragment(tokens[1..]).Done?
    ensures var r := ParseFragment(tokens[1..]); CollectedDefinition(raw) == r.value && Reads(tokens, SpelledDefinition(raw), r.rest)
  {
    hide Reads, ParseDirectives, ParseSelectionSet, DirectivesTokens, BlockTokens, CollectedDirectives, CollectedSelections;
    var after := tokens[1..];
    var name, on, body := after[0].value, after[2].value, after[3..];
    assert after[1..][0] == N("on") && after[1..][1..] == after[2..] && after[2..][0] == N(on) && after[2..][1..] == body;
    var directives := DirectivesSpell(body);
    var d := ParseDirectives(body);
    var items := SetSpells(d.rest);
    var rest := ParseSelectionSet(d.rest).rest;
    raw := Fragment(name, on, directives, items);
    var tail := DirectivesTokens(directives) + BlockTokens(items);
    ReadsBoth(body, DirectivesTokens(directives), d.rest, BlockTokens(items), rest);
    ReadsFirst(after[2..], N(on), tail, rest);
    ReadsFirst(after[1..], N("on"), [N(on)] + tail, rest);
    ReadsFirst(after, N(name), [N("on")] + ([N(on)] + tail), rest);
    ReadsFirst(tokens, N("fragment"), [N(name)] + ([N("on")] + ([N(on)] + tail)), rest);
  }

  lemma {:induction false} DefinitionSpells(tokens: seq<Token>) returns (raw: Definition)
    requires ParseDefinition(tokens).Done?
    ensures var r := ParseDefinition(tokens); CollectedDefinition(raw) == r.value && Reads(tokens, SpelledDefinition(raw), r.rest)
  {
    hide Reads, ParseOperation, ParseFragment, ParseSelectionSet, Keyword;
    if Starts(tokens, '{') {
      var items := SetSpells(tokens);
      raw := SelectionSet(items);
    } else if StartsWord(tokens, Keyword(Query)) {
      raw := OperationSpells(Query, tokens);
    } else if StartsWord(tokens, Keyword(Mutation)) {
      raw := OperationSpells(Mutation, tokens);
    } else if StartsWord(tokens, Keyword(Subscription)) {
      raw := OperationSpells(Subscription, tokens);
    } else {
      raw := FragmentSpells(tokens);
    }
  }

  /** Whatever parses stands, token for token, for a document spelled out, its objects in any order, and parses to that
      document with its objects collected. */
  lemma {:induction false} DocumentSpells(tokens: seq<Token>) returns (raw: Document)
    requires ParseDefinitions(tokens).Some?
    ensures CollectedDocument(raw) == ParseDefinitions(tokens).value && Reads(tokens, SpelledDocument(raw), [])
    decreases |tokens|
  {
    ReadsNothing(tokens);
    hide Reads, ParseDefinition, SpelledDefinition, CollectedDefinition;
    if tokens == [] {
      raw := [];
    } else {
      var head := DefinitionSpells(tokens);
      var middle := ParseDefinition(tokens).rest;
      var tail := DocumentSpells(middle);
      raw := [head] + tail;
      assert raw[1..] == tail;
      ReadsBoth(tokens, SpelledDefinition(head), middle, SpelledDocument(tail), []);
    }
  }
}
