/** The parser returns only the trees the round trip is about. */
module ParsedTrees {
  import opened Common
  import opened Lexer
  import opened Scanning
  import opened Layouts
  import opened Syntax
  import opened Grammar
  import opened Printing
  import opened Reparse
  import opened Fidelity
  import opened WrittenTrees
  import opened PrintedDocuments
  import opened Nesting

  predicate AllTokens(tokens: seq<Token>) {
    forall i :: 0 <= i < |tokens| ==> IsToken(tokens[i])
  }

  lemma AllTokensTail(tokens: seq<Token>, n: nat)
    requires AllTokens(tokens) && n <= |tokens|
    ensures AllTokens(tokens[n..])
  {
  }

  // ----- the order of names -----

  lemma {:induction false} LessTotal(a: string, b: string)
    ensures Less(a, b) || a == b || Less(b, a)
  {
    if a != "" && b != "" && a[0] == b[0] {
      LessTotal(a[1..], b[1..]);
      if a[1..] == b[1..] {
        assert a == [a[0]] + a[1..] && b == [b[0]] + b[1..];
      }
    }
  }

  lemma {:induction false} LessTransitive(a: string, b: string, c: string)
    requires Less(a, b) && Less(b, c)
    ensures Less(a, c)
  {
    if a != "" && a[0] == b[0] && b[0] == c[0] {
      LessTransitive(a[1..], b[1..], c[1..]);
    }
  }

  predicate Above(name: string, entries: seq<Entry>) {
    forall i :: 0 <= i < |entries| ==> Less(name, entries[i].name)
  }

  lemma SortedCons(e: Entry, rest: seq<Entry>)
    requires Above(e.name, rest) && SortedByName(rest)
    ensures SortedByName([e] + rest)
  {
  }

  lemma SortedTail(entries: seq<Entry>)
    requires entries != [] && SortedByName(entries)
    ensures SortedByName(entries[1..]) && Above(entries[0].name, entries[1..])
  {
  }

  /** Insertion keeps the order, and nothing smaller than a bound comes in. */
  lemma {:induction false} InsertSorted(entries: seq<Entry>, e: Entry)
    requires SortedByName(entries)
    ensures SortedByName(Insert(entries, e))
    ensures forall name :: Above(name, entries) && Less(name, e.name) ==> Above(name, Insert(entries, e))
  {
    if entries == [] {
    } else {
      var head, rest := entries[0], entries[1..];
      SortedTail(entries);
      LessTotal(e.name, head.name);
      if Less(e.name, head.name) {
        forall i | 0 <= i < |entries|
          ensures Less(e.name, entries[i].name)
        {
          if i > 0 {
            LessTransitive(e.name, head.name, entries[i].name);
          }
        }
        SortedCons(e, entries);
      } else if head.name == e.name {
        SortedCons(e, rest);
      } else {
        InsertSorted(rest, e);
        SortedCons(head, Insert(rest, e));
        forall name | Above(name, entries) && Less(name, e.name)
          ensures Above(name, Insert(entries, e))
        {
          assert Less(name, entries[0].name);
          assert forall i :: 0 <= i < |rest| ==> rest[i] == entries[i + 1];
          assert Above(name, rest);
        }
      }
    }
  }

  lemma {:induction false} InsertOk(entries: seq<Entry>, e: Entry, constant: bool)
    requires EntriesOk(entries, constant) && IsName(e.name) && ValueOk(e.value, constant)
    ensures EntriesOk(Insert(entries, e), constant)
  {
    if entries != [] && !Less(e.name, entries[0].name) && entries[0].name != e.name {
      InsertOk(entries[1..], e, constant);
    } else if entries != [] {
      assert ([e] + entries)[1..] == entries && ([e] + entries[1..])[1..] == entries[1..];
    }
  }

  lemma {:induction false} EntriesOkPrefix(entries: seq<Entry>, constant: bool)
    requires EntriesOk(entries, constant) && entries != []
    ensures var n := |entries| - 1;
            EntriesOk(entries[..n], constant) && IsName(entries[n].name) && ValueOk(entries[n].value, constant)
  {
    if |entries| > 1 {
      var rest := entries[1..];
      EntriesOkPrefix(rest, constant);
      assert entries[..|entries| - 1][1..] == rest[..|rest| - 1];
    }
  }

  /** The fields of a parsed object are sorted by name, each name once. */
  lemma {:induction false} CollectedOk(entries: seq<Entry>, constant: bool)
    requires EntriesOk(entries, constant)
    ensures SortedByName(Collected(entries)) && EntriesOk(Collected(entries), constant)
    decreases |entries|
  {
    if entries != [] {
      var n := |entries| - 1;
      EntriesOkPrefix(entries, constant);
      CollectedOk(entries[..n], constant);
      hide Insert, EntriesOk, SortedByName;
      InsertSorted(Collected(entries[..n]), entries[n]);
      InsertOk(Collected(entries[..n]), entries[n], constant);
    }
  }

  /** The value of the last entry with the name. */
  function LastNamed(entries: seq<Entry>, name: string): Option<Value> {
    if entries == [] then None
    else if entries[|entries| - 1].name == name then Some(entries[|entries| - 1].value)
    else LastNamed(entries[..|entries| - 1], name)
  }

  lemma {:induction false} LastNamedCons(e: Entry, rest: seq<Entry>, name: string)
    ensures LastNamed([e] + rest, name) ==
            if LastNamed(rest, name).Some? then LastNamed(rest, name) else if e.name == name then Some(e.value) else None
  {
    var all := [e] + rest;
    if rest == [] {
      assert all[..0] == [];
    } else {
      assert all[..|all| - 1] == [e] + rest[..|rest| - 1];
      LastNamedCons(e, rest[..|rest| - 1], name);
    }
  }

  lemma {:induction false} NotBelow(entries: seq<Entry>, name: string)
    requires Above(name, entries)
    ensures LastNamed(entries, name) == None
  {
    if entries != [] {
      LessIsStrict(name, entries[|entries| - 1].name);
      NotBelow(entries[..|entries| - 1], name);
    }
  }

  lemma {:induction false} InsertNames(entries: seq<Entry>, e: Entry, name: string)
    requires SortedByName(entries)
    ensures LastNamed(Insert(entries, e), name) == if name == e.name then Some(e.value) else LastNamed(entries, name)
  {
    if entries == [] {
      LastNamedCons(e, [], name);
      assert [e] + [] == [e] + entries;
    } else {
      var head, rest := entries[0], entries[1..];
      SortedTail(entries);
      assert entries == [head] + rest;
      LastNamedCons(head, rest, name);
      NotBelow(rest, head.name);
      if Less(e.name, head.name) {
        InsertSorted(entries, e);
        SortedTail([e] + entries);
        assert ([e] + entries)[1..] == entries;
        NotBelow(entries, e.name);
        LastNamedCons(e, entries, name);
      } else if head.name == e.name {
        LastNamedCons(e, rest, name);
      } else {
        InsertNames(rest, e, name);
        LastNamedCons(head, Insert(rest, e), name);
      }
    }
  }

  /** Collecting keeps every name that was written and no other, with the value written last under it. */
  lemma {:induction false} CollectedKeeps(entries: seq<Entry>, name: string)
    ensures SortedByName(Collected(entries))
    ensures LastNamed(Collected(entries), name) == LastNamed(entries, name)
  {
    if entries != [] {
      var n := |entries| - 1;
      CollectedKeeps(entries[..n], name);
      hide Insert, SortedByName;
      InsertSorted(Collected(entries[..n]), entries[n]);
      InsertNames(Collected(entries[..n]), entries[n], name);
    }
  }

  /** The tokens of an object spelled in any order parse to an object sorted by name that has, at every name, what was
      spelled last there. */
  lemma {:induction false} ObjectAnyOrder(entries: seq<Entry>, constant: bool, rest: seq<Token>, name: string)
    requires EntriesSpelled(entries, constant)
    ensures var r := ParseValue(ValueTokens(Object(entries)) + rest, constant);
      && r.Done? && r.rest == rest && r.value.Object? && SortedByName(r.value.entries)
      && LastNamed(r.value.entries, name) ==
           match LastNamed(entries, name) case None => None case Some(v) => Some(ValueRead(v))
  {
    ValueReads(Object(entries), constant, rest);
    CollectedKeeps(EntriesRead(entries), name);
    LastRead(entries, name);
  }

  lemma {:induction false} LastRead(entries: seq<Entry>, name: string)
    ensures LastNamed(EntriesRead(entries), name) ==
            match LastNamed(entries, name) case None => None case Some(v) => Some(ValueRead(v))
  {
    if entries != [] {
      var n := |entries| - 1;
      LastRead(entries[..n], name);
      assert EntriesRead(entries)[..n] == EntriesRead(entries[..n]);
    }
  }

  // ----- values -----

  lemma {:induction false} PlainOk(token: Token, constant: bool)
    requires IsToken(token) && ParsePlain(token).Some?
    ensures ValueOk(ParsePlain(token).value, constant)
  {
    if token.kind == BigIntValue {
      var text := token.value;
      assert text[..|text|] == text;
    }
  }

  lemma {:induction false} ValueParsed(tokens: seq<Token>, constant: bool)
    requires AllTokens(tokens)
    ensures var r := ParseValue(tokens, constant); r.Done? ==> ValueOk(r.value, constant) && AllTokens(r.rest)
    decreases |tokens|, 0
  {
    if tokens != [] {
      if tokens[0].kind != Punctuator {
        if ParsePlain(tokens[0]).Some? {
          PlainOk(tokens[0], constant);
        }
      } else if !constant && Starts(tokens, '$') {
        if StartsName(tokens[1..]) {
          assert tokens[1..][0] == tokens[1] == N(tokens[1].value);
        }
      } else if Starts(tokens, '[') {
        ValuesParsed(tokens[1..], constant);
      } else if Starts(tokens, '{') {
        EntriesParsed(tokens[1..], constant);
        var r := ParseEntries(tokens[1..], constant);
        if r.Done? {
          CollectedOk(r.value, constant);
        }
      }
    }
  }

  lemma {:induction false} ValuesParsed(tokens: seq<Token>, constant: bool)
    requires AllTokens(tokens)
    ensures var r := ParseValues(tokens, constant); r.Done? ==> ValuesOk(r.value, constant) && AllTokens(r.rest)
    decreases |tokens|, 1
  {
    if StartsValue(tokens, constant) {
      ValueParsed(tokens, constant);
      var r := ParseValue(tokens, constant);
      if r.Done? {
        ValuesParsed(r.rest, constant);
      }
    }
  }

  lemma {:induction false} EntriesParsed(tokens: seq<Token>, constant: bool)
    requires AllTokens(tokens)
    ensures var r := ParseEntries(tokens, constant); r.Done? ==> EntriesOk(r.value, constant) && AllTokens(r.rest)
    decreases |tokens|, 1
  {
    if StartsName(tokens) && Starts(tokens[1..], ':') {
      assert IsToken(tokens[0]) && tokens[0] == N(tokens[0].value);
      AllTokensTail(tokens, 2);
      ValueParsed(tokens[2..], constant);
      var r := ParseValue(tokens[2..], constant);
      if r.Done? {
        EntriesParsed(r.rest, constant);
      }
    }
  }

  // ----- arguments, directives, types -----

  lemma {:induction false} ArgumentsParsed(tokens: seq<Token>)
    requires AllTokens(tokens)
    ensures var r := ParseArguments(tokens); r.Done? ==> EntriesOk(r.value, false) && AllTokens(r.rest)
  {
    if Starts(tokens, '(') {
      EntriesParsed(tokens[1..], false);
    }
  }

  lemma {:induction false} DirectivesParsed(tokens: seq<Token>)
    requires AllTokens(tokens)
    ensures var r := ParseDirectives(tokens); r.Done? ==> DirectivesOk(r.value) && AllTokens(r.rest)
    decreases |tokens|
  {
    if Starts(tokens, '@') && StartsName(tokens[1..]) {
      assert tokens[1] == tokens[1..][0] == N(tokens[1].value) && IsToken(tokens[1]);
      AllTokensTail(tokens, 2);
      ArgumentsParsed(tokens[2..]);
      var r := ParseArguments(tokens[2..]);
      if r.Done? {
        DirectivesParsed(r.rest);
      }
    }
  }

  lemma {:induction false} TypeParsed(tokens: seq<Token>)
    requires AllTokens(tokens)
    ensures var r := ParseType(tokens); r.Done? ==> TypeOk(r.value) && AllTokens(r.rest)
    decreases |tokens|
  {
    if StartsName(tokens) {
      assert IsToken(tokens[0]) && tokens[0] == N(tokens[0].value);
    } else if Starts(tokens, '[') {
      TypeParsed(tokens[1..]);
    }
  }

  // ----- selections -----

  lemma {:induction false} SetParsed(tokens: seq<Token>)
    requires AllTokens(tokens)
    ensures var r := ParseSelectionSet(tokens);
            r.Done? ==> r.value != [] && SelectionsOk(r.value) && AllTokens(r.rest)
    decreases |tokens|, 0
  {
    if Starts(tokens, '{') {
      SelectionsParsed(tokens[1..]);
    }
  }

  lemma {:induction false} SelectionsParsed(tokens: seq<Token>)
    requires AllTokens(tokens)
    ensures var r := ParseSelections(tokens); r.Done? ==> SelectionsOk(r.value) && AllTokens(r.rest)
    decreases |tokens|, 2
  {
    hide ParseSelection, SelectionOk;
    if StartsSelection(tokens) {
      SelectionParsed(tokens);
      var r := ParseSelection(tokens);
      if r.Done? {
        SelectionsParsed(r.rest);
      }
    }
  }

  lemma {:induction false} SelectionParsed(tokens: seq<Token>)
    requires AllTokens(tokens) && StartsSelection(tokens)
    ensures var r := ParseSelection(tokens); r.Done? ==> SelectionOk(r.value) && AllTokens(r.rest)
    decreases |tokens|, 1
  {
    hide ParseField, ParseInline, ParseDirectives, DirectivesOk, SelectionsOk, IsToken;
    if tokens[0].kind == Name {
      FieldParsed(tokens);
    } else {
      var after := tokens[1..];
      AllTokensTail(tokens, 1);
      if StartsWord(after, "on") {
        if StartsName(after[1..]) {
          assert after[1] == after[1..][0] == N(after[1].value) && IsToken(after[1]);
          AllTokensTail(after, 2);
          InlineParsed(Some(after[1].value), after[2..]);
        }
      } else if Starts(after, '@') || Starts(after, '{') {
        InlineParsed(None, after);
      } else if StartsName(after) {
        assert after[0] == N(after[0].value) && IsToken(after[0]);
        AllTokensTail(after, 1);
        DirectivesParsed(after[1..]);
      }
    }
  }

  lemma {:induction false} InlineParsed(on: Option<string>, tokens: seq<Token>)
    requires AllTokens(tokens) && (on.Some? ==> IsName(on.value))
    ensures var r := ParseInline(on, tokens); r.Done? ==> SelectionOk(r.value) && AllTokens(r.rest)
    decreases |tokens|, 1
  {
    hide ParseDirectives, ParseSelectionSet, DirectivesOk, SelectionsOk, IsName, AllTokens;
    DirectivesParsed(tokens);
    var r := ParseDirectives(tokens);
    if r.Done? {
      SetParsed(r.rest);
    }
  }

  lemma {:induction false} FieldParsed(tokens: seq<Token>)
    requires AllTokens(tokens) && StartsName(tokens)
    ensures var r := ParseField(tokens); r.Done? ==> SelectionOk(r.value) && AllTokens(r.rest)
    decreases |tokens|, 0
  {
    var aliased := Starts(tokens[1..], ':');
    assert tokens[0] == N(tokens[0].value) && IsToken(tokens[0]);
    if !aliased || StartsName(tokens[2..]) {
      var n := if aliased then 3 else 1;
      if aliased {
        assert tokens[2] == tokens[2..][0] == N(tokens[2].value) && IsToken(tokens[2]);
      }
      AllTokensTail(tokens, n);
      hide ParseArguments, ParseDirectives, ParseSelectionSet, DirectivesOk, SelectionsOk, EntriesOk, IsToken, AllTokens;
      NoSelections();
      FieldPartsParsed(tokens[n..]);
    }
  }

  /** The arguments, the directives and the set behind the name of a field. */
  lemma {:induction false} FieldPartsParsed(tokens: seq<Token>)
    requires AllTokens(tokens)
    ensures var a := ParseArguments(tokens);
            a.Done? ==>
              && EntriesOk(a.value, false)
              && var d := ParseDirectives(a.rest);
                 d.Done? ==>
                   && DirectivesOk(d.value) && AllTokens(d.rest)
                   && var i := ParseSelectionSet(d.rest); i.Done? ==> SelectionsOk(i.value) && AllTokens(i.rest)
    decreases |tokens|, 3
  {
    hide ParseArguments, ParseDirectives, ParseSelectionSet, DirectivesOk, SelectionsOk, EntriesOk, AllTokens;
    ArgumentsParsed(tokens);
    var a := ParseArguments(tokens);
    if a.Done? {
      DirectivesParsed(a.rest);
      var d := ParseDirectives(a.rest);
      if d.Done? {
        SetParsed(d.rest);
      }
    }
  }

  lemma NoSelections()
    ensures SelectionsOk([])
  {
  }

  // ----- definitions -----

  lemma {:induction false} VariableParsed(tokens: seq<Token>)
    requires AllTokens(tokens)
    ensures var r := ParseVariable(tokens);
            r.Done? ==>
              && IsName(r.value.name) && TypeOk(r.value.varType) && AllTokens(r.rest)
              && (r.value.defaultValue.Some? ==> ValueOk(r.value.defaultValue.value, true))
  {
    if Starts(tokens, '$') && StartsName(tokens[1..]) && Starts(tokens[2..], ':') {
      assert tokens[1] == tokens[1..][0] == N(tokens[1].value) && IsToken(tokens[1]);
      AllTokensTail(tokens, 3);
      hide ParseType, ParseValue, TypeOk, ValueOk, IsToken;
      TypeParsed(tokens[3..]);
      var r := ParseType(tokens[3..]);
      if r.Done? && Starts(r.rest, '=') {
        AllTokensTail(r.rest, 1);
        ValueParsed(r.rest[1..], true);
      }
    }
  }

  lemma {:induction false} VariablesParsed(tokens: seq<Token>)
    requires AllTokens(tokens)
    ensures var r := ParseVariables(tokens); r.Done? ==> VariablesOk(r.value) && AllTokens(r.rest)
    decreases |tokens|
  {
    hide ParseVariable, TypeOk, ValueOk, IsName;
    if Starts(tokens, '$') {
      VariableParsed(tokens);
      var r := ParseVariable(tokens);
      if r.Done? {
        VariablesParsed(r.rest);
      }
    }
  }

  lemma {:induction false} OperationParsed(kind: OperationKind, tokens: seq<Token>)
    requires AllTokens(tokens)
    ensures var r := ParseOperation(kind, tokens); r.Done? ==> DefinitionOk(r.value) && AllTokens(r.rest)
  {
    var named := StartsName(tokens);
    var body := if named then tokens[1..] else tokens;
    if named {
      assert tokens[0] == N(tokens[0].value) && IsToken(tokens[0]);
      AllTokensTail(tokens, 1);
    }
    VariableBlockParsed(body);
    hide ParseVariableBlock, ParseDirectives, ParseSelectionSet, VariablesOk, DirectivesOk, SelectionsOk, IsToken;
    var v := ParseVariableBlock(body);
    if v.Done? {
      DirectivesParsed(v.rest);
      var d := ParseDirectives(v.rest);
      if d.Done? {
        SetParsed(d.rest);
      }
    }
  }

  lemma {:induction false} VariableBlockParsed(tokens: seq<Token>)
    requires AllTokens(tokens)
    ensures var r := ParseVariableBlock(tokens); r.Done? ==> VariablesOk(r.value) && AllTokens(r.rest)
  {
    if Starts(tokens, '(') {
      VariablesParsed(tokens[1..]);
    }
  }

  lemma {:induction false} FragmentParsed(tokens: seq<Token>)
    requires AllTokens(tokens)
    ensures var r := ParseFragment(tokens); r.Done? ==> DefinitionOk(r.value) && AllTokens(r.rest)
  {
    if StartsName(tokens) && StartsWord(tokens[1..], "on") && StartsName(tokens[2..]) {
      assert tokens[0] == N(tokens[0].value) && IsToken(tokens[0]);
      assert tokens[2] == tokens[2..][0] == N(tokens[2].value) && IsToken(tokens[2]);
      AllTokensTail(tokens, 3);
      hide ParseDirectives, ParseSelectionSet, DirectivesOk, SelectionsOk, IsToken;
      DirectivesParsed(tokens[3..]);
      var d := ParseDirectives(tokens[3..]);
      if d.Done? {
        SetParsed(d.rest);
      }
    }
  }

  lemma {:induction false} DefinitionParsed(tokens: seq<Token>)
    requires AllTokens(tokens)
    ensures var r := ParseDefinition(tokens); r.Done? ==> DefinitionOk(r.value) && AllTokens(r.rest)
  {
    hide ParseOperation, ParseFragment, ParseSelectionSet, Keyword, SelectionsOk;
    if Starts(tokens, '{') {
      SetParsed(tokens);
    } else if tokens != [] {
      AllTokensTail(tokens, 1);
      OperationParsed(Query, tokens[1..]);
      OperationParsed(Mutation, tokens[1..]);
      OperationParsed(Subscription, tokens[1..]);
      FragmentParsed(tokens[1..]);
    }
  }

  lemma {:induction false} DefinitionsParsed(tokens: seq<Token>)
    requires AllTokens(tokens)
    ensures var r := ParseDefinitions(tokens); r.Some? ==> DefinitionsOk(r.value) && (tokens != [] ==> r.value != [])
    decreases |tokens|
  {
    hide ParseDefinition, DefinitionOk;
    if tokens != [] {
      DefinitionParsed(tokens);
      var r := ParseDefinition(tokens);
      if r.Done? {
        DefinitionsParsed(r.rest);
      }
    }
  }

  /** Every parsed document is one that the round trip is about, nested no deeper than the budget. */
  lemma {:induction false} ParsedIsOk(text: string)
    ensures ParseQuery(text).Some? ==> DocumentOk(ParseQuery(text).value) && DocumentNest(ParseQuery(text).value) <= BRACKET_LIMIT
  {
    LexedTokens(Skip(text), BRACKET_LIMIT);
    if Lex(text).Some? {
      DefinitionsParsed(Lex(text).value);
      DocumentAfforded(Lex(text).value, BRACKET_LIMIT);
    }
  }

  /** Printing what was parsed and parsing it again gives the document as it was written and reread, and the same
      document exactly when it is kept. */
  lemma {:induction false} ParsedRoundTripIff(text: string, style: Style)
    requires ParseQuery(text).Some? && FloatFree(ParseQuery(text).value)
    ensures var d := ParseQuery(text).value;
      && ParseQuery(Printed(d, style)) == Some(Reread(DocumentWritten(d, style)))
      && (ParseQuery(Printed(d, style)) == Some(d) <==> Kept(d, style))
  {
    var d := ParseQuery(text).value;
    ParsedIsOk(text);
    PrintThenParse(d, style);
    RoundTripIff(d, style);
  }
}
