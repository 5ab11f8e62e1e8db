/** The parser looks at a string token only for the string it stands for: token sequences that differ in how strings
    are written parse alike. */
module SameReading {
  import opened Common
  import opened Lexer
  import opened Syntax
  import opened Grammar

  predicate IsString(t: Token) {
    t.kind == StringValue || t.kind == BlockString
  }

  predicate SameToken(a: Token, b: Token) {
    a == b || (IsString(a) && IsString(b) && ParsePlain(a) == ParsePlain(b))
  }

  predicate Same(a: seq<Token>, b: seq<Token>) {
    |a| == |b| && forall i :: 0 <= i < |a| ==> SameToken(a[i], b[i])
  }

  predicate SameParse<T(==)>(a: Parsed<T>, b: Parsed<T>) {
    (a.Done? <==> b.Done?) && (a.Done? ==> a.value == b.value && Same(a.rest, b.rest))
  }

  lemma SameFrom(a: seq<Token>, b: seq<Token>, n: nat)
    requires Same(a, b) && n <= |a|
    ensures Same(a[n..], b[n..])
  {
    forall i | 0 <= i < |a[n..]| ensures SameToken(a[n..][i], b[n..][i]) {
      assert SameToken(a[n + i], b[n + i]);
    }
  }

  /** What the parser asks of the next token. */
  lemma SameStart(a: seq<Token>, b: seq<Token>)
    requires Same(a, b)
    ensures forall c :: Starts(a, c) <==> Starts(b, c)
    ensures forall w :: StartsWord(a, w) <==> StartsWord(b, w)
    ensures StartsName(a) <==> StartsName(b)
    ensures StartsName(a) ==> a[0] == b[0]
    ensures forall constant :: StartsValue(a, constant) <==> StartsValue(b, constant)
    ensures StartsSelection(a) <==> StartsSelection(b)
  {
    if a != [] {
      assert SameToken(a[0], b[0]);
    }
  }

  lemma SameThree(a: seq<Token>, b: seq<Token>)
    requires Same(a, b)
    ensures |a| >= 1 ==> Same(a[1..], b[1..])
    ensures |a| >= 2 ==> Same(a[2..], b[2..])
    ensures |a| >= 3 ==> Same(a[3..], b[3..])
  {
    if |a| >= 1 {
      SameFrom(a, b, 1);
    }
    if |a| >= 2 {
      SameFrom(a, b, 2);
    }
    if |a| >= 3 {
      SameFrom(a, b, 3);
    }
  }

  /** The next three tokens. */
  lemma SameAhead(a: seq<Token>, b: seq<Token>)
    requires Same(a, b)
    ensures a != [] ==> SameToken(a[0], b[0])
    ensures |a| >= 1 ==> (StartsName(a[1..]) <==> StartsName(b[1..])) && (StartsName(a[1..]) ==> a[1] == b[1])
    ensures |a| >= 1 ==> forall c :: Starts(a[1..], c) <==> Starts(b[1..], c)
    ensures |a| >= 1 ==> forall w :: StartsWord(a[1..], w) <==> StartsWord(b[1..], w)
    ensures |a| >= 2 ==> (StartsName(a[2..]) <==> StartsName(b[2..])) && (StartsName(a[2..]) ==> a[2] == b[2])
    ensures |a| >= 2 ==> forall c :: Starts(a[2..], c) <==> Starts(b[2..], c)
  {
    SameThree(a, b);
    if |a| >= 1 {
      SameStart(a[1..], b[1..]);
    }
    if |a| >= 2 {
      SameStart(a[2..], b[2..]);
    }
  }

  // ----- values -----

  lemma {:induction false} ValueSame(a: seq<Token>, b: seq<Token>, constant: bool)
    requires Same(a, b)
    ensures SameParse(ParseValue(a, constant), ParseValue(b, constant))
    decreases |a|, 0
  {
    SameStart(a, b);
    SameThree(a, b);
    SameAhead(a, b);
    hide Same, ParsePlain, ParseValues, ParseEntries, Collected, StartsName;
    if a != [] && Starts(a, '[') {
      ValuesSame(a[1..], b[1..], constant);
      AfterSame(ParseValues(a[1..], constant), ParseValues(b[1..], constant));
    } else if a != [] && Starts(a, '{') {
      EntriesSame(a[1..], b[1..], constant);
      AfterSame(ParseEntries(a[1..], constant), ParseEntries(b[1..], constant));
    }
    SameLength(a, b);
  }

  lemma SameLength(a: seq<Token>, b: seq<Token>)
    requires Same(a, b)
    ensures |a| == |b|
  {
  }

  /** What follows a parsed part. */
  lemma AfterSame<T>(a: Parsed<T>, b: Parsed<T>)
    requires SameParse(a, b)
    ensures a.Done? ==> |a.rest| == |b.rest| && forall c :: Starts(a.rest, c) <==> Starts(b.rest, c)
    ensures a.Done? && a.rest != [] ==> Same(a.rest[1..], b.rest[1..])
  {
    if a.Done? {
      SameStart(a.rest, b.rest);
      SameThree(a.rest, b.rest);
    }
  }

  lemma {:induction false} ValuesSame(a: seq<Token>, b: seq<Token>, constant: bool)
    requires Same(a, b)
    ensures SameParse(ParseValues(a, constant), ParseValues(b, constant))
    decreases |a|, 1
  {
    SameStart(a, b);
    hide Same, ParseValue, StartsValue;
    if StartsValue(a, constant) {
      ValueSame(a, b, constant);
      var r, s := ParseValue(a, constant), ParseValue(b, constant);
      if r.Done? {
        ValuesSame(r.rest, s.rest, constant);
      }
    }
  }

  lemma {:induction false} EntriesSame(a: seq<Token>, b: seq<Token>, constant: bool)
    requires Same(a, b)
    ensures SameParse(ParseEntries(a, constant), ParseEntries(b, constant))
    decreases |a|, 1
  {
    SameStart(a, b);
    SameThree(a, b);
    SameAhead(a, b);
    hide Same, ParseValue;
    if StartsName(a) && Starts(a[1..], ':') {
      ValueSame(a[2..], b[2..], constant);
      var r, s := ParseValue(a[2..], constant), ParseValue(b[2..], constant);
      if r.Done? {
        EntriesSame(r.rest, s.rest, constant);
      }
    }
  }

  // ----- arguments, directives, types -----

  lemma {:induction false} ArgumentsSame(a: seq<Token>, b: seq<Token>)
    requires Same(a, b)
    ensures SameParse(ParseArguments(a), ParseArguments(b))
  {
    SameStart(a, b);
    SameThree(a, b);
    hide Same, ParseEntries;
    if Starts(a, '(') {
      EntriesSame(a[1..], b[1..], false);
      AfterSame(ParseEntries(a[1..], false), ParseEntries(b[1..], false));
    }
  }

  lemma {:induction false} DirectivesSame(a: seq<Token>, b: seq<Token>)
    requires Same(a, b)
    ensures SameParse(ParseDirectives(a), ParseDirectives(b))
    decreases |a|
  {
    SameStart(a, b);
    SameThree(a, b);
    SameAhead(a, b);
    hide Same, ParseArguments;
    if Starts(a, '@') && StartsName(a[1..]) {
      ArgumentsSame(a[2..], b[2..]);
      var r, s := ParseArguments(a[2..]), ParseArguments(b[2..]);
      if r.Done? {
        DirectivesSame(r.rest, s.rest);
      }
    }
  }

  lemma {:induction false} TypeSame(a: seq<Token>, b: seq<Token>)
    requires Same(a, b)
    ensures SameParse(ParseType(a), ParseType(b))
    decreases |a|, 1
  {
    hide Same, ParseBareType;
    BareTypeSame(a, b);
    AfterSame(ParseBareType(a), ParseBareType(b));
  }

  lemma {:induction false} BareTypeSame(a: seq<Token>, b: seq<Token>)
    requires Same(a, b)
    ensures SameParse(ParseBareType(a), ParseBareType(b))
    decreases |a|, 0
  {
    SameStart(a, b);
    SameThree(a, b);
    hide Same, ParseType;
    if Starts(a, '[') {
      TypeSame(a[1..], b[1..]);
      AfterSame(ParseType(a[1..]), ParseType(b[1..]));
    }
  }

  // ----- selections -----

  lemma {:induction false} SetSame(a: seq<Token>, b: seq<Token>)
    requires Same(a, b)
    ensures SameParse(ParseSelectionSet(a), ParseSelectionSet(b))
    decreases |a|, 0
  {
    SameStart(a, b);
    SameThree(a, b);
    hide Same, ParseSelections;
    if Starts(a, '{') {
      SelectionsSame(a[1..], b[1..]);
      AfterSame(ParseSelections(a[1..]), ParseSelections(b[1..]));
    }
  }

  lemma {:induction false} SelectionsSame(a: seq<Token>, b: seq<Token>)
    requires Same(a, b)
    ensures SameParse(ParseSelections(a), ParseSelections(b))
    decreases |a|, 4
  {
    SameStart(a, b);
    hide Same, ParseSelection, StartsSelection;
    if StartsSelection(a) {
      SelectionSame(a, b);
      var r, s := ParseSelection(a), ParseSelection(b);
      if r.Done? {
        SelectionsSame(r.rest, s.rest);
      }
    }
  }

  lemma {:induction false} SelectionSame(a: seq<Token>, b: seq<Token>)
    requires Same(a, b) && StartsSelection(a) && StartsSelection(b)
    ensures SameParse(ParseSelection(a), ParseSelection(b))
    decreases |a|, 3
  {
    SameStart(a, b);
    SameThree(a, b);
    SameAhead(a, b);
    SameLength(a, b);
    assert a[0].kind == Name <==> b[0].kind == Name;
    hide Same, ParseField, ParseInline, ParseDirectives;
    if a[0].kind == Name {
      FieldSame(a, b);
    } else if StartsWord(a[1..], "on") {
      if StartsName(a[2..]) {
        assert a[1..][1..] == a[2..] && b[1..][1..] == b[2..] && a[1..][2..] == a[3..] && b[1..][2..] == b[3..];
        InlineSame(Some(a[2].value), a[3..], b[3..]);
      }
    } else if Starts(a[1..], '@') || Starts(a[1..], '{') {
      InlineSame(None, a[1..], b[1..]);
    } else if StartsName(a[1..]) {
      assert a[1..][1..] == a[2..] && b[1..][1..] == b[2..];
      DirectivesSame(a[2..], b[2..]);
    }
  }

  lemma {:induction false} InlineSame(on: Option<string>, a: seq<Token>, b: seq<Token>)
    requires Same(a, b)
    ensures SameParse(ParseInline(on, a), ParseInline(on, b))
    decreases |a|, 1
  {
    hide Same, ParseDirectives, ParseSelectionSet;
    DirectivesSame(a, b);
    var r, s := ParseDirectives(a), ParseDirectives(b);
    if r.Done? {
      SetSame(r.rest, s.rest);
    }
  }

  lemma {:induction false} FieldSame(a: seq<Token>, b: seq<Token>)
    requires Same(a, b) && StartsName(a) && StartsName(b)
    ensures SameParse(ParseField(a), ParseField(b))
    decreases |a|, 2
  {
    SameStart(a, b);
    SameThree(a, b);
    SameAhead(a, b);
    hide Same, ParseArguments, ParseDirectives, ParseSelectionSet;
    var aliased := Starts(a[1..], ':');
    if !aliased || StartsName(a[2..]) {
      var p, q := if aliased then a[3..] else a[1..], if aliased then b[3..] else b[1..];
      ArgumentsSame(p, q);
      var r, s := ParseArguments(p), ParseArguments(q);
      if r.Done? {
        DirectivesSame(r.rest, s.rest);
        var t, u := ParseDirectives(r.rest), ParseDirectives(s.rest);
        if t.Done? {
          AfterSame(t, u);
          SetSame(t.rest, u.rest);
        }
      }
    }
  }

  // ----- definitions -----

  lemma {:induction false} VariableSame(a: seq<Token>, b: seq<Token>)
    requires Same(a, b)
    ensures SameParse(ParseVariable(a), ParseVariable(b))
  {
    SameStart(a, b);
    SameThree(a, b);
    SameAhead(a, b);
    hide Same, ParseType, ParseValue;
    if Starts(a, '$') && StartsName(a[1..]) && Starts(a[2..], ':') {
      TypeSame(a[3..], b[3..]);
      var r, s := ParseType(a[3..]), ParseType(b[3..]);
      AfterSame(r, s);
      if r.Done? && Starts(r.rest, '=') {
        ValueSame(r.rest[1..], s.rest[1..], true);
      }
    }
  }

  lemma {:induction false} VariablesSame(a: seq<Token>, b: seq<Token>)
    requires Same(a, b)
    ensures SameParse(ParseVariables(a), ParseVariables(b))
    decreases |a|
  {
    SameStart(a, b);
    hide Same, ParseVariable;
    if Starts(a, '$') {
      VariableSame(a, b);
      var r, s := ParseVariable(a), ParseVariable(b);
      if r.Done? {
        VariablesSame(r.rest, s.rest);
      }
    }
  }

  lemma {:induction false} VariableBlockSame(a: seq<Token>, b: seq<Token>)
    requires Same(a, b)
    ensures SameParse(ParseVariableBlock(a), ParseVariableBlock(b))
  {
    SameStart(a, b);
    SameThree(a, b);
    hide Same, ParseVariables;
    if Starts(a, '(') {
      VariablesSame(a[1..], b[1..]);
      AfterSame(ParseVariables(a[1..]), ParseVariables(b[1..]));
    }
  }

  lemma {:induction false} OperationSame(kind: OperationKind, a: seq<Token>, b: seq<Token>)
    requires Same(a, b)
    ensures SameParse(ParseOperation(kind, a), ParseOperation(kind, b))
  {
    SameStart(a, b);
    SameThree(a, b);
    hide Same, ParseVariableBlock, ParseDirectives, ParseSelectionSet;
    var p, q := if StartsName(a) then a[1..] else a, if StartsName(b) then b[1..] else b;
    VariableBlockSame(p, q);
    var r, s := ParseVariableBlock(p), ParseVariableBlock(q);
    if r.Done? {
      DirectivesSame(r.rest, s.rest);
      var t, u := ParseDirectives(r.rest), ParseDirectives(s.rest);
      if t.Done? {
        SetSame(t.rest, u.rest);
      }
    }
  }

  lemma {:induction false} FragmentSame(a: seq<Token>, b: seq<Token>)
    requires Same(a, b)
    ensures SameParse(ParseFragment(a), ParseFragment(b))
  {
    SameStart(a, b);
    SameThree(a, b);
    SameAhead(a, b);
    hide Same, ParseDirectives, ParseSelectionSet;
    if StartsName(a) && StartsWord(a[1..], "on") && StartsName(a[2..]) {
      DirectivesSame(a[3..], b[3..]);
      var r, s := ParseDirectives(a[3..]), ParseDirectives(b[3..]);
      if r.Done? {
        SetSame(r.rest, s.rest);
      }
    }
  }

  lemma {:induction false} DefinitionSame(a: seq<Token>, b: seq<Token>)
    requires Same(a, b)
    ensures SameParse(ParseDefinition(a), ParseDefinition(b))
  {
    SameStart(a, b);
    SameThree(a, b);
    hide Same, SameParse, ParseOperation, ParseFragment, ParseSelectionSet, Keyword, StartsWord, Starts;
    if a == [] {
      NoToken(a, b);
    } else {
      SomeToken(a, b);
      SetSame(a, b);
      OperationSame(Query, a[1..], b[1..]);
      OperationSame(Mutation, a[1..], b[1..]);
      OperationSame(Subscription, a[1..], b[1..]);
      FragmentSame(a[1..], b[1..]);
      BothFail();
      SetOnly(ParseSelectionSet(a), ParseSelectionSet(b));
    }
  }

  lemma BothFail()
    ensures SameParse<Definition>(Fails, Fails)
  {
  }

  function AsDefinition(r: Parsed<seq<Selection>>): Parsed<Definition> {
    match r case Fails => Fails case Done(items, rest) => Done(SelectionSet(items), rest)
  }

  lemma SetOnly(r: Parsed<seq<Selection>>, s: Parsed<seq<Selection>>)
    requires SameParse(r, s)
    ensures SameParse(AsDefinition(r), AsDefinition(s))
  {
  }

  lemma SomeToken(a: seq<Token>, b: seq<Token>)
    requires Same(a, b) && a != []
    ensures b != []
  {
  }

  lemma NoToken(a: seq<Token>, b: seq<Token>)
    requires Same(a, b) && a == []
    ensures ParseDefinition(a) == Fails && ParseDefinition(b) == Fails
  {
  }

  /** Token sequences that differ only in how strings are written parse to the same document, if to any. */
  lemma {:induction false} DocumentSame(a: seq<Token>, b: seq<Token>)
    requires Same(a, b)
    ensures ParseDefinitions(a) == ParseDefinitions(b)
    decreases |a|
  {
    SameLength(a, b);
    hide Same, ParseDefinition;
    if a != [] {
      DefinitionSame(a, b);
      var r, s := ParseDefinition(a), ParseDefinition(b);
      if r.Done? {
        DocumentSame(r.rest, s.rest);
      }
    }
  }
}
