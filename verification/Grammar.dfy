/** The query grammar. Every alternative is chosen by the next token, as the combinators do: one that has taken a
    token and then fails makes the whole parse fail. */
module Grammar {
  import opened Common
  import opened Lexer
  import opened Strings
  import opened BlockStrings
  import opened Syntax

  datatype Parsed<+T> = Done(value: T, rest: seq<Token>) | Fails

  predicate Starts(tokens: seq<Token>, c: char) {
    tokens != [] && tokens[0] == P(c)
  }

  predicate StartsName(tokens: seq<Token>) {
    tokens != [] && tokens[0].kind == Name
  }

  predicate StartsWord(tokens: seq<Token>, word: string) {
    tokens != [] && tokens[0] == N(word)
  }

  // ----- values -----

  predicate StartsValue(tokens: seq<Token>, constant: bool) {
    tokens != []
    && (tokens[0].kind != Punctuator || tokens[0] == P('[') || tokens[0] == P('{') || (!constant && tokens[0] == P('$')))
  }

  /** An unsigned number that fits; a minus sign fails. */
  function ParseNat(text: string, max: nat): Option<nat> {
    if text != "" && AllDigits(text) && Decimal(text) <= max then Some(Decimal(text)) else None
  }

  /** An exponent mark may be scanned with a sign and no digits, which is no float. */
  predicate FloatParses(text: string) {
    text != "" && IsDigit(text[|text| - 1])
  }

  function Word(name: string): Value {
    if name == "true" then Boolean(true)
    else if name == "false" then Boolean(false)
    else if name == "null" then Null
    else Enum(name)
  }

  /** Every value of one token. */
  function ParsePlain(token: Token): Option<Value> {
    match token.kind
    case Name => Some(Word(token.value))
    case IntValue => (match ParseNat(token.value, MAX_U64) case Some(n) => Some(Int(n)) case None => None)
    case FloatValue => if FloatParses(token.value) then Some(Float(token.value)) else None
    case BigIntValue => (match ParseNat(token.value, MAX_U128) case Some(n) => Some(BigInt(n)) case None => None)
    case StringValue =>
      if |token.value| < 2 then None
      else (match Unquote(token.value) case Read(text) => Some(Str(text)) case Malformed => None case Panics => None)
    case BlockString => if |token.value| < 6 then None else Some(Str(UnquoteBlock(token.value)))
    case Punctuator => None
  }

  /** Insertion into a map kept in the order of names; a name that is there gets the new value. */
  function Insert(entries: seq<Entry>, e: Entry): seq<Entry> {
    if entries == [] || Less(e.name, entries[0].name) then [e] + entries
    else if entries[0].name == e.name then [e] + entries[1..]
    else [entries[0]] + Insert(entries[1..], e)
  }

  function Collected(entries: seq<Entry>): seq<Entry> {
    if entries == [] then [] else Insert(Collected(entries[..|entries| - 1]), entries[|entries| - 1])
  }

  /** `constant` is for defaults, where there are no variables. */
  function ParseValue(tokens: seq<Token>, constant: bool): (r: Parsed<Value>)
    ensures r.Done? ==> |r.rest| < |tokens|
    decreases |tokens|, 0
  {
    if tokens == [] then Fails
    else if tokens[0].kind != Punctuator then
      match ParsePlain(tokens[0])
      case Some(v) => Done(v, tokens[1..])
      case None => Fails
    else if !constant && Starts(tokens, '$') then
      (if StartsName(tokens[1..]) then Done(Variable(tokens[1].value), tokens[2..]) else Fails)
    else if Starts(tokens, '[') then
      match ParseValues(tokens[1..], constant)
      case Done(items, rest) => if Starts(rest, ']') then Done(List(items), rest[1..]) else Fails
      case Fails => Fails
    else if Starts(tokens, '{') then
      match ParseEntries(tokens[1..], constant)
      case Done(entries, rest) => if Starts(rest, '}') then Done(Object(Collected(entries)), rest[1..]) else Fails
      case Fails => Fails
    else Fails
  }

  function ParseValues(tokens: seq<Token>, constant: bool): (r: Parsed<seq<Value>>)
    ensures r.Done? ==> |r.rest| <= |tokens|
    decreases |tokens|, 1
  {
    if !StartsValue(tokens, constant) then Done([], tokens)
    else
      match ParseValue(tokens, constant)
      case Fails => Fails
      case Done(v, rest) =>
        match ParseValues(rest, constant)
        case Fails => Fails
        case Done(items, rest') => Done([v] + items, rest')
  }

  function ParseEntries(tokens: seq<Token>, constant: bool): (r: Parsed<seq<Entry>>)
    ensures r.Done? ==> |r.rest| <= |tokens|
    decreases |tokens|, 1
  {
    if !StartsName(tokens) then Done([], tokens)
    else if !Starts(tokens[1..], ':') then Fails
    else
      match ParseValue(tokens[2..], constant)
      case Fails => Fails
      case Done(v, rest) =>
        match ParseEntries(rest, constant)
        case Fails => Fails
        case Done(entries, rest') => Done([Entry(tokens[0].value, v)] + entries, rest')
  }

  // ----- arguments, directives, types -----

  function ParseArguments(tokens: seq<Token>): (r: Parsed<seq<Entry>>)
    ensures r.Done? ==> |r.rest| <= |tokens|
  {
    if !Starts(tokens, '(') then Done([], tokens)
    else
      match ParseEntries(tokens[1..], false)
      case Fails => Fails
      case Done(arguments, rest) =>
        if arguments != [] && Starts(rest, ')') then Done(arguments, rest[1..]) else Fails
  }

  function ParseDirectives(tokens: seq<Token>): (r: Parsed<seq<Directive>>)
    ensures r.Done? ==> |r.rest| <= |tokens|
    decreases |tokens|
  {
    if !Starts(tokens, '@') then Done([], tokens)
    else if !StartsName(tokens[1..]) then Fails
    else
      match ParseArguments(tokens[2..])
      case Fails => Fails
      case Done(arguments, rest) =>
        match ParseDirectives(rest)
        case Fails => Fails
        case Done(directives, rest') => Done([Directive(tokens[1].value, arguments)] + directives, rest')
  }

  function ParseType(tokens: seq<Token>): (r: Parsed<Type>)
    ensures r.Done? ==> |r.rest| < |tokens|
    decreases |tokens|, 1
  {
    match ParseBareType(tokens)
    case Fails => Fails
    case Done(t, rest) => if Starts(rest, '!') then Done(NonNullType(t), rest[1..]) else Done(t, rest)
  }

  function ParseBareType(tokens: seq<Token>): (r: Parsed<Type>)
    ensures r.Done? ==> |r.rest| < |tokens| && !r.value.NonNullType?
    decreases |tokens|, 0
  {
    if StartsName(tokens) then Done(NamedType(tokens[0].value), tokens[1..])
    else if Starts(tokens, '[') then
      match ParseType(tokens[1..])
      case Fails => Fails
      case Done(inner, rest) => if Starts(rest, ']') then Done(ListType(inner), rest[1..]) else Fails
    else Fails
  }

  // ----- selections -----

  predicate StartsSelection(tokens: seq<Token>) {
    tokens != [] && (tokens[0].kind == Name || tokens[0] == SPREAD)
  }

  /** `{`, at least one selection, `}`. */
  function ParseSelectionSet(tokens: seq<Token>): (r: Parsed<seq<Selection>>)
    ensures r.Done? ==> |r.rest| < |tokens|
    decreases |tokens|, 0
  {
    if !Starts(tokens, '{') then Fails
    else
      match ParseSelections(tokens[1..])
      case Fails => Fails
      case Done(items, rest) => if items != [] && Starts(rest, '}') then Done(items, rest[1..]) else Fails
  }

  function ParseSelections(tokens: seq<Token>): (r: Parsed<seq<Selection>>)
    ensures r.Done? ==> |r.rest| <= |tokens|
    decreases |tokens|, 2
  {
    if !StartsSelection(tokens) then Done([], tokens)
    else
      match ParseSelection(tokens)
      case Fails => Fails
      case Done(item, rest) =>
        match ParseSelections(rest)
        case Fails => Fails
        case Done(items, rest') => Done([item] + items, rest')
  }

  function ParseSelection(tokens: seq<Token>): (r: Parsed<Selection>)
    requires StartsSelection(tokens)
    ensures r.Done? ==> |r.rest| < |tokens|
    decreases |tokens|, 1
  {
    if tokens[0].kind == Name then ParseField(tokens)
    else
      var after := tokens[1..];
      if StartsWord(after, "on") then
        (if StartsName(after[1..]) then ParseInline(Some(after[1].value), after[2..]) else Fails)
      else if Starts(after, '@') || Starts(after, '{') then ParseInline(None, after)
      else if StartsName(after) then
        match ParseDirectives(after[1..])
        case Fails => Fails
        case Done(directives, rest) => Done(FragmentSpread(after[0].value, directives), rest)
      else Fails
  }

  function ParseInline(on: Option<string>, tokens: seq<Token>): (r: Parsed<Selection>)
    ensures r.Done? ==> |r.rest| < |tokens|
    decreases |tokens|, 1
  {
    match ParseDirectives(tokens)
    case Fails => Fails
    case Done(directives, rest) =>
      match ParseSelectionSet(rest)
      case Fails => Fails
      case Done(items, rest') => Done(InlineFragment(on, directives, items), rest')
  }

  function ParseField(tokens: seq<Token>): (r: Parsed<Selection>)
    requires StartsName(tokens)
    ensures r.Done? ==> |r.rest| < |tokens|
    decreases |tokens|, 0
  {
    var aliased := Starts(tokens[1..], ':');
    if aliased && !StartsName(tokens[2..]) then Fails
    else
      var alias := if aliased then Some(tokens[0].value) else None;
      var name := if aliased then tokens[2].value else tokens[0].value;
      match ParseArguments(if aliased then tokens[3..] else tokens[1..])
      case Fails => Fails
      case Done(arguments, rest) =>
        match ParseDirectives(rest)
        case Fails => Fails
        case Done(directives, rest') =>
          if !Starts(rest', '{') then Done(Field(alias, name, arguments, directives, []), rest')
          else
            match ParseSelectionSet(rest')
            case Fails => Fails
            case Done(items, rest'') => Done(Field(alias, name, arguments, directives, items), rest'')
  }

  // ----- definitions -----

  function ParseVariable(tokens: seq<Token>): (r: Parsed<VariableDefinition>)
    ensures r.Done? ==> |r.rest| < |tokens|
  {
    if !Starts(tokens, '$') || !StartsName(tokens[1..]) || !Starts(tokens[2..], ':') then Fails
    else
      match ParseType(tokens[3..])
      case Fails => Fails
      case Done(varType, rest) =>
        if !Starts(rest, '=') then Done(VariableDefinition(tokens[1].value, varType, None), rest)
        else
          match ParseValue(rest[1..], true)
          case Fails => Fails
          case Done(v, rest') => Done(VariableDefinition(tokens[1].value, varType, Some(v)), rest')
  }

  function ParseVariables(tokens: seq<Token>): (r: Parsed<seq<VariableDefinition>>)
    ensures r.Done? ==> |r.rest| <= |tokens|
    decreases |tokens|
  {
    if !Starts(tokens, '$') then Done([], tokens)
    else
      match ParseVariable(tokens)
      case Fails => Fails
      case Done(v, rest) =>
        match ParseVariables(rest)
        case Fails => Fails
        case Done(variables, rest') => Done([v] + variables, rest')
  }

  function ParseVariableBlock(tokens: seq<Token>): (r: Parsed<seq<VariableDefinition>>)
    ensures r.Done? ==> |r.rest| <= |tokens|
  {
    if !Starts(tokens, '(') then Done([], tokens)
    else
      match ParseVariables(tokens[1..])
      case Fails => Fails
      case Done(variables, rest) =>
        if variables != [] && Starts(rest, ')') then Done(variables, rest[1..]) else Fails
  }

  /** What follows the keyword of an operation. */
  function ParseOperation(kind: OperationKind, tokens: seq<Token>): (r: Parsed<Definition>)
    ensures r.Done? ==> |r.rest| < |tokens|
  {
    var named := StartsName(tokens);
    var name := if named then Some(tokens[0].value) else None;
    match ParseVariableBlock(if named then tokens[1..] else tokens)
    case Fails => Fails
    case Done(variables, rest) =>
      match ParseDirectives(rest)
      case Fails => Fails
      case Done(directives, rest') =>
        match ParseSelectionSet(rest')
        case Fails => Fails
        case Done(items, rest'') => Done(Operation(kind, name, variables, directives, items), rest'')
  }

  /** What follows the keyword of a fragment. */
  function ParseFragment(tokens: seq<Token>): (r: Parsed<Definition>)
    ensures r.Done? ==> |r.rest| < |tokens|
  {
    if !StartsName(tokens) || !StartsWord(tokens[1..], "on") || !StartsName(tokens[2..]) then Fails
    else
      match ParseDirectives(tokens[3..])
      case Fails => Fails
      case Done(directives, rest) =>
        match ParseSelectionSet(rest)
        case Fails => Fails
        case Done(items, rest') => Done(Fragment(tokens[0].value, tokens[2].value, directives, items), rest')
  }

  function ParseDefinition(tokens: seq<Token>): (r: Parsed<Definition>)
    ensures r.Done? ==> |r.rest| < |tokens|
  {
    if Starts(tokens, '{') then
      match ParseSelectionSet(tokens)
      case Fails => Fails
      case Done(items, rest) => Done(SelectionSet(items), rest)
    else if StartsWord(tokens, Keyword(Query)) then ParseOperation(Query, tokens[1..])
    else if StartsWord(tokens, Keyword(Mutation)) then ParseOperation(Mutation, tokens[1..])
    else if StartsWord(tokens, Keyword(Subscription)) then ParseOperation(Subscription, tokens[1..])
    else if StartsWord(tokens, "fragment") then ParseFragment(tokens[1..])
    else Fails
  }

  /** Definitions up to the end of the input. */
  function ParseDefinitions(tokens: seq<Token>): Option<Document>
    decreases |tokens|
  {
    if tokens == [] then Some([])
    else
      match ParseDefinition(tokens)
      case Fails => None
      case Done(d, rest) =>
        match ParseDefinitions(rest)
        case None => None
        case Some(document) => Some([d] + document)
  }

  function ParseDocument(tokens: seq<Token>): Option<Document> {
    if tokens == [] then None else ParseDefinitions(tokens)
  }

  /** A text with a malformed or too deeply nested token anywhere is not parsed. */
  function ParseQuery(text: string): Option<Document> {
    match Lex(text)
    case None => None
    case Some(tokens) => ParseDocument(tokens)
  }
}
