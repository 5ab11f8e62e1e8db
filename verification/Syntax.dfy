/** The syntax tree of a query document (positions left out), the tree's tokens, and the trees a parse can return. */
module Syntax {
  import opened Common
  import opened Lexer
  import opened Scanning
  import opened Strings

  datatype Value =
    | Variable(name: string)
    | BigInt(n: nat)
    | Int(n: nat)
    | Float(literal: string)
    | Str(text: string)
    | Boolean(b: bool)
    | Null
    | Enum(name: string)
    | List(items: seq<Value>)
    | Object(entries: seq<Entry>)

  /** An argument, or a field of an object; the fields of an object are sorted by name. */
  datatype Entry = Entry(name: string, value: Value)

  datatype Directive = Directive(name: string, arguments: seq<Entry>)

  datatype Type = NamedType(name: string) | ListType(inner: Type) | NonNullType(inner: Type)

  datatype Selection =
    | Field(alias: Option<string>, name: string, arguments: seq<Entry>, directives: seq<Directive>, items: seq<Selection>)
    | InlineFragment(on: Option<string>, directives: seq<Directive>, items: seq<Selection>)
    | FragmentSpread(name: string, directives: seq<Directive>)

  datatype VariableDefinition = VariableDefinition(name: string, varType: Type, defaultValue: Option<Value>)

  datatype OperationKind = Query | Mutation | Subscription

  datatype Definition =
    | SelectionSet(items: seq<Selection>)
    | Operation(kind: OperationKind, name: Option<string>, variables: seq<VariableDefinition>,
                directives: seq<Directive>, items: seq<Selection>)
    | Fragment(fragment: string, on: string, directives: seq<Directive>, items: seq<Selection>)

  type Document = seq<Definition>

  // ----- the tokens of a tree -----

  function P(c: char): (t: Token)
    ensures |t.value| == 1 && t.value[0] == c
  {
    Token(Punctuator, [c])
  }

  function N(name: string): Token {
    Token(Name, name)
  }

  const SPREAD := Token(Punctuator, "...")

  function Keyword(kind: OperationKind): string {
    match kind
    case Query => "query"
    case Mutation => "mutation"
    case Subscription => "subscription"
  }

  function ValueTokens(v: Value): (tokens: seq<Token>)
    ensures tokens != []
  {
    match v
    case Variable(name) => [P('$'), N(name)]
    case BigInt(n) => [Token(BigIntValue, Digits(n))]
    case Int(n) => [Token(IntValue, Digits(n))]
    case Float(literal) => [Token(FloatValue, literal)]
    case Str(text) => [Token(StringValue, Quote(text))]
    case Boolean(b) => [N(if b then "true" else "false")]
    case Null => [N("null")]
    case Enum(name) => [N(name)]
    case List(items) => [P('[')] + ValuesTokens(items) + [P(']')]
    case Object(entries) => [P('{')] + EntriesTokens(entries) + [P('}')]
  }

  function ValuesTokens(items: seq<Value>): seq<Token> {
    if items == [] then [] else ValueTokens(items[0]) + ValuesTokens(items[1..])
  }

  function EntriesTokens(entries: seq<Entry>): seq<Token> {
    if entries == [] then [] else [N(entries[0].name), P(':')] + ValueTokens(entries[0].value) + EntriesTokens(entries[1..])
  }

  function ArgumentsTokens(arguments: seq<Entry>): seq<Token> {
    if arguments == [] then [] else [P('(')] + EntriesTokens(arguments) + [P(')')]
  }

  function DirectivesTokens(directives: seq<Directive>): seq<Token> {
    if directives == [] then []
    else [P('@'), N(directives[0].name)] + ArgumentsTokens(directives[0].arguments) + DirectivesTokens(directives[1..])
  }

  function TypeTokens(t: Type): (tokens: seq<Token>)
    ensures tokens != []
  {
    match t
    case NamedType(name) => [N(name)]
    case ListType(inner) => [P('[')] + TypeTokens(inner) + [P(']')]
    case NonNullType(inner) => TypeTokens(inner) + [P('!')]
  }

  /** A set without items is not written. */
  function BlockTokens(items: seq<Selection>): seq<Token> {
    [P('{')] + SelectionsTokens(items) + [P('}')]
  }

  function SelectionTokens(s: Selection): (tokens: seq<Token>)
    ensures tokens != []
    decreases s
  {
    match s
    case Field(alias, name, arguments, directives, items) =>
      (if alias.Some? then [N(alias.value), P(':')] else []) + [N(name)] + ArgumentsTokens(arguments)
      + DirectivesTokens(directives)
      + (if items == [] then [] else [P('{')] + SelectionsTokens(items) + [P('}')])
    case InlineFragment(on, directives, items) =>
      [SPREAD] + (if on.Some? then [N("on"), N(on.value)] else []) + DirectivesTokens(directives)
      + [P('{')] + SelectionsTokens(items) + [P('}')]
    case FragmentSpread(name, directives) =>
      [SPREAD, N(name)] + DirectivesTokens(directives)
  }

  function SelectionsTokens(items: seq<Selection>): seq<Token>
    decreases items
  {
    if items == [] then [] else SelectionTokens(items[0]) + SelectionsTokens(items[1..])
  }

  function VariableTokens(v: VariableDefinition): seq<Token> {
    [P('$'), N(v.name), P(':')] + TypeTokens(v.varType)
    + (if v.defaultValue.Some? then [P('=')] + ValueTokens(v.defaultValue.value) else [])
  }

  function VariablesTokens(variables: seq<VariableDefinition>): seq<Token> {
    if variables == [] then [] else VariableTokens(variables[0]) + VariablesTokens(variables[1..])
  }

  /** The variables of a subscription without a name are not written. */
  function WrittenVariables(kind: OperationKind, name: Option<string>, variables: seq<VariableDefinition>):
    seq<VariableDefinition>
  {
    if kind == Subscription && name.None? then [] else variables
  }

  function HeadTokens(kind: OperationKind, name: Option<string>, variables: seq<VariableDefinition>): seq<Token> {
    var written := WrittenVariables(kind, name, variables);
    [N(Keyword(kind))] + (if name.Some? then [N(name.value)] else [])
    + (if written == [] then [] else [P('(')] + VariablesTokens(written) + [P(')')])
  }

  function DefinitionTokens(d: Definition): seq<Token> {
    match d
    case SelectionSet(items) => BlockTokens(items)
    case Operation(kind, name, variables, directives, items) =>
      HeadTokens(kind, name, variables) + DirectivesTokens(directives) + BlockTokens(items)
    case Fragment(name, on, directives, items) =>
      [N("fragment"), N(name), N("on"), N(on)] + DirectivesTokens(directives) + BlockTokens(items)
  }

  function DocumentTokens(d: Document): seq<Token> {
    if d == [] then [] else DefinitionTokens(d[0]) + DocumentTokens(d[1..])
  }

  // ----- the trees a parse can return -----

  const MAX_U128 := 0xFFFF_FFFF_FFFF_FFFF_FFFF_FFFF_FFFF_FFFF

  predicate IsName(name: string) {
    IsToken(N(name))
  }

  predicate IsReserved(name: string) {
    name == "true" || name == "false" || name == "null"
  }

  /** The order of names. */
  predicate Less(a: string, b: string) {
    b != "" && (a == "" || a[0] < b[0] || (a[0] == b[0] && Less(a[1..], b[1..])))
  }

  predicate SortedByName(entries: seq<Entry>) {
    forall i, j :: 0 <= i < j < |entries| ==> Less(entries[i].name, entries[j].name)
  }

  /** Defaults contain no variables. */
  predicate ValueOk(v: Value, constant: bool) {
    match v
    case Variable(name) => !constant && IsName(name)
    case BigInt(n) => MAX_U64 < n <= MAX_U128
    case Int(n) => n <= MAX_U64
    case Float(literal) => IsToken(Token(FloatValue, literal)) && IsDigit(literal[|literal| - 1])
    case Str(text) => true
    case Boolean(b) => true
    case Null => true
    case Enum(name) => IsName(name) && !IsReserved(name)
    case List(items) => ValuesOk(items, constant)
    case Object(entries) => SortedByName(entries) && EntriesOk(entries, constant)
  }

  predicate ValuesOk(items: seq<Value>, constant: bool) {
    items == [] || (ValueOk(items[0], constant) && ValuesOk(items[1..], constant))
  }

  predicate EntriesOk(entries: seq<Entry>, constant: bool) {
    entries == [] || (IsName(entries[0].name) && ValueOk(entries[0].value, constant) && EntriesOk(entries[1..], constant))
  }

  predicate DirectivesOk(directives: seq<Directive>) {
    directives == []
    || (IsName(directives[0].name) && EntriesOk(directives[0].arguments, false) && DirectivesOk(directives[1..]))
  }

  /** A type is not marked as never null twice. */
  predicate TypeOk(t: Type) {
    match t
    case NamedType(name) => IsName(name)
    case ListType(inner) => TypeOk(inner)
    case NonNullType(inner) => !inner.NonNullType? && TypeOk(inner)
  }

  predicate SelectionOk(s: Selection)
    decreases s
  {
    match s
    case Field(alias, name, arguments, directives, items) =>
      (alias.Some? ==> IsName(alias.value)) && IsName(name) && EntriesOk(arguments, false) && DirectivesOk(directives)
      && SelectionsOk(items)
    case InlineFragment(on, directives, items) =>
      (on.Some? ==> IsName(on.value)) && DirectivesOk(directives) && items != [] && SelectionsOk(items)
    case FragmentSpread(name, directives) => IsName(name) && name != "on" && DirectivesOk(directives)
  }

  predicate SelectionsOk(items: seq<Selection>)
    decreases items
  {
    items == [] || (SelectionOk(items[0]) && SelectionsOk(items[1..]))
  }

  predicate VariablesOk(variables: seq<VariableDefinition>) {
    variables == []
    || (IsName(variables[0].name) && TypeOk(variables[0].varType)
        && (variables[0].defaultValue.Some? ==> ValueOk(variables[0].defaultValue.value, true))
        && VariablesOk(variables[1..]))
  }

  predicate DefinitionOk(d: Definition) {
    match d
    case SelectionSet(items) => items != [] && SelectionsOk(items)
    case Operation(_, name, variables, directives, items) =>
      (name.Some? ==> IsName(name.value)) && VariablesOk(variables) && DirectivesOk(directives)
      && items != [] && SelectionsOk(items)
    case Fragment(name, on, directives, items) =>
      IsName(name) && IsName(on) && DirectivesOk(directives) && items != [] && SelectionsOk(items)
  }

  predicate DefinitionsOk(d: Document) {
    d == [] || (DefinitionOk(d[0]) && DefinitionsOk(d[1..]))
  }

  predicate DocumentOk(d: Document) {
    d != [] && DefinitionsOk(d)
  }
}
