/** What the printer writes for a document, as tokens and the blanks between them. */
module Printing {
  import opened Common
  import opened Lexer
  import opened Strings
  import opened BlockStrings
  import opened Syntax

  datatype Style = Style(indent: nat, multiline: bool)

  datatype Bit = Tok(token: Token) | Gap(text: string)

  function BitText(b: Bit): string {
    if b.Tok? then b.token.value else b.text
  }

  function BitsText(bits: seq<Bit>): string {
    if bits == [] then "" else BitText(bits[0]) + BitsText(bits[1..])
  }

  lemma {:induction false} BitsTextAppend(a: seq<Bit>, b: seq<Bit>)
    ensures BitsText(a + b) == BitsText(a) + BitsText(b)
  {
    if a == [] {
      assert a + b == b;
    } else {
      assert (a + b)[1..] == a[1..] + b;
      BitsTextAppend(a[1..], b);
    }
  }

  // ----- values -----

  /** A string with newlines and nothing unprintable is written as a block, at the current indentation. */
  function StringToken(text: string, style: Style, i: nat): Token {
    if TakesQuotes(text) then Token(StringValue, Quote(text))
    else Token(BlockString, BlockText(text, i, style.indent))
  }

  function Inner(style: Style, i: nat): nat {
    if style.multiline then i + style.indent else i
  }

  /** The line break before an argument. */
  function Break(style: Style, i: nat): seq<Bit> {
    if style.multiline then [Gap("\n"), Gap(Spaces(i))] else []
  }

  function Delimiter(style: Style): seq<Bit> {
    if style.multiline then [Gap(",")] else [Gap(","), Gap(" ")]
  }

  function ValueBits(v: Value, style: Style, i: nat): seq<Bit>
    decreases v
  {
    match v
    case Variable(name) => [Tok(P('$')), Tok(N(name))]
    case BigInt(n) => [Tok(Token(BigIntValue, Digits(n)))]
    case Int(n) => [Tok(Token(IntValue, Digits(n)))]
    case Float(literal) => [Tok(Token(FloatValue, literal))]
    case Str(text) => [Tok(StringToken(text, style, i))]
    case Boolean(b) => [Tok(N(if b then "true" else "false"))]
    case Null => [Tok(N("null"))]
    case Enum(name) => [Tok(N(name))]
    case List(items) =>
      [Tok(P('['))] + ItemsBits(items, style, Inner(style, i), true) + (Break(style, i) + [Tok(P(']'))])
    case Object(entries) =>
      [Tok(P('{'))] + EntriesBits(entries, style, Inner(style, i), true) + (Break(style, i) + [Tok(P('}'))])
  }

  function Between(style: Style, first: bool, i: nat): seq<Bit> {
    (if first then [] else Delimiter(style)) + Break(style, i)
  }

  function ItemsBits(items: seq<Value>, style: Style, i: nat, first: bool): seq<Bit>
    decreases items
  {
    if items == [] then []
    else Between(style, first, i) + (ValueBits(items[0], style, i) + ItemsBits(items[1..], style, i, false))
  }

  function NamedBits(name: string): seq<Bit> {
    [Tok(N(name)), Tok(P(':')), Gap(" ")]
  }

  function EntriesBits(entries: seq<Entry>, style: Style, i: nat, first: bool): seq<Bit>
    decreases entries
  {
    if entries == [] then []
    else
      Between(style, first, i)
      + (NamedBits(entries[0].name)
         + (ValueBits(entries[0].value, style, i) + EntriesBits(entries[1..], style, i, false)))
  }

  function ArgumentsBits(arguments: seq<Entry>, style: Style, i: nat): seq<Bit> {
    if arguments == [] then []
    else [Tok(P('('))] + EntriesBits(arguments, style, Inner(style, i), true) + (Break(style, i) + [Tok(P(')'))])
  }

  // ----- directives and types -----

  function DirectivesBits(directives: seq<Directive>, style: Style, i: nat): seq<Bit> {
    if directives == [] then []
    else
      [Gap(" "), Tok(P('@')), Tok(N(directives[0].name))]
      + (ArgumentsBits(directives[0].arguments, style, i) + DirectivesBits(directives[1..], style, i))
  }

  function TypeBits(t: Type): seq<Bit> {
    match t
    case NamedType(name) => [Tok(N(name))]
    case ListType(inner) => [Tok(P('['))] + TypeBits(inner) + [Tok(P(']'))]
    case NonNullType(inner) => TypeBits(inner) + [Tok(P('!'))]
  }

  // ----- selections -----

  function BlockEnd(i: nat): seq<Bit> {
    [Gap(Spaces(i)), Tok(P('}')), Gap("\n")]
  }

  function AliasBits(alias: Option<string>): seq<Bit> {
    if alias.Some? then NamedBits(alias.value) else []
  }

  function OnBits(on: Option<string>): seq<Bit> {
    if on.Some? then [Gap(" "), Tok(N("on")), Gap(" "), Tok(N(on.value))] else []
  }

  function SelectionBits(s: Selection, style: Style, i: nat): seq<Bit>
    decreases s
  {
    match s
    case Field(alias, name, arguments, directives, items) =>
      [Gap(Spaces(i))]
      + (AliasBits(alias)
         + ([Tok(N(name))]
            + (ArgumentsBits(arguments, style, i)
               + (DirectivesBits(directives, style, i)
                  + (if items == [] then [Gap("\n")]
                     else [Gap(" ")] + ([Tok(P('{')), Gap("\n")]
                                        + (SelectionsBits(items, style, i + style.indent) + BlockEnd(i))))))))
    case InlineFragment(on, directives, items) =>
      [Gap(Spaces(i)), Tok(SPREAD)]
      + (OnBits(on)
         + (DirectivesBits(directives, style, i)
            + ([Gap(" ")] + ([Tok(P('{')), Gap("\n")]
                             + (SelectionsBits(items, style, i + style.indent) + BlockEnd(i))))))
    case FragmentSpread(name, directives) =>
      [Gap(Spaces(i)), Tok(SPREAD), Tok(N(name))] + (DirectivesBits(directives, style, i) + [Gap("\n")])
  }

  function SelectionsBits(items: seq<Selection>, style: Style, i: nat): seq<Bit>
    decreases items
  {
    if items == [] then [] else SelectionBits(items[0], style, i) + SelectionsBits(items[1..], style, i)
  }

  function BlockBits(items: seq<Selection>, style: Style, i: nat): seq<Bit> {
    [Tok(P('{')), Gap("\n")] + (SelectionsBits(items, style, i + style.indent) + BlockEnd(i))
  }

  // ----- definitions -----

  function DefaultBits(v: Option<Value>, style: Style, i: nat): seq<Bit> {
    if v.Some? then [Gap(" "), Tok(P('=')), Gap(" ")] + ValueBits(v.value, style, i) else []
  }

  function VariableBits(v: VariableDefinition, style: Style, i: nat): seq<Bit> {
    [Tok(P('$')), Tok(N(v.name)), Tok(P(':')), Gap(" ")] + (TypeBits(v.varType) + DefaultBits(v.defaultValue, style, i))
  }

  /** The variables of a subscription are written without commas. */
  function VariablesBits(variables: seq<VariableDefinition>, style: Style, i: nat, commas: bool, first: bool): seq<Bit> {
    if variables == [] then []
    else
      (if first || !commas then [] else [Gap(","), Gap(" ")])
      + (VariableBits(variables[0], style, i) + VariablesBits(variables[1..], style, i, commas, false))
  }

  function VariableBlockBits(kind: OperationKind, name: Option<string>, variables: seq<VariableDefinition>,
                             style: Style, i: nat): seq<Bit>
  {
    var written := WrittenVariables(kind, name, variables);
    if written == [] then []
    else [Tok(P('('))] + (VariablesBits(written, style, i, kind != Subscription, true) + [Tok(P(')'))])
  }

  function NameBits(name: Option<string>): seq<Bit> {
    if name.Some? then [Gap(" "), Tok(N(name.value))] else []
  }

  function DefinitionBits(d: Definition, style: Style): seq<Bit> {
    match d
    case SelectionSet(items) => [Gap(Spaces(0))] + BlockBits(items, style, 0)
    case Operation(kind, name, variables, directives, items) =>
      [Gap(Spaces(0)), Tok(N(Keyword(kind)))]
      + (NameBits(name)
         + (VariableBlockBits(kind, name, variables, style, 0)
            + (DirectivesBits(directives, style, 0) + ([Gap(" ")] + BlockBits(items, style, 0)))))
    case Fragment(name, on, directives, items) =>
      [Gap(Spaces(0)), Tok(N("fragment")), Gap(" "), Tok(N(name)), Gap(" "), Tok(N("on")), Gap(" "), Tok(N(on))]
      + (DirectivesBits(directives, style, 0) + ([Gap(" ")] + BlockBits(items, style, 0)))
  }

  /** An empty line goes before every definition but the first. */
  function DefinitionsBits(d: Document, style: Style, first: bool): seq<Bit> {
    if d == [] then []
    else (if first then [] else [Gap("\n")]) + (DefinitionBits(d[0], style) + DefinitionsBits(d[1..], style, false))
  }

  function DocumentBits(d: Document, style: Style): seq<Bit> {
    DefinitionsBits(d, style, true)
  }

  /** The document as text. */
  function Printed(d: Document, style: Style): string {
    BitsText(DocumentBits(d, style))
  }
}
