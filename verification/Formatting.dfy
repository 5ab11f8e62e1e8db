/** The printer: a buffer that grows, and an indentation that every display leaves as it found it. */
module Formatting {
  import opened Common
  import opened Lexer
  import opened Strings
  import opened BlockStrings
  import opened Syntax
  import opened Printing

  lemma TextOfOne(b: Bit)
    ensures BitsText([b]) == BitText(b)
  {
    assert [b][1..] == [];
  }

  class Formatter {
    var buf: string
    const style: Style
    var indent: nat

    /** What has been written, as tokens and blanks. */
    ghost var bits: seq<Bit>

    ghost predicate Valid()
      reads this
    {
      buf == BitsText(bits)
    }

    constructor (style: Style)
      ensures Valid() && bits == [] && indent == 0 && this.style == style && buf == ""
    {
      this.style := style;
      buf, indent, bits := "", 0, [];
    }

    // ----- the buffer -----

    method Write(s: string, ghost written: seq<Bit>)
      requires Valid() && BitsText(written) == s
      modifies `buf, `bits
      ensures Valid() && bits == old(bits) + written && buf == old(buf) + s
    {
      BitsTextAppend(bits, written);
      buf := buf + s;
      bits := bits + written;
    }

    method Put(token: Token)
      requires Valid()
      modifies `buf, `bits
      ensures Valid() && bits == old(bits) + [Tok(token)] && buf == old(buf) + token.value
    {
      TextOfOne(Tok(token));
      Write(token.value, [Tok(token)]);
    }

    method PutTwo(a: Token, b: Token)
      requires Valid()
      modifies `buf, `bits
      ensures Valid() && bits == old(bits) + [Tok(a), Tok(b)]
    {
      hide BitsText;
      Put(a);
      Put(b);
    }

    method Skip(gap: string)
      requires Valid()
      modifies `buf, `bits
      ensures Valid() && bits == old(bits) + [Gap(gap)] && buf == old(buf) + gap
    {
      TextOfOne(Gap(gap));
      Write(gap, [Gap(gap)]);
    }

    method Indent()
      requires Valid()
      modifies `buf, `bits
      ensures Valid() && bits == old(bits) + [Gap(Spaces(indent))]
    {
      var s := "";
      for k := 0 to indent
        invariant s == Spaces(k)
      {
        assert Spaces(k) + " " == Spaces(k + 1);
        s := s + " ";
      }
      Skip(s);
    }

    method EndLine()
      requires Valid()
      modifies `buf, `bits
      ensures Valid() && bits == old(bits) + [Gap("\n")]
    {
      Skip("\n");
    }

    method IncIndent()
      modifies `indent
      ensures indent == old(indent) + style.indent
    {
      indent := indent + style.indent;
    }

    /** A negative indentation would be a panic. */
    method DecIndent()
      requires indent >= style.indent
      modifies `indent
      ensures indent == old(indent) - style.indent
    {
      indent := indent - style.indent;
    }

    method StartArgumentBlock(open: char)
      requires Valid()
      modifies `buf, `bits, `indent
      ensures Valid() && bits == old(bits) + [Tok(P(open))] && indent == Inner(style, old(indent))
    {
      Put(P(open));
      if style.multiline {
        IncIndent();
      }
    }

    method EndArgumentBlock(close: char)
      requires Valid() && (style.multiline ==> indent >= style.indent)
      modifies `buf, `bits, `indent
      ensures Valid() && old(indent) == Inner(style, indent)
      ensures bits == old(bits) + (Break(style, indent) + [Tok(P(close))])
    {
      if style.multiline {
        EndLine();
        DecIndent();
        Indent();
      }
      Put(P(close));
    }

    method StartArgument()
      requires Valid()
      modifies `buf, `bits
      ensures Valid() && bits == old(bits) + Break(style, indent)
    {
      if style.multiline {
        EndLine();
        Indent();
      }
    }

    method DeliniateArgument()
      requires Valid()
      modifies `buf, `bits
      ensures Valid() && bits == old(bits) + Delimiter(style)
    {
      Skip(",");
      if !style.multiline {
        Skip(" ");
      }
    }

    method StartBlock()
      requires Valid()
      modifies `buf, `bits, `indent
      ensures Valid() && bits == old(bits) + [Tok(P('{')), Gap("\n")] && indent == old(indent) + style.indent
    {
      Put(P('{'));
      EndLine();
      IncIndent();
    }

    method EndBlock()
      requires Valid() && indent >= style.indent
      modifies `buf, `bits, `indent
      ensures Valid() && indent == old(indent) - style.indent && bits == old(bits) + BlockEnd(indent)
      ensures buf != ""
    {
      DecIndent();
      Indent();
      Put(P('}'));
      EndLine();
      BitsTextAppend(bits[..|bits| - 1], [Gap("\n")]);
      TextOfOne(Gap("\n"));
      assert bits == bits[..|bits| - 1] + [Gap("\n")];
    }

    method Margin()
      requires Valid()
      modifies `buf, `bits
      ensures Valid() && bits == old(bits) + if old(buf) == "" then [] else [Gap("\n")]
    {
      if buf != "" {
        Skip("\n");
      }
    }

    // ----- strings -----

    method WriteQuoted(s: string)
      requires Valid()
      modifies `buf, `bits
      ensures Valid() && bits == old(bits) + [Tok(StringToken(s, style, indent))]
    {
      hide BitsText, HasNonprintable;
      var hasNewline, hasNonprintable := Survey(s);
      if !hasNewline || hasNonprintable {
        var text := EscapeAll(s);
        Put(Token(StringValue, "\"" + text + "\""));
      } else {
        var text := BlockLines(Lines(s));
        var closing := Spaces(indent);
        Put(Token(BlockString, TRIPLE + ("\n" + text + closing) + TRIPLE));
      }
    }

    method Survey(s: string) returns (hasNewline: bool, hasNonprintable: bool)
      ensures hasNewline <==> '\n' in s
      ensures hasNonprintable <==> HasNonprintable(s)
    {
      hide HasNonprintable;
      hasNewline, hasNonprintable := false, false;
      NothingUnprintable();
      for k := 0 to |s|
        invariant hasNewline <==> '\n' in s[..k]
        invariant hasNonprintable <==> HasNonprintable(s[..k])
      {
        NonprintableSnoc(s, k);
        if s[k] == '\n' {
          hasNewline := true;
        } else if !Plain(s[k]) {
          hasNonprintable := true;
        }
      }
      assert s[..|s|] == s;
    }

    method EscapeAll(s: string) returns (text: string)
      ensures text == Escaped(s)
    {
      text := "";
      assert s[0..] == s;
      for k := 0 to |s|
        invariant text + Escaped(s[k..]) == Escaped(s)
      {
        assert s[k..][1..] == s[k + 1..];
        assert text + Escape(s[k]) + Escaped(s[k + 1..]) == text + (Escape(s[k]) + Escaped(s[k + 1..]));
        text := text + Escape(s[k]);
      }
      assert s[|s|..] == "";
    }

    method BlockLines(lines: seq<string>) returns (text: string)
      ensures text == BlockBody(lines, indent + style.indent)
    {
      text := "";
      var inner := indent + style.indent;
      assert lines[0..] == lines;
      for k := 0 to |lines|
        invariant text + BlockBody(lines[k..], inner) == BlockBody(lines, inner)
      {
        var line := LineText(lines[k], inner);
        assert lines[k..][1..] == lines[k + 1..];
        assert text + line + BlockBody(lines[k + 1..], inner) == text + (line + BlockBody(lines[k + 1..], inner));
        text := text + line;
      }
      assert lines[|lines|..] == [];
    }

    // ----- values -----

    method DisplayValue(v: Value)
      requires Valid()
      modifies `buf, `bits, `indent
      ensures Valid() && indent == old(indent) && bits == old(bits) + ValueBits(v, style, old(indent))
      decreases v, 1
    {
      hide BitsText, StringToken, Digits, EntriesBits, ItemsBits, Break;
      match v {
        case Variable(name) => PutTwo(P('$'), N(name));
        case BigInt(n) => Put(Token(BigIntValue, Digits(n)));
        case Int(n) => Put(Token(IntValue, Digits(n)));
        case Float(literal) => Put(Token(FloatValue, literal));
        case Str(text) => WriteQuoted(text);
        case Boolean(b) => Put(N(if b then "true" else "false"));
        case Null => Put(N("null"));
        case Enum(name) => Put(N(name));
        case List(items) =>
          StartArgumentBlock('[');
          DisplayItems(items);
          EndArgumentBlock(']');
          Bracketed(old(bits), [Tok(P('['))], ItemsBits(items, style, Inner(style, indent), true),
                    Break(style, indent) + [Tok(P(']'))]);
        case Object(entries) =>
          StartArgumentBlock('{');
          DisplayEntries(entries);
          EndArgumentBlock('}');
          Bracketed(old(bits), [Tok(P('{'))], EntriesBits(entries, style, Inner(style, indent), true),
                    Break(style, indent) + [Tok(P('}'))]);
      }
    }

    method StartItem(first: bool)
      requires Valid()
      modifies `buf, `bits
      ensures Valid() && bits == old(bits) + Between(style, first, indent)
    {
      hide BitsText;
      if !first {
        DeliniateArgument();
      }
      StartArgument();
    }

    method DisplayItems(items: seq<Value>)
      requires Valid()
      modifies `buf, `bits, `indent
      ensures Valid() && indent == old(indent)
      ensures bits == old(bits) + ItemsBits(items, style, indent, true)
      decreases items
    {
      hide BitsText, ValueBits, Between;
      ghost var start, inner := bits, indent;
      assert items[0..] == items;
      for k := 0 to |items|
        invariant Valid() && indent == inner
        invariant bits + ItemsBits(items[k..], style, inner, k == 0) == start + ItemsBits(items, style, inner, true)
      {
        ghost var before := bits;
        assert items[k..][1..] == items[k + 1..];
        StartItem(k == 0);
        DisplayValue(items[k]);
        Regroup(before, Between(style, k == 0, inner), ValueBits(items[k], style, inner),
                ItemsBits(items[k + 1..], style, inner, false));
      }
      assert items[|items|..] == [];
    }

    /** The entries of an object or the arguments of a field, without the brackets. */
    method DisplayEntries(entries: seq<Entry>)
      requires Valid()
      modifies `buf, `bits, `indent
      ensures Valid() && indent == old(indent) && bits == old(bits) + EntriesBits(entries, style, indent, true)
      decreases entries
    {
      hide BitsText, ValueBits, NamedBits;
      ghost var start, inner := bits, indent;
      assert entries[0..] == entries;
      for k := 0 to |entries|
        invariant Valid() && indent == inner
        invariant bits + EntriesBits(entries[k..], style, inner, k == 0) == start + EntriesBits(entries, style, inner, true)
      {
        ghost var before := bits;
        assert entries[k..][1..] == entries[k + 1..];
        StartItem(k == 0);
        DisplayName(entries[k].name);
        DisplayValue(entries[k].value);
        Regroup4(before, Between(style, k == 0, inner), NamedBits(entries[k].name),
                 ValueBits(entries[k].value, style, inner), EntriesBits(entries[k + 1..], style, inner, false));
      }
      assert entries[|entries|..] == [];
    }

    method DisplayName(name: string)
      requires Valid()
      modifies `buf, `bits
      ensures Valid() && bits == old(bits) + NamedBits(name)
    {
      Put(N(name));
      Put(P(':'));
      Skip(" ");
    }

    method FormatArguments(arguments: seq<Entry>)
      requires Valid()
      modifies `buf, `bits, `indent
      ensures Valid() && indent == old(indent) && bits == old(bits) + ArgumentsBits(arguments, style, indent)
    {
      hide BitsText, EntriesBits, Break;
      if arguments != [] {
        StartArgumentBlock('(');
        DisplayEntries(arguments);
        EndArgumentBlock(')');
        Bracketed(old(bits), [Tok(P('('))], EntriesBits(arguments, style, Inner(style, indent), true),
                  Break(style, indent) + [Tok(P(')'))]);
      }
    }

    // ----- directives and types -----

    method FormatDirectives(directives: seq<Directive>)
      requires Valid()
      modifies `buf, `bits, `indent
      ensures Valid() && indent == old(indent) && bits == old(bits) + DirectivesBits(directives, style, indent)
    {
      hide BitsText, ArgumentsBits;
      ghost var start, i := bits, indent;
      assert directives[0..] == directives;
      for k := 0 to |directives|
        invariant Valid() && indent == i
        invariant bits + DirectivesBits(directives[k..], style, i) == start + DirectivesBits(directives, style, i)
      {
        ghost var before := bits;
        var d := directives[k];
        assert directives[k..][1..] == directives[k + 1..];
        Skip(" ");
        Put(P('@'));
        Put(N(d.name));
        FormatArguments(d.arguments);
        Regroup(before, [Gap(" "), Tok(P('@')), Tok(N(d.name))], ArgumentsBits(d.arguments, style, i),
                DirectivesBits(directives[k + 1..], style, i));
      }
      assert directives[|directives|..] == [];
    }

    method DisplayType(t: Type)
      requires Valid()
      modifies `buf, `bits
      ensures Valid() && bits == old(bits) + TypeBits(t)
      decreases t
    {
      match t {
        case NamedType(name) => Put(N(name));
        case ListType(inner) =>
          Put(P('['));
          DisplayType(inner);
          Put(P(']'));
        case NonNullType(inner) =>
          DisplayType(inner);
          Put(P('!'));
      }
    }

    // ----- selections -----

    method DisplaySelection(s: Selection)
      requires Valid()
      modifies `buf, `bits, `indent
      ensures Valid() && indent == old(indent) && bits == old(bits) + SelectionBits(s, style, indent)
      decreases s, 1
    {
      hide BitsText, DirectivesBits;
      match s {
        case Field(alias, name, arguments, directives, items) =>
          DisplayField(alias, name, arguments, directives, items);
        case InlineFragment(on, directives, items) => DisplayInline(on, directives, items);
        case FragmentSpread(name, directives) =>
          DisplaySpreadHead(name);
          FormatDirectives(directives);
          EndLine();
          Regroup(old(bits), [Gap(Spaces(indent)), Tok(SPREAD), Tok(N(name))], DirectivesBits(directives, style, indent),
                  [Gap("\n")]);
      }
    }

    method DisplaySpreadHead(name: string)
      requires Valid()
      modifies `buf, `bits
      ensures Valid() && bits == old(bits) + [Gap(Spaces(indent)), Tok(SPREAD), Tok(N(name))]
    {
      hide BitsText;
      Indent();
      PutTwo(SPREAD, N(name));
    }

    method DisplayFieldHead(alias: Option<string>, name: string)
      requires Valid()
      modifies `buf, `bits
      ensures Valid() && bits == old(bits) + [Gap(Spaces(indent))] + AliasBits(alias) + [Tok(N(name))]
    {
      hide BitsText, NamedBits;
      Indent();
      if alias.Some? {
        DisplayName(alias.value);
      }
      Put(N(name));
    }

    /** The set of a field, or the end of its line. */
    method DisplayEnding(items: seq<Selection>)
      requires Valid()
      modifies `buf, `bits, `indent
      ensures Valid() && indent == old(indent)
      ensures bits == old(bits) + if items == [] then [Gap("\n")] else [Gap(" ")] + BlockBits(items, style, indent)
      decreases items, 2
    {
      hide BitsText, BlockBits;
      if items != [] {
        Skip(" ");
        DisplayBlock(items);
      } else {
        EndLine();
      }
    }

    method DisplayField(alias: Option<string>, name: string, arguments: seq<Entry>, directives: seq<Directive>,
                        items: seq<Selection>)
      requires Valid()
      modifies `buf, `bits, `indent
      ensures Valid() && indent == old(indent)
      ensures bits == old(bits) + SelectionBits(Field(alias, name, arguments, directives, items), style, indent)
      decreases items, 3
    {
      hide BitsText, ArgumentsBits, DirectivesBits, SelectionsBits, AliasBits, Spaces;
      ghost var i := indent;
      ghost var block := if items == [] then [Gap("\n")] else [Gap(" ")] + BlockBits(items, style, i);
      DisplayFieldHead(alias, name);
      FormatArguments(arguments);
      FormatDirectives(directives);
      DisplayEnding(items);
      Regroup6(old(bits), [Gap(Spaces(i))], AliasBits(alias), [Tok(N(name))], ArgumentsBits(arguments, style, i),
               DirectivesBits(directives, style, i), block);
    }

    method DisplayInlineHead(on: Option<string>)
      requires Valid()
      modifies `buf, `bits
      ensures Valid() && bits == old(bits) + [Gap(Spaces(indent)), Tok(SPREAD)] + OnBits(on)
    {
      hide BitsText;
      Indent();
      Put(SPREAD);
      ghost var before := bits;
      if on.Some? {
        Skip(" ");
        DisplayTypeCondition(on.value);
        assert bits == before + [Gap(" "), Tok(N("on")), Gap(" "), Tok(N(on.value))];
      }
    }

    method DisplayInline(on: Option<string>, directives: seq<Directive>, items: seq<Selection>)
      requires Valid()
      modifies `buf, `bits, `indent
      ensures Valid() && indent == old(indent)
      ensures bits == old(bits) + SelectionBits(InlineFragment(on, directives, items), style, indent)
      decreases items, 2
    {
      hide BitsText, DirectivesBits, SelectionsBits, OnBits, Spaces;
      ghost var i := indent;
      DisplayInlineHead(on);
      FormatDirectives(directives);
      Skip(" ");
      DisplayBlock(items);
      Regroup5(old(bits), [Gap(Spaces(i)), Tok(SPREAD)], OnBits(on), DirectivesBits(directives, style, i), [Gap(" ")],
               BlockBits(items, style, i));
    }

    method DisplayTypeCondition(on: string)
      requires Valid()
      modifies `buf, `bits
      ensures Valid() && bits == old(bits) + [Tok(N("on")), Gap(" "), Tok(N(on))]
    {
      hide BitsText;
      Put(N("on"));
      Skip(" ");
      Put(N(on));
    }

    method DisplayBlock(items: seq<Selection>)
      requires Valid()
      modifies `buf, `bits, `indent
      ensures Valid() && indent == old(indent) && bits == old(bits) + BlockBits(items, style, indent)
      ensures buf != ""
      decreases items, 1
    {
      hide BitsText, SelectionBits;
      StartBlock();
      ghost var start, inner := bits, indent;
      assert items[0..] == items;
      for k := 0 to |items|
        invariant Valid() && indent == inner
        invariant bits + SelectionsBits(items[k..], style, inner) == start + SelectionsBits(items, style, inner)
      {
        ghost var before := bits;
        assert items[k..][1..] == items[k + 1..];
        DisplaySelection(items[k]);
        assert before + (SelectionBits(items[k], style, inner) + SelectionsBits(items[k + 1..], style, inner))
            == before + SelectionBits(items[k], style, inner) + SelectionsBits(items[k + 1..], style, inner);
      }
      assert items[|items|..] == [];
      EndBlock();
      Regroup(old(bits), [Tok(P('{')), Gap("\n")], SelectionsBits(items, style, inner), BlockEnd(indent));
    }

    // ----- definitions -----

    method DisplayVariable(v: VariableDefinition)
      requires Valid()
      modifies `buf, `bits, `indent
      ensures Valid() && indent == old(indent) && bits == old(bits) + VariableBits(v, style, indent)
    {
      hide BitsText, TypeBits, ValueBits;
      Put(P('$'));
      Put(N(v.name));
      Put(P(':'));
      Skip(" ");
      DisplayType(v.varType);
      ghost var before := bits;
      if v.defaultValue.Some? {
        Skip(" ");
        Put(P('='));
        Skip(" ");
        DisplayValue(v.defaultValue.value);
      }
      assert bits == before + DefaultBits(v.defaultValue, style, indent);
      Regroup(old(bits), [Tok(P('$')), Tok(N(v.name)), Tok(P(':')), Gap(" ")], TypeBits(v.varType),
              DefaultBits(v.defaultValue, style, indent));
    }

    /** Queries and mutations write commas between their variables, subscriptions do not. */
    method DisplayVariables(variables: seq<VariableDefinition>, commas: bool)
      requires Valid()
      modifies `buf, `bits, `indent
      ensures Valid() && indent == old(indent)
      ensures bits == old(bits) + VariablesBits(variables, style, indent, commas, true)
    {
      hide BitsText, VariableBits;
      ghost var start, i := bits, indent;
      assert variables[0..] == variables;
      for k := 0 to |variables|
        invariant Valid() && indent == i
        invariant bits + VariablesBits(variables[k..], style, i, commas, k == 0)
               == start + VariablesBits(variables, style, i, commas, true)
      {
        ghost var before := bits;
        assert variables[k..][1..] == variables[k + 1..];
        if k > 0 && commas {
          Skip(",");
          Skip(" ");
        }
        DisplayVariable(variables[k]);
        Regroup(before, if k == 0 || !commas then [] else [Gap(","), Gap(" ")], VariableBits(variables[k], style, i),
                VariablesBits(variables[k + 1..], style, i, commas, false));
      }
      assert variables[|variables|..] == [];
    }

    method DisplayVariableBlock(kind: OperationKind, name: Option<string>, variables: seq<VariableDefinition>)
      requires Valid()
      modifies `buf, `bits, `indent
      ensures Valid() && indent == old(indent)
      ensures bits == old(bits) + VariableBlockBits(kind, name, variables, style, indent)
    {
      hide BitsText, VariablesBits;
      if variables != [] && (kind != Subscription || name.Some?) {
        Put(P('('));
        DisplayVariables(variables, kind != Subscription);
        Put(P(')'));
        Regroup(old(bits), [Tok(P('('))], VariablesBits(variables, style, indent, kind != Subscription, true),
                [Tok(P(')'))]);
      }
    }

    method DisplayOperationHead(kind: OperationKind, name: Option<string>)
      requires Valid()
      modifies `buf, `bits
      ensures Valid() && bits == old(bits) + [Gap(Spaces(indent)), Tok(N(Keyword(kind)))] + NameBits(name)
    {
      hide BitsText, Keyword;
      Indent();
      Put(N(Keyword(kind)));
      if name.Some? {
        Skip(" ");
        Put(N(name.value));
      }
    }

    method DisplayOperation(kind: OperationKind, name: Option<string>, variables: seq<VariableDefinition>,
                            directives: seq<Directive>, items: seq<Selection>)
      requires Valid() && indent == 0
      modifies `buf, `bits, `indent
      ensures Valid() && indent == 0 && buf != ""
      ensures bits == old(bits) + DefinitionBits(Operation(kind, name, variables, directives, items), style)
    {
      hide BitsText, VariableBlockBits, DirectivesBits, BlockBits, Keyword, NameBits, Spaces;
      DisplayOperationHead(kind, name);
      DisplayVariableBlock(kind, name, variables);
      FormatDirectives(directives);
      Skip(" ");
      DisplayBlock(items);
      Regroup6(old(bits), [Gap(Spaces(0)), Tok(N(Keyword(kind)))], NameBits(name),
               VariableBlockBits(kind, name, variables, style, 0), DirectivesBits(directives, style, 0),
               [Gap(" ")], BlockBits(items, style, 0));
    }

    method DisplayFragmentHead(name: string, on: string)
      requires Valid()
      modifies `buf, `bits
      ensures Valid()
      ensures bits == old(bits) + [Gap(Spaces(indent)), Tok(N("fragment")), Gap(" "), Tok(N(name)), Gap(" "), Tok(N("on")),
                                   Gap(" "), Tok(N(on))]
    {
      hide BitsText, Spaces;
      Indent();
      Put(N("fragment"));
      Skip(" ");
      Put(N(name));
      ghost var before := bits;
      Skip(" ");
      DisplayTypeCondition(on);
      assert before == old(bits) + [Gap(Spaces(indent)), Tok(N("fragment")), Gap(" "), Tok(N(name))];
      assert bits == before + [Gap(" "), Tok(N("on")), Gap(" "), Tok(N(on))];
    }

    method DisplayFragment(name: string, on: string, directives: seq<Directive>, items: seq<Selection>)
      requires Valid() && indent == 0
      modifies `buf, `bits, `indent
      ensures Valid() && indent == 0 && buf != ""
      ensures bits == old(bits) + DefinitionBits(Fragment(name, on, directives, items), style)
    {
      hide BitsText, DirectivesBits, BlockBits, Spaces;
      ghost var head :=
        [Gap(Spaces(0)), Tok(N("fragment")), Gap(" "), Tok(N(name)), Gap(" "), Tok(N("on")), Gap(" "), Tok(N(on))];
      DisplayFragmentHead(name, on);
      FormatDirectives(directives);
      Skip(" ");
      DisplayBlock(items);
      Regroup4(old(bits), head, DirectivesBits(directives, style, 0), [Gap(" ")], BlockBits(items, style, 0));
    }

    method DisplayDefinition(d: Definition)
      requires Valid() && indent == 0
      modifies `buf, `bits, `indent
      ensures Valid() && indent == 0 && buf != ""
      ensures bits == old(bits) + (if old(buf) == "" then [] else [Gap("\n")]) + DefinitionBits(d, style)
    {
      hide BitsText, BlockBits;
      Margin();
      match d {
        case SelectionSet(items) =>
          Indent();
          DisplayBlock(items);
        case Operation(kind, name, variables, directives, items) =>
          DisplayOperation(kind, name, variables, directives, items);
        case Fragment(name, on, directives, items) => DisplayFragment(name, on, directives, items);
      }
    }

    method DisplayDocument(document: Document)
      requires Valid() && indent == 0 && buf == "" && bits == []
      modifies `buf, `bits, `indent
      ensures Valid() && indent == 0 && bits == DocumentBits(document, style)
    {
      hide BitsText, DefinitionBits;
      assert document[0..] == document;
      for k := 0 to |document|
        invariant Valid() && indent == 0 && (buf == "" <==> k == 0)
        invariant bits + DefinitionsBits(document[k..], style, k == 0) == DefinitionsBits(document, style, true)
      {
        ghost var before := bits;
        assert document[k..][1..] == document[k + 1..];
        DisplayDefinition(document[k]);
        Regroup(before, if k == 0 then [] else [Gap("\n")], DefinitionBits(document[k], style),
                DefinitionsBits(document[k + 1..], style, false));
      }
      assert document[|document|..] == [];
    }
  }

  /** Formats a document according to a style. */
  method Format(document: Document, style: Style) returns (text: string)
    ensures text == Printed(document, style)
  {
    var formatter := new Formatter(style);
    formatter.DisplayDocument(document);
    text := formatter.buf;
  }

  lemma NothingUnprintable()
    ensures !HasNonprintable("")
  {
  }

  lemma NonprintableSnoc(s: string, k: nat)
    requires k < |s|
    ensures HasNonprintable(s[..k + 1]) <==> HasNonprintable(s[..k]) || (s[k] != '\n' && !Plain(s[k]))
    ensures '\n' in s[..k + 1] <==> '\n' in s[..k] || s[k] == '\n'
  {
    assert s[..k + 1] == s[..k] + [s[k]];
    if HasNonprintable(s[..k]) {
      var i :| 0 <= i < |s[..k]| && s[..k][i] != '\n' && !Plain(s[..k][i]);
      assert s[..k + 1][i] == s[..k][i];
    }
    if HasNonprintable(s[..k + 1]) {
      var i :| 0 <= i < |s[..k + 1]| && s[..k + 1][i] != '\n' && !Plain(s[..k + 1][i]);
      if i < k {
        assert s[..k][i] == s[..k + 1][i];
      }
    }
    if s[k] != '\n' && !Plain(s[k]) {
      assert s[..k + 1][k] == s[k];
    }
  }

  lemma Regroup(before: seq<Bit>, a: seq<Bit>, b: seq<Bit>, c: seq<Bit>)
    ensures before + (a + (b + c)) == before + a + b + c
  {
  }

  lemma Bracketed(before: seq<Bit>, a: seq<Bit>, b: seq<Bit>, c: seq<Bit>)
    ensures before + (a + b + c) == before + a + b + c
  {
  }

  lemma Regroup5(before: seq<Bit>, a: seq<Bit>, b: seq<Bit>, c: seq<Bit>, d: seq<Bit>, e: seq<Bit>)
    ensures before + (a + (b + (c + (d + e)))) == before + a + b + c + d + e
  {
    Regroup4(before + a, b, c, d, e);
    assert before + (a + (b + (c + (d + e)))) == before + a + (b + (c + (d + e)));
  }

  lemma Regroup6(before: seq<Bit>, a: seq<Bit>, b: seq<Bit>, c: seq<Bit>, d: seq<Bit>, e: seq<Bit>, f: seq<Bit>)
    ensures before + (a + (b + (c + (d + (e + f))))) == before + a + b + c + d + e + f
  {
    Regroup5(before + a, b, c, d, e, f);
    assert before + (a + (b + (c + (d + (e + f))))) == before + a + (b + (c + (d + (e + f))));
  }

  lemma Regroup4(before: seq<Bit>, a: seq<Bit>, b: seq<Bit>, c: seq<Bit>, d: seq<Bit>)
    ensures before + (a + (b + (c + d))) == before + a + b + c + d
  {
  }
}
