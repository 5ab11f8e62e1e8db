/** The tree a printed document stands for: every string that is written as a block replaced by what the block is read
    back as. */
module WrittenTrees {
  import opened Common
  import opened Strings
  import opened StringFacts
  import opened BlockStrings
  import opened BlockRereads
  import opened Syntax
  import opened Grammar
  import opened Printing
  import opened Reparse
  import opened Nesting
  import opened SameReading
  import opened Lexer

  // ----- one string -----

  /** Only a block whose closing quotes stand at the margin may lose a blank last line. */
  function TextWritten(text: string, i: nat): string {
    if TakesQuotes(text) then text else BlockBack(text, i == 0)
  }

  lemma {:induction false} EndedChars(lines: seq<string>, c: char)
    requires c in Ended(lines) && c != '\n'
    ensures exists i :: 0 <= i < |lines| && c in lines[i]
  {
    if c !in lines[0] {
      EndedChars(lines[1..], c);
      var i :| 0 <= i < |lines[1..]| && c in lines[1..][i];
      assert c in lines[i + 1];
    }
  }

  lemma {:induction false} LinesChars(s: string, i: nat, c: char)
    requires i < |Lines(s)| && c in Lines(s)[i]
    ensures c in s
    decreases |s|
  {
    var n := LineEnd(s, 0);
    if i > 0 {
      LinesChars(s[n + 1..], i - 1, c);
    }
  }

  /** A block brings in no characters but newlines. */
  lemma {:induction false} BackChars(s: string, margin: bool, c: char)
    requires c in BlockBack(s, margin)
    ensures c == '\n' || c in s
  {
    if c != '\n' {
      var lines := KeptLines(Lines(s), margin);
      EndedChars(LinesBack(lines, Shared(Lines(s))), c);
      LinesBackAt(lines, Shared(Lines(s)));
      var i :| 0 <= i < |lines| && c in LinesBack(lines, Shared(Lines(s)))[i];
      LineBackChars(lines[i], Shared(Lines(s)), c);
      LinesChars(s, i, c);
    }
  }

  lemma LineBackChars(line: string, common: nat, c: char)
    requires c in LineBack(line, common)
    ensures c in line
  {
    hide Blank;
  }

  /** What a block is read back as is read back unchanged when written between quotes. */
  lemma {:induction false} BlockSurvives(text: string, margin: bool)
    requires !TakesQuotes(text)
    ensures MangledAll(BlockBack(text, margin)) == BlockBack(text, margin)
  {
    var back := BlockBack(text, margin);
    forall i | 0 <= i < |back| ensures Survives(back[i]) {
      BackChars(text, margin, back[i]);
      assert back[i] in text ==> exists k :: 0 <= k < |text| && text[k] == back[i];
    }
    UnmangledIff(back);
  }

  /** The token of a string means what the quoted token of the written string means. */
  lemma {:induction false} StringMeans(text: string, style: Style, i: nat)
    ensures SameToken(StringToken(text, style, i), Token(StringValue, Quote(TextWritten(text, i))))
  {
    if !TakesQuotes(text) {
      hide BlockText, BlockBack, Quote, MangledAll, ParsePlain, TakesQuotes;
      BlockPlain(text, i, style.indent);
      BlockSurvives(text, i == 0);
      StringBack(BlockBack(text, i == 0));
    }
  }

  lemma {:induction false} BlockPlain(text: string, i: nat, step: nat)
    requires !TakesQuotes(text)
    ensures ParsePlain(Token(BlockString, BlockText(text, i, step))) == Some(Str(BlockBack(text, i == 0)))
  {
    BlockReads(text, i, step);
    BlockLength(text, i, step);
    hide UnquoteBlock, BlockText, BlockBack;
  }

  lemma BlockLength(text: string, i: nat, step: nat)
    ensures |BlockText(text, i, step)| >= 6
  {
  }

  // ----- trees -----

  function ValueWritten(v: Value, style: Style, i: nat): Value
    decreases v
  {
    match v
    case Str(text) => Str(TextWritten(text, i))
    case List(items) => List(ValuesWritten(items, style, Inner(style, i)))
    case Object(entries) => Object(EntriesWritten(entries, style, Inner(style, i)))
    case _ => v
  }

  function ValuesWritten(items: seq<Value>, style: Style, i: nat): (r: seq<Value>)
    ensures |r| == |items|
    decreases items
  {
    if items == [] then [] else [ValueWritten(items[0], style, i)] + ValuesWritten(items[1..], style, i)
  }

  function EntriesWritten(entries: seq<Entry>, style: Style, i: nat): (r: seq<Entry>)
    ensures |r| == |entries| && forall k :: 0 <= k < |r| ==> r[k].name == entries[k].name
    decreases entries
  {
    if entries == [] then []
    else [Entry(entries[0].name, ValueWritten(entries[0].value, style, i))] + EntriesWritten(entries[1..], style, i)
  }

  function ArgumentsWritten(arguments: seq<Entry>, style: Style, i: nat): seq<Entry> {
    EntriesWritten(arguments, style, Inner(style, i))
  }

  function DirectivesWritten(directives: seq<Directive>, style: Style, i: nat): (r: seq<Directive>)
    ensures |r| == |directives|
  {
    if directives == [] then []
    else
      [Directive(directives[0].name, ArgumentsWritten(directives[0].arguments, style, i))]
      + DirectivesWritten(directives[1..], style, i)
  }

  function SelectionWritten(s: Selection, style: Style, i: nat): Selection
    decreases s
  {
    match s
    case Field(alias, name, arguments, directives, items) =>
      Field(alias, name, ArgumentsWritten(arguments, style, i), DirectivesWritten(directives, style, i),
            SelectionsWritten(items, style, i + style.indent))
    case InlineFragment(on, directives, items) =>
      InlineFragment(on, DirectivesWritten(directives, style, i), SelectionsWritten(items, style, i + style.indent))
    case FragmentSpread(name, directives) => FragmentSpread(name, DirectivesWritten(directives, style, i))
  }

  function SelectionsWritten(items: seq<Selection>, style: Style, i: nat): (r: seq<Selection>)
    ensures |r| == |items|
    decreases items
  {
    if items == [] then [] else [SelectionWritten(items[0], style, i)] + SelectionsWritten(items[1..], style, i)
  }

  function VariableWritten(v: VariableDefinition, style: Style): VariableDefinition {
    match v.defaultValue
    case None => v
    case Some(default) => v.(defaultValue := Some(ValueWritten(default, style, 0)))
  }

  function VariablesWritten(variables: seq<VariableDefinition>, style: Style): (r: seq<VariableDefinition>)
    ensures |r| == |variables|
  {
    if variables == [] then [] else [VariableWritten(variables[0], style)] + VariablesWritten(variables[1..], style)
  }

  function DefinitionWritten(d: Definition, style: Style): Definition {
    match d
    case SelectionSet(items) => SelectionSet(SelectionsWritten(items, style, style.indent))
    case Operation(kind, name, variables, directives, items) =>
      Operation(kind, name, VariablesWritten(variables, style), DirectivesWritten(directives, style, 0),
                SelectionsWritten(items, style, style.indent))
    case Fragment(name, on, directives, items) =>
      Fragment(name, on, DirectivesWritten(directives, style, 0), SelectionsWritten(items, style, style.indent))
  }

  function DocumentWritten(d: Document, style: Style): (r: Document)
    ensures |r| == |d|
  {
    if d == [] then [] else [DefinitionWritten(d[0], style)] + DocumentWritten(d[1..], style)
  }

  // ----- it is such a tree, nested as deeply -----

  lemma {:induction false} ValueStays(v: Value, constant: bool, style: Style, i: nat)
    requires ValueOk(v, constant)
    ensures ValueOk(ValueWritten(v, style, i), constant) && ValueNest(ValueWritten(v, style, i)) == ValueNest(v)
    decreases v
  {
    match v {
      case List(items) => ValuesStay(items, constant, style, Inner(style, i));
      case Object(entries) => EntriesStay(entries, constant, style, Inner(style, i));
      case _ =>
    }
  }

  lemma {:induction false} ValuesStay(items: seq<Value>, constant: bool, style: Style, i: nat)
    requires ValuesOk(items, constant)
    ensures ValuesOk(ValuesWritten(items, style, i), constant) && ValuesNest(ValuesWritten(items, style, i)) == ValuesNest(items)
    decreases items
  {
    if items != [] {
      ValueStays(items[0], constant, style, i);
      ValuesStay(items[1..], constant, style, i);
      assert ValuesWritten(items, style, i)[1..] == ValuesWritten(items[1..], style, i);
    }
  }

  lemma {:induction false} EntriesStay(entries: seq<Entry>, constant: bool, style: Style, i: nat)
    requires EntriesOk(entries, constant)
    ensures EntriesOk(EntriesWritten(entries, style, i), constant)
    ensures EntriesNest(EntriesWritten(entries, style, i)) == EntriesNest(entries)
    ensures SortedByName(entries) ==> SortedByName(EntriesWritten(entries, style, i))
    decreases entries
  {
    if entries != [] {
      ValueStays(entries[0].value, constant, style, i);
      EntriesStay(entries[1..], constant, style, i);
      assert EntriesWritten(entries, style, i)[1..] == EntriesWritten(entries[1..], style, i);
    }
  }

  lemma {:induction false} DirectivesStay(directives: seq<Directive>, style: Style, i: nat)
    requires DirectivesOk(directives)
    ensures DirectivesOk(DirectivesWritten(directives, style, i))
    ensures DirectivesNest(DirectivesWritten(directives, style, i)) == DirectivesNest(directives)
  {
    if directives != [] {
      hide EntriesOk, EntriesNest;
      EntriesStay(directives[0].arguments, false, style, Inner(style, i));
      DirectivesStay(directives[1..], style, i);
      assert DirectivesWritten(directives, style, i)[1..] == DirectivesWritten(directives[1..], style, i);
    }
  }

  lemma {:induction false} SelectionStays(s: Selection, style: Style, i: nat)
    requires SelectionOk(s)
    ensures SelectionOk(SelectionWritten(s, style, i)) && SelectionNest(SelectionWritten(s, style, i)) == SelectionNest(s)
    decreases s
  {
    hide EntriesOk, EntriesNest, DirectivesOk, DirectivesNest, IsName;
    DirectivesStay(s.directives, style, i);
    match s {
      case Field(_, _, arguments, _, items) =>
        EntriesStay(arguments, false, style, Inner(style, i));
        SelectionsStay(items, style, i + style.indent);
      case InlineFragment(_, _, items) => SelectionsStay(items, style, i + style.indent);
      case FragmentSpread(_, _) =>
    }
  }

  lemma {:induction false} SelectionsStay(items: seq<Selection>, style: Style, i: nat)
    requires SelectionsOk(items)
    ensures SelectionsOk(SelectionsWritten(items, style, i))
    ensures SelectionsNest(SelectionsWritten(items, style, i)) == SelectionsNest(items)
    decreases items
  {
    if items != [] {
      hide SelectionOk, SelectionNest;
      SelectionStays(items[0], style, i);
      SelectionsStay(items[1..], style, i);
      assert SelectionsWritten(items, style, i)[1..] == SelectionsWritten(items[1..], style, i);
    }
  }

  lemma {:induction false} VariablesStay(variables: seq<VariableDefinition>, style: Style)
    requires VariablesOk(variables)
    ensures VariablesOk(VariablesWritten(variables, style)) && VariablesNest(VariablesWritten(variables, style)) == VariablesNest(variables)
  {
    if variables != [] {
      hide ValueOk, ValueNest, TypeOk, TypeNest, IsName;
      if variables[0].defaultValue.Some? {
        ValueStays(variables[0].defaultValue.value, true, style, 0);
      }
      VariablesStay(variables[1..], style);
      assert VariablesWritten(variables, style)[1..] == VariablesWritten(variables[1..], style);
    }
  }

  lemma {:induction false} DefinitionStays(d: Definition, style: Style)
    requires DefinitionOk(d)
    ensures DefinitionOk(DefinitionWritten(d, style)) && DefinitionNest(DefinitionWritten(d, style)) == DefinitionNest(d)
  {
    hide SelectionsOk, SelectionsNest, DirectivesOk, DirectivesNest, VariablesOk, VariablesNest, IsName;
    SelectionsStay(d.items, style, style.indent);
    if !d.SelectionSet? {
      DirectivesStay(d.directives, style, 0);
    }
    if d.Operation? {
      VariablesStay(d.variables, style);
    }
  }

  lemma {:induction false} DocumentStays(d: Document, style: Style)
    requires DefinitionsOk(d)
    ensures DefinitionsOk(DocumentWritten(d, style)) && DocumentNest(DocumentWritten(d, style)) == DocumentNest(d)
  {
    if d != [] {
      hide DefinitionOk, DefinitionNest;
      DefinitionStays(d[0], style);
      DocumentStays(d[1..], style);
      assert DocumentWritten(d, style)[1..] == DocumentWritten(d[1..], style);
    }
  }
}
