/** Which documents come back unchanged. */
module Fidelity {
  import opened Common
  import opened Strings
  import opened StringFacts
  import opened Syntax
  import opened Printing
  import opened BlockRereads
  import opened Reparse
  import opened WrittenTrees

  // ----- documents without floats -----

  predicate ValueFloatFree(v: Value) {
    match v
    case Float(_) => false
    case List(items) => ValuesFloatFree(items)
    case Object(entries) => EntriesFloatFree(entries)
    case _ => true
  }

  predicate ValuesFloatFree(items: seq<Value>) {
    items == [] || (ValueFloatFree(items[0]) && ValuesFloatFree(items[1..]))
  }

  predicate EntriesFloatFree(entries: seq<Entry>) {
    entries == [] || (ValueFloatFree(entries[0].value) && EntriesFloatFree(entries[1..]))
  }

  predicate DirectivesFloatFree(directives: seq<Directive>) {
    directives == [] || (EntriesFloatFree(directives[0].arguments) && DirectivesFloatFree(directives[1..]))
  }

  predicate SelectionFloatFree(s: Selection)
    decreases s
  {
    match s
    case Field(_, _, arguments, directives, items) =>
      EntriesFloatFree(arguments) && DirectivesFloatFree(directives) && SelectionsFloatFree(items)
    case InlineFragment(_, directives, items) => DirectivesFloatFree(directives) && SelectionsFloatFree(items)
    case FragmentSpread(_, directives) => DirectivesFloatFree(directives)
  }

  predicate SelectionsFloatFree(items: seq<Selection>)
    decreases items
  {
    items == [] || (SelectionFloatFree(items[0]) && SelectionsFloatFree(items[1..]))
  }

  predicate VariablesFloatFree(variables: seq<VariableDefinition>) {
    variables == []
    || ((variables[0].defaultValue.Some? ==> ValueFloatFree(variables[0].defaultValue.value)) && VariablesFloatFree(variables[1..]))
  }

  predicate DefinitionFloatFree(d: Definition) {
    match d
    case SelectionSet(items) => SelectionsFloatFree(items)
    case Operation(kind, name, variables, directives, items) =>
      VariablesFloatFree(WrittenVariables(kind, name, variables)) && DirectivesFloatFree(directives) && SelectionsFloatFree(items)
    case Fragment(_, _, directives, items) => DirectivesFloatFree(directives) && SelectionsFloatFree(items)
  }

  /** No value that is written is a float. */
  predicate FloatFree(d: Document) {
    d == [] || (DefinitionFloatFree(d[0]) && FloatFree(d[1..]))
  }

  // ----- which documents come back unchanged -----

  /** A string between quotes comes back when its characters survive, a block when it is kept. */
  predicate TextKept(text: string, i: nat) {
    if TakesQuotes(text) then forall k :: 0 <= k < |text| ==> Survives(text[k]) else KeptBlock(text, i == 0)
  }

  predicate ValueKept(v: Value, style: Style, i: nat)
    decreases v
  {
    match v
    case Str(text) => TextKept(text, i)
    case List(items) => ValuesKept(items, style, Inner(style, i))
    case Object(entries) => EntriesKept(entries, style, Inner(style, i))
    case _ => true
  }

  predicate ValuesKept(items: seq<Value>, style: Style, i: nat)
    decreases items
  {
    items == [] || (ValueKept(items[0], style, i) && ValuesKept(items[1..], style, i))
  }

  predicate EntriesKept(entries: seq<Entry>, style: Style, i: nat)
    decreases entries
  {
    entries == [] || (ValueKept(entries[0].value, style, i) && EntriesKept(entries[1..], style, i))
  }

  predicate DirectivesKept(directives: seq<Directive>, style: Style, i: nat) {
    directives == [] || (EntriesKept(directives[0].arguments, style, Inner(style, i)) && DirectivesKept(directives[1..], style, i))
  }

  predicate SelectionKept(s: Selection, style: Style, i: nat)
    decreases s
  {
    match s
    case Field(_, _, arguments, directives, items) =>
      EntriesKept(arguments, style, Inner(style, i)) && DirectivesKept(directives, style, i)
      && SelectionsKept(items, style, i + style.indent)
    case InlineFragment(_, directives, items) => DirectivesKept(directives, style, i) && SelectionsKept(items, style, i + style.indent)
    case FragmentSpread(_, directives) => DirectivesKept(directives, style, i)
  }

  predicate SelectionsKept(items: seq<Selection>, style: Style, i: nat)
    decreases items
  {
    items == [] || (SelectionKept(items[0], style, i) && SelectionsKept(items[1..], style, i))
  }

  predicate VariablesKept(variables: seq<VariableDefinition>, style: Style) {
    variables == []
    || ((variables[0].defaultValue.Some? ==> ValueKept(variables[0].defaultValue.value, style, 0)) && VariablesKept(variables[1..], style))
  }

  predicate DefinitionKept(d: Definition, style: Style) {
    match d
    case SelectionSet(items) => SelectionsKept(items, style, style.indent)
    case Operation(kind, name, variables, directives, items) =>
      !(kind == Subscription && name.None? && variables != [])
      && VariablesKept(variables, style) && DirectivesKept(directives, style, 0) && SelectionsKept(items, style, style.indent)
    case Fragment(_, _, directives, items) => DirectivesKept(directives, style, 0) && SelectionsKept(items, style, style.indent)
  }

  /** Every string is kept, and no subscription without a name has variables. */
  predicate Kept(d: Document, style: Style) {
    forall i :: 0 <= i < |d| ==> DefinitionKept(d[i], style)
  }

  lemma {:induction false} TextKeptIff(text: string, i: nat)
    ensures MangledAll(TextWritten(text, i)) == text <==> TextKept(text, i)
  {
    if TakesQuotes(text) {
      UnmangledIff(text);
    } else {
      BlockSurvives(text, i == 0);
      BlockKeptIff(text, i == 0);
    }
  }

  lemma {:induction false} ValueKeptIff(v: Value, style: Style, i: nat)
    ensures RereadValue(ValueWritten(v, style, i)) == v <==> ValueKept(v, style, i)
    decreases v
  {
    hide TextWritten, TextKept;
    match v {
      case Str(text) => TextKeptIff(text, i);
      case List(items) => ValuesKeptIff(items, style, Inner(style, i));
      case Object(entries) => EntriesKeptIff(entries, style, Inner(style, i));
      case _ =>
    }
  }

  lemma {:induction false} ValuesKeptIff(items: seq<Value>, style: Style, i: nat)
    ensures RereadValues(ValuesWritten(items, style, i)) == items <==> ValuesKept(items, style, i)
    decreases items
  {
    if items != [] {
      ValueKeptIff(items[0], style, i);
      ValuesKeptIff(items[1..], style, i);
      assert ValuesWritten(items, style, i)[1..] == ValuesWritten(items[1..], style, i);
      ConsIff(RereadValue(ValueWritten(items[0], style, i)), RereadValues(ValuesWritten(items[1..], style, i)), items);
    }
  }

  lemma {:induction false} EntriesKeptIff(entries: seq<Entry>, style: Style, i: nat)
    ensures RereadEntries(EntriesWritten(entries, style, i)) == entries <==> EntriesKept(entries, style, i)
    decreases entries
  {
    if entries != [] {
      ValueKeptIff(entries[0].value, style, i);
      EntriesKeptIff(entries[1..], style, i);
      assert EntriesWritten(entries, style, i)[1..] == EntriesWritten(entries[1..], style, i);
      ConsIff(Entry(entries[0].name, RereadValue(ValueWritten(entries[0].value, style, i))),
              RereadEntries(EntriesWritten(entries[1..], style, i)), entries);
    }
  }

  lemma ConsIff<T>(head: T, tail: seq<T>, whole: seq<T>)
    requires whole != []
    ensures [head] + tail == whole <==> head == whole[0] && tail == whole[1..]
  {
    assert ([head] + tail)[1..] == tail;
  }

  lemma {:induction false} DirectivesKeptIff(directives: seq<Directive>, style: Style, i: nat)
    ensures RereadDirectives(DirectivesWritten(directives, style, i)) == directives <==> DirectivesKept(directives, style, i)
  {
    if directives != [] {
      var written := DirectivesWritten(directives, style, i);
      EntriesKeptIff(directives[0].arguments, style, Inner(style, i));
      DirectivesKeptIff(directives[1..], style, i);
      assert written[1..] == DirectivesWritten(directives[1..], style, i);
      ConsIff(Directive(directives[0].name, RereadEntries(written[0].arguments)), RereadDirectives(written[1..]), directives);
    }
  }

  lemma {:induction false} SelectionKeptIff(s: Selection, style: Style, i: nat)
    ensures RereadSelection(SelectionWritten(s, style, i)) == s <==> SelectionKept(s, style, i)
    decreases s
  {
    DirectivesKeptIff(s.directives, style, i);
    match s {
      case Field(_, _, arguments, _, items) =>
        EntriesKeptIff(arguments, style, Inner(style, i));
        SelectionsKeptIff(items, style, i + style.indent);
      case InlineFragment(_, _, items) => SelectionsKeptIff(items, style, i + style.indent);
      case FragmentSpread(_, _) =>
    }
  }

  lemma {:induction false} SelectionsKeptIff(items: seq<Selection>, style: Style, i: nat)
    ensures RereadSelections(SelectionsWritten(items, style, i)) == items <==> SelectionsKept(items, style, i)
    decreases items
  {
    if items != [] {
      SelectionKeptIff(items[0], style, i);
      SelectionsKeptIff(items[1..], style, i);
      assert SelectionsWritten(items, style, i)[1..] == SelectionsWritten(items[1..], style, i);
      ConsIff(RereadSelection(SelectionWritten(items[0], style, i)), RereadSelections(SelectionsWritten(items[1..], style, i)), items);
    }
  }

  lemma {:induction false} VariableKeptIff(v: VariableDefinition, style: Style)
    ensures RereadVariables([VariableWritten(v, style)]) == [v] <==> VariablesKept([v], style)
  {
    if v.defaultValue.Some? {
      ValueKeptIff(v.defaultValue.value, style, 0);
    }
  }

  lemma {:induction false} VariablesKeptIff(variables: seq<VariableDefinition>, style: Style)
    ensures RereadVariables(VariablesWritten(variables, style)) == variables <==> VariablesKept(variables, style)
  {
    if variables != [] {
      var written := VariablesWritten(variables, style);
      VariableKeptIff(variables[0], style);
      VariablesKeptIff(variables[1..], style);
      RereadCons(written);
      hide RereadVariables, ValueKept, VariableWritten;
      assert written[1..] == VariablesWritten(variables[1..], style) && written[0] == VariableWritten(variables[0], style);
      ConsIff(RereadVariables([written[0]])[0], RereadVariables(written[1..]), variables);
    }
  }

  lemma {:induction false} DefinitionKeptIff(d: Definition, style: Style)
    ensures RereadDefinition(DefinitionWritten(d, style)) == d <==> DefinitionKept(d, style)
  {
    SelectionsKeptIff(d.items, style, style.indent);
    if !d.SelectionSet? {
      DirectivesKeptIff(d.directives, style, 0);
    }
    if d.Operation? {
      VariablesKeptIff(d.variables, style);
    }
  }

  /** A document comes back as it was exactly when it is kept. */
  lemma {:induction false} RereadIsSameIff(d: Document, style: Style)
    ensures Reread(DocumentWritten(d, style)) == d <==> Kept(d, style)
  {
    if d != [] {
      hide RereadDefinition, DefinitionKept, DefinitionWritten;
      DefinitionKeptIff(d[0], style);
      RereadIsSameIff(d[1..], style);
      assert DocumentWritten(d, style)[1..] == DocumentWritten(d[1..], style);
      ConsIff(RereadDefinition(DefinitionWritten(d[0], style)), Reread(DocumentWritten(d[1..], style)), d);
      assert Kept(d, style) <==> DefinitionKept(d[0], style) && Kept(d[1..], style) by {
        assert forall i :: 0 < i < |d| ==> d[i] == d[1..][i - 1];
        if Kept(d, style) {
          assert forall i :: 0 <= i < |d[1..]| ==> d[1..][i] == d[i + 1];
        }
      }
    }
  }
}
