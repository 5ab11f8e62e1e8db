/** How the printer indents: every line inside a bracket one step deeper than the line the bracket is opened on, and a
    bracket closed at the beginning of a line as deep as that line. */
module Indentation {
  import opened Common
  import opened Lexer
  import opened BlockStrings
  import opened Syntax
  import opened Printing
  import opened PrintedRuns

  /** At the start of a line, behind its indentation, or behind its first token. */
  datatype Phase = Start | Ready | Inside

  /** For each open bracket the indentation of the line it stands on, and the indentation of the current line. */
  datatype Walk = Walk(open: seq<nat>, line: nat, phase: Phase)

  /** The indentation of a line that does not begin with a closing bracket. */
  function Depth(open: seq<nat>, step: nat): nat {
    if open == [] then 0 else open[|open| - 1] + step
  }

  function Opens(t: Token): bool {
    t.kind == Punctuator && t.value != "" && IsOpen(t.value[0])
  }

  function Closes(t: Token): bool {
    t.kind == Punctuator && t.value != "" && IsClose(t.value[0])
  }

  /** One token: the first one of a line decides how deep the line has to be. */
  function OverToken(t: Token, w: Walk, step: nat): Option<Walk> {
    if w.phase == Start || (Closes(t) && w.open == []) then None
    else if w.phase == Ready && w.line != (if Closes(t) then w.open[|w.open| - 1] else Depth(w.open, step)) then None
    else
      var open := if Opens(t) then w.open + [w.line] else if Closes(t) then w.open[..|w.open| - 1] else w.open;
      Some(Walk(open, w.line, Inside))
  }

  /** One gap: a newline, the indentation behind it, or something within a line. */
  function OverGap(text: string, w: Walk): Option<Walk> {
    if text == "\n" then (if w.phase == Ready then None else Some(w.(phase := Start)))
    else if w.phase == Start then (if text == Spaces(|text|) then Some(w.(line := |text|, phase := Ready)) else None)
    else if w.phase == Inside && '\n' !in text then Some(w)
    else None
  }

  function Over(b: Bit, w: Walk, step: nat): Option<Walk> {
    match b case Tok(t) => OverToken(t, w, step) case Gap(text) => OverGap(text, w)
  }

  function Go(bits: seq<Bit>, w: Walk, step: nat): Option<Walk> {
    if bits == [] then Some(w)
    else match Over(bits[0], w, step)
      case None => None
      case Some(next) => Go(bits[1..], next, step)
  }

  function Then(w: Option<Walk>, bits: seq<Bit>, step: nat): Option<Walk> {
    match w case None => None case Some(next) => Go(bits, next, step)
  }

  lemma {:induction false} GoAppend(a: seq<Bit>, b: seq<Bit>, w: Walk, step: nat)
    ensures Go(a + b, w, step) == Then(Go(a, w, step), b, step)
  {
    if a == [] {
      assert a + b == b;
    } else {
      hide Over;
      assert (a + b)[1..] == a[1..] + b;
      if Over(a[0], w, step).Some? {
        GoAppend(a[1..], b, Over(a[0], w, step).value, step);
      }
    }
  }

  lemma GoOne(b: Bit, w: Walk, step: nat)
    ensures Go([b], w, step) == Over(b, w, step)
  {
    assert [b][1..] == [];
  }

  /** Two parts after one another. */
  lemma {:induction false} GoTwo(a: seq<Bit>, b: seq<Bit>, w: Walk, m: Walk, e: Walk, step: nat)
    requires Go(a, w, step) == Some(m) && Go(b, m, step) == Some(e)
    ensures Go(a + b, w, step) == Some(e)
  {
    hide Go;
    GoAppend(a, b, w, step);
  }

  lemma GoNothing(w: Walk, step: nat)
    ensures Go([], w, step) == Some(w)
  {
  }

  /** A token within a line that is no bracket. */
  lemma Plainly(t: Token, w: Walk, step: nat)
    requires w.phase == Inside && !Opens(t) && !Closes(t)
    ensures Go([Tok(t)], w, step) == Some(w)
  {
    GoOne(Tok(t), w, step);
  }

  lemma WithinLine(text: string, w: Walk, step: nat)
    requires w.phase == Inside && '\n' !in text
    ensures Go([Gap(text)], w, step) == Some(w)
  {
    GoOne(Gap(text), w, step);
  }

  lemma LineBreak(w: Walk, step: nat)
    requires w.phase != Ready
    ensures Go([Gap("\n")], w, step) == Some(w.(phase := Start))
  {
    GoOne(Gap("\n"), w, step);
  }

  lemma Indented(i: nat, w: Walk, step: nat)
    requires w.phase == Start
    ensures Go([Gap(Spaces(i))], w, step) == Some(w.(line := i, phase := Ready))
  {
    GoOne(Gap(Spaces(i)), w, step);
    assert Spaces(i) != "\n" by {
      if i == 1 {
        assert Spaces(1)[0] == ' ';
      }
    }
  }

  lemma Opening(c: char, w: Walk, step: nat)
    requires IsOpen(c) && w.phase == Inside
    ensures Go([Tok(P(c))], w, step) == Some(w.(open := w.open + [w.line]))
  {
    GoOne(Tok(P(c)), w, step);
  }

  lemma ClosingInside(c: char, w: Walk, i: nat, step: nat)
    requires IsClose(c) && w.phase == Inside && w.open != []
    ensures Go([Tok(P(c))], w, step) == Some(w.(open := w.open[..|w.open| - 1]))
  {
    GoOne(Tok(P(c)), w, step);
  }

  lemma ClosingFirst(c: char, w: Walk, step: nat)
    requires IsClose(c) && w.phase == Ready && w.open != [] && w.line == w.open[|w.open| - 1]
    ensures Go([Tok(P(c))], w, step) == Some(Walk(w.open[..|w.open| - 1], w.line, Inside))
  {
    GoOne(Tok(P(c)), w, step);
  }

  /** The first token of a line. */
  lemma First(t: Token, w: Walk, step: nat)
    requires w.phase == Ready && w.line == Depth(w.open, step) && !Closes(t)
    ensures Go([Tok(t)], w, step) == Some(Walk(if Opens(t) then w.open + [w.line] else w.open, w.line, Inside))
  {
    GoOne(Tok(t), w, step);
  }

  // ----- values -----

  /** A line break inside a bracket, before an item or an argument. */
  lemma {:induction false} BreakGoes(style: Style, i: nat, w: Walk)
    requires w.phase == Inside
    ensures Go(Break(style, i), w, style.indent) == Some(if style.multiline then w.(line := i, phase := Ready) else w)
  {
    if style.multiline {
      LineBreak(w, style.indent);
      Indented(i, w.(phase := Start), style.indent);
      hide Go;
      GoTwo([Gap("\n")], [Gap(Spaces(i))], w, w.(phase := Start), w.(line := i, phase := Ready), style.indent);
      assert [Gap("\n")] + [Gap(Spaces(i))] == [Gap("\n"), Gap(Spaces(i))];
    } else {
      GoNothing(w, style.indent);
    }
  }

  lemma {:induction false} BetweenGoes(style: Style, first: bool, i: nat, w: Walk)
    requires w.phase == Inside
    ensures Go(Between(style, first, i), w, style.indent) == Some(if style.multiline then w.(line := i, phase := Ready) else w)
  {
    BreakGoes(style, i, w);
    GoNothing(w, style.indent);
    WithinLine(",", w, style.indent);
    WithinLine(" ", w, style.indent);
    hide Go;
    if !first {
      if !style.multiline {
        GoTwo([Gap(",")], [Gap(" ")], w, w, w, style.indent);
        assert [Gap(",")] + [Gap(" ")] == Delimiter(style);
      }
      GoTwo(Delimiter(style), Break(style, i), w, w, if style.multiline then w.(line := i, phase := Ready) else w, style.indent);
    } else {
      assert Between(style, first, i) == Break(style, i);
    }
  }

  /** Where an item begins: within the line, or first on a line of its own. */
  predicate AtItem(w: Walk, style: Style, i: nat) {
    w.line == i && (w.phase == Inside || (w.phase == Ready && i == Depth(w.open, style.indent)))
  }

  lemma {:induction false} TokenGoes(t: Token, w: Walk, style: Style, i: nat)
    requires AtItem(w, style, i) && !Opens(t) && !Closes(t)
    ensures Go([Tok(t)], w, style.indent) == Some(w.(phase := Inside))
  {
    if w.phase == Inside {
      Plainly(t, w, style.indent);
    } else {
      First(t, w, style.indent);
    }
  }

  lemma {:induction false} OpeningGoes(c: char, w: Walk, style: Style, i: nat)
    requires AtItem(w, style, i) && IsOpen(c)
    ensures Go([Tok(P(c))], w, style.indent) == Some(Walk(w.open + [i], i, Inside))
  {
    if w.phase == Inside {
      Opening(c, w, style.indent);
    } else {
      First(P(c), w, style.indent);
    }
  }

  lemma {:induction false} ClosingGoes(c: char, w: Walk, style: Style, i: nat)
    requires IsClose(c) && w.phase == Inside && w.open != [] && w.open[|w.open| - 1] == i && (!style.multiline ==> w.line == i)
    ensures Go(Break(style, i) + [Tok(P(c))], w, style.indent) == Some(Walk(w.open[..|w.open| - 1], i, Inside))
  {
    BreakGoes(style, i, w);
    var e := Walk(w.open[..|w.open| - 1], i, Inside);
    if style.multiline {
      var m := w.(line := i, phase := Ready);
      ClosingFirst(c, m, style.indent);
      hide Go;
      GoTwo(Break(style, i), [Tok(P(c))], w, m, e, style.indent);
    } else {
      ClosingInside(c, w, i, style.indent);
      hide Go;
      GoTwo(Break(style, i), [Tok(P(c))], w, w, e, style.indent);
    }
  }

  /** The line on which a bracketed body ends. */
  function LineAfter(w: Walk, style: Style, i: nat, some: bool): Walk {
    if style.multiline && some then w.(line := i) else w
  }

  lemma {:induction false} BracketedGoes(open: char, body: seq<Bit>, close: char, w: Walk, style: Style, i: nat, some: bool)
    requires IsOpen(open) && IsClose(close) && AtItem(w, style, i)
    requires var inside := Walk(w.open + [i], i, Inside);
      Go(body, inside, style.indent) == Some(LineAfter(inside, style, Inner(style, i), some))
    ensures Go([Tok(P(open))] + body + (Break(style, i) + [Tok(P(close))]), w, style.indent) == Some(w.(phase := Inside))
  {
    hide Go;
    var inside := Walk(w.open + [i], i, Inside);
    var ended := LineAfter(inside, style, Inner(style, i), some);
    OpeningGoes(open, w, style, i);
    ClosingGoes(close, ended, style, i);
    assert (w.open + [i])[..|w.open|] == w.open;
    GoTwo([Tok(P(open))], body, w, inside, ended, style.indent);
    GoTwo([Tok(P(open))] + body, Break(style, i) + [Tok(P(close))], w, ended, w.(phase := Inside), style.indent);
  }

  lemma {:induction false} ValueGoes(v: Value, style: Style, i: nat, w: Walk)
    requires AtItem(w, style, i)
    ensures Go(ValueBits(v, style, i), w, style.indent) == Some(w.(phase := Inside))
    decreases v, 1
  {
    hide Go;
    var inside := Walk(w.open + [i], i, Inside);
    match v {
      case Variable(name) =>
        TokenGoes(P('$'), w, style, i);
        Plainly(N(name), w.(phase := Inside), style.indent);
        GoTwo([Tok(P('$'))], [Tok(N(name))], w, w.(phase := Inside), w.(phase := Inside), style.indent);
        assert [Tok(P('$'))] + [Tok(N(name))] == ValueBits(v, style, i);
      case List(items) =>
        ItemsGo(items, style, Inner(style, i), true, inside);
        BracketedGoes('[', ItemsBits(items, style, Inner(style, i), true), ']', w, style, i, items != []);
      case Object(entries) =>
        EntriesGo(entries, style, Inner(style, i), true, inside);
        BracketedGoes('{', EntriesBits(entries, style, Inner(style, i), true), '}', w, style, i, entries != []);
      case _ =>
        TokenGoes(ValueBits(v, style, i)[0].token, w, style, i);
        assert ValueBits(v, style, i) == [ValueBits(v, style, i)[0]];
    }
  }

  /** Inside a bracket, where items stand at the given indentation. */
  predicate InBracket(w: Walk, style: Style, i: nat) {
    w.phase == Inside && if style.multiline then w.open != [] && i == Depth(w.open, style.indent) else w.line == i
  }

  lemma {:induction false} ItemsGo(items: seq<Value>, style: Style, i: nat, first: bool, w: Walk)
    requires InBracket(w, style, i)
    ensures Go(ItemsBits(items, style, i, first), w, style.indent) == Some(LineAfter(w, style, i, items != []))
    decreases items, 0
  {
    GoNothing(w, style.indent);
    hide Go;
    if items != [] {
      var m := if style.multiline then w.(line := i, phase := Ready) else w;
      var after := m.(phase := Inside);
      BetweenGoes(style, first, i, w);
      ValueGoes(items[0], style, i, m);
      ItemsGo(items[1..], style, i, false, after);
      GoTwo(ValueBits(items[0], style, i), ItemsBits(items[1..], style, i, false), m, after, after, style.indent);
      GoTwo(Between(style, first, i), ValueBits(items[0], style, i) + ItemsBits(items[1..], style, i, false), w, m, after, style.indent);
    }
  }

  lemma {:induction false} NamedGoes(name: string, w: Walk, style: Style, i: nat)
    requires AtItem(w, style, i)
    ensures Go(NamedBits(name), w, style.indent) == Some(w.(phase := Inside))
  {
    var e := w.(phase := Inside);
    TokenGoes(N(name), w, style, i);
    Plainly(P(':'), e, style.indent);
    WithinLine(" ", e, style.indent);
    hide Go;
    GoTwo([Tok(P(':'))], [Gap(" ")], e, e, e, style.indent);
    GoTwo([Tok(N(name))], [Tok(P(':'))] + [Gap(" ")], w, e, e, style.indent);
    assert NamedBits(name) == [Tok(N(name))] + ([Tok(P(':'))] + [Gap(" ")]);
  }

  lemma {:induction false} EntriesGo(entries: seq<Entry>, style: Style, i: nat, first: bool, w: Walk)
    requires InBracket(w, style, i)
    ensures Go(EntriesBits(entries, style, i, first), w, style.indent) == Some(LineAfter(w, style, i, entries != []))
    decreases entries, 0
  {
    GoNothing(w, style.indent);
    hide Go;
    if entries != [] {
      var m := if style.multiline then w.(line := i, phase := Ready) else w;
      var after := m.(phase := Inside);
      var name, value, rest := NamedBits(entries[0].name), ValueBits(entries[0].value, style, i), EntriesBits(entries[1..], style, i, false);
      BetweenGoes(style, first, i, w);
      NamedGoes(entries[0].name, m, style, i);
      ValueGoes(entries[0].value, style, i, after);
      EntriesGo(entries[1..], style, i, false, after);
      GoTwo(value, rest, after, after, after, style.indent);
      GoTwo(name, value + rest, m, after, after, style.indent);
      GoTwo(Between(style, first, i), name + (value + rest), w, m, after, style.indent);
    }
  }

  /** Within a line of the given indentation. */
  predicate OnLine(w: Walk, i: nat) {
    w.phase == Inside && w.line == i
  }

  lemma {:induction false} ArgumentsGo(arguments: seq<Entry>, style: Style, i: nat, w: Walk)
    requires OnLine(w, i)
    ensures Go(ArgumentsBits(arguments, style, i), w, style.indent) == Some(w)
  {
    GoNothing(w, style.indent);
    hide Go;
    if arguments != [] {
      EntriesGo(arguments, style, Inner(style, i), true, Walk(w.open + [i], i, Inside));
      BracketedGoes('(', EntriesBits(arguments, style, Inner(style, i), true), ')', w, style, i, true);
    }
  }

  lemma {:induction false} DirectivesGo(directives: seq<Directive>, style: Style, i: nat, w: Walk)
    requires OnLine(w, i)
    ensures Go(DirectivesBits(directives, style, i), w, style.indent) == Some(w)
    decreases directives
  {
    GoNothing(w, style.indent);
    if directives != [] {
      var d := directives[0];
      var head := [Gap(" "), Tok(P('@')), Tok(N(d.name))];
      WithinLine(" ", w, style.indent);
      Plainly(P('@'), w, style.indent);
      Plainly(N(d.name), w, style.indent);
      hide Go;
      ArgumentsGo(d.arguments, style, i, w);
      DirectivesGo(directives[1..], style, i, w);
      GoTwo([Tok(P('@'))], [Tok(N(d.name))], w, w, w, style.indent);
      GoTwo([Gap(" ")], [Tok(P('@'))] + [Tok(N(d.name))], w, w, w, style.indent);
      assert head == [Gap(" ")] + ([Tok(P('@'))] + [Tok(N(d.name))]);
      GoTwo(ArgumentsBits(d.arguments, style, i), DirectivesBits(directives[1..], style, i), w, w, w, style.indent);
      GoTwo(head, ArgumentsBits(d.arguments, style, i) + DirectivesBits(directives[1..], style, i), w, w, w, style.indent);
    }
  }

  lemma {:induction false} TypeGoes(t: Type, w: Walk, step: nat)
    requires w.phase == Inside
    ensures Go(TypeBits(t), w, step) == Some(w)
    decreases t
  {
    match t {
      case NamedType(name) => Plainly(N(name), w, step);
      case ListType(inner) =>
        var deep := w.(open := w.open + [w.line]);
        Opening('[', w, step);
        ClosingInside(']', deep, 0, step);
        hide Go;
        TypeGoes(inner, deep, step);
        GoTwo([Tok(P('['))], TypeBits(inner), w, deep, deep, step);
        assert deep.(open := deep.open[..|deep.open| - 1]) == w;
        GoTwo([Tok(P('['))] + TypeBits(inner), [Tok(P(']'))], w, deep, w, step);
      case NonNullType(inner) =>
        Plainly(P('!'), w, step);
        hide Go;
        TypeGoes(inner, w, step);
        GoTwo(TypeBits(inner), [Tok(P('!'))], w, w, w, step);
    }
  }

  // ----- selections -----

  lemma {:induction false} BlockGoes(items: seq<Selection>, style: Style, i: nat, w: Walk)
    requires OnLine(w, i)
    ensures Go(BlockBits(items, style, i), w, style.indent) == Some(w.(phase := Start))
    decreases items, 1
  {
    var body := Walk(w.open + [i], i, Start);
    var ended := body.(line := if items == [] then i else i + style.indent);
    BlockStarts(style, i, w);
    hide Go, Depth;
    SelectionsGo(items, style, i + style.indent, body);
    EndGoes(ended, style, i);
    assert ended.open[..|ended.open| - 1] == w.open;
    BlockIs(items, style, i);
    hide *;
    GoTwo(SelectionsBits(items, style, i + style.indent), BlockEnd(i), body, ended, w.(phase := Start), style.indent);
    GoTwo([Tok(P('{')), Gap("\n")], SelectionsBits(items, style, i + style.indent) + BlockEnd(i), w, body, w.(phase := Start), style.indent);
  }

  lemma BlockIs(items: seq<Selection>, style: Style, i: nat)
    ensures BlockBits(items, style, i) ==
            [Tok(P('{')), Gap("\n")] + (SelectionsBits(items, style, i + style.indent) + BlockEnd(i))
  {
  }

  lemma {:induction false} BlockStarts(style: Style, i: nat, w: Walk)
    requires OnLine(w, i)
    ensures Go([Tok(P('{')), Gap("\n")], w, style.indent) == Some(Walk(w.open + [i], i, Start))
    ensures AtLine(Walk(w.open + [i], i, Start), style, i + style.indent)
  {
    var deep := w.(open := w.open + [i]);
    Opening('{', w, style.indent);
    LineBreak(deep, style.indent);
    hide Go;
    GoTwo([Tok(P('{'))], [Gap("\n")], w, deep, deep.(phase := Start), style.indent);
    assert [Tok(P('{'))] + [Gap("\n")] == [Tok(P('{')), Gap("\n")];
  }

  /** The closing brace stands as deep as the line of the opening one. */
  lemma {:induction false} EndGoes(w: Walk, style: Style, i: nat)
    requires w.phase == Start && w.open != [] && w.open[|w.open| - 1] == i
    ensures Go(BlockEnd(i), w, style.indent) == Some(Walk(w.open[..|w.open| - 1], i, Start))
  {
    var ready := w.(line := i, phase := Ready);
    var closed := Walk(w.open[..|w.open| - 1], i, Inside);
    Indented(i, w, style.indent);
    ClosingFirst('}', ready, style.indent);
    LineBreak(closed, style.indent);
    hide Go;
    GoTwo([Tok(P('}'))], [Gap("\n")], ready, closed, closed.(phase := Start), style.indent);
    GoTwo([Gap(Spaces(i))], [Tok(P('}'))] + [Gap("\n")], w, ready, closed.(phase := Start), style.indent);
    assert BlockEnd(i) == [Gap(Spaces(i))] + ([Tok(P('}'))] + [Gap("\n")]);
  }

  /** At the start of a line that is to be as deep as the given indentation. */
  predicate AtLine(w: Walk, style: Style, i: nat) {
    w.phase == Start && i == Depth(w.open, style.indent)
  }

  lemma {:induction false} SelectionsGo(items: seq<Selection>, style: Style, i: nat, w: Walk)
    requires AtLine(w, style, i)
    ensures Go(SelectionsBits(items, style, i), w, style.indent) == Some(if items == [] then w else w.(line := i))
    decreases items, 0
  {
    GoNothing(w, style.indent);
    hide Go;
    if items != [] {
      SelectionGoes(items[0], style, i, w);
      SelectionsGo(items[1..], style, i, w.(line := i));
      GoTwo(SelectionBits(items[0], style, i), SelectionsBits(items[1..], style, i), w, w.(line := i), w.(line := i), style.indent);
    }
  }

  lemma {:induction false} EndingGoes(items: seq<Selection>, style: Style, i: nat, w: Walk)
    requires OnLine(w, i)
    ensures Go(Ending(items, style, i), w, style.indent) == Some(w.(phase := Start))
    decreases items, 2
  {
    LineBreak(w, style.indent);
    WithinLine(" ", w, style.indent);
    hide Go;
    if items != [] {
      BlockGoes(items, style, i, w);
      GoTwo([Gap(" ")], BlockBits(items, style, i), w, w, w.(phase := Start), style.indent);
    }
  }

  /** Directives and what ends the line. */
  lemma {:induction false} TailGoes(directives: seq<Directive>, items: seq<Selection>, style: Style, i: nat, w: Walk)
    requires OnLine(w, i)
    ensures Go(DirectivesBits(directives, style, i) + Ending(items, style, i), w, style.indent) == Some(w.(phase := Start))
    decreases items, 3
  {
    hide Go;
    DirectivesGo(directives, style, i, w);
    EndingGoes(items, style, i, w);
    GoTwo(DirectivesBits(directives, style, i), Ending(items, style, i), w, w, w.(phase := Start), style.indent);
  }

  lemma {:induction false} SelectionGoes(s: Selection, style: Style, i: nat, w: Walk)
    requires AtLine(w, style, i)
    ensures Go(SelectionBits(s, style, i), w, style.indent) == Some(w.(line := i))
    decreases s
  {
    match s {
      case Field(alias, name, arguments, directives, items) => FieldGoes(alias, name, arguments, directives, items, style, i, w);
      case InlineFragment(on, directives, items) => InlineGoes(on, directives, items, style, i, w);
      case FragmentSpread(name, directives) =>
        var line := Walk(w.open, i, Inside);
        SpreadGoes(style, i, w);
        Plainly(N(name), line, style.indent);
        LineBreak(line, style.indent);
        hide Go;
        DirectivesGo(directives, style, i, line);
        GoTwo(DirectivesBits(directives, style, i), [Gap("\n")], line, line, line.(phase := Start), style.indent);
        GoTwo([Gap(Spaces(i)), Tok(SPREAD)], [Tok(N(name))], w, line, line, style.indent);
        assert [Gap(Spaces(i)), Tok(SPREAD)] + [Tok(N(name))] == [Gap(Spaces(i)), Tok(SPREAD), Tok(N(name))];
        GoTwo([Gap(Spaces(i)), Tok(SPREAD), Tok(N(name))], DirectivesBits(directives, style, i) + [Gap("\n")], w, line,
              line.(phase := Start), style.indent);
    }
  }

  lemma {:induction false} SpreadGoes(style: Style, i: nat, w: Walk)
    requires AtLine(w, style, i)
    ensures Go([Gap(Spaces(i)), Tok(SPREAD)], w, style.indent) == Some(Walk(w.open, i, Inside))
  {
    var ready := w.(line := i, phase := Ready);
    Indented(i, w, style.indent);
    assert !Opens(SPREAD) && !Closes(SPREAD);
    First(SPREAD, ready, style.indent);
    hide Go;
    GoTwo([Gap(Spaces(i))], [Tok(SPREAD)], w, ready, Walk(w.open, i, Inside), style.indent);
    assert [Gap(Spaces(i))] + [Tok(SPREAD)] == [Gap(Spaces(i)), Tok(SPREAD)];
  }

  lemma {:induction false} FieldGoes(alias: Option<string>, name: string, arguments: seq<Entry>, directives: seq<Directive>,
                                     items: seq<Selection>, style: Style, i: nat, w: Walk)
    requires AtLine(w, style, i)
    ensures Go(SelectionBits(Field(alias, name, arguments, directives, items), style, i), w, style.indent) == Some(w.(line := i))
    decreases items, 4
  {
    var ready, line := w.(line := i, phase := Ready), Walk(w.open, i, Inside);
    var b, c, d := AliasBits(alias), [Tok(N(name))], ArgumentsBits(arguments, style, i);
    var e := DirectivesBits(directives, style, i) + Ending(items, style, i);
    var named := if alias.Some? then line else ready;
    Indented(i, w, style.indent);
    GoNothing(ready, style.indent);
    hide Go, ArgumentsBits, DirectivesBits, Spaces;
    if alias.Some? {
      NamedGoes(alias.value, ready, style, i);
    }
    TokenGoes(N(name), named, style, i);
    ArgumentsGo(arguments, style, i, line);
    TailGoes(directives, items, style, i, line);
    GoTwo(d, e, line, line, line.(phase := Start), style.indent);
    GoTwo(c, d + e, named, line, line.(phase := Start), style.indent);
    GoTwo(b, c + (d + e), ready, named, line.(phase := Start), style.indent);
    GoTwo([Gap(Spaces(i))], b + (c + (d + e)), w, ready, line.(phase := Start), style.indent);
  }

  lemma {:induction false} SpacedGoes(name: string, w: Walk, step: nat)
    requires w.phase == Inside
    ensures Go([Gap(" "), Tok(N(name))], w, step) == Some(w)
  {
    WithinLine(" ", w, step);
    Plainly(N(name), w, step);
    hide Go;
    GoTwo([Gap(" ")], [Tok(N(name))], w, w, w, step);
    assert [Gap(" ")] + [Tok(N(name))] == [Gap(" "), Tok(N(name))];
  }

  lemma {:induction false} OnGoes(on: Option<string>, w: Walk, step: nat)
    requires w.phase == Inside
    ensures Go(OnBits(on), w, step) == Some(w)
  {
    GoNothing(w, step);
    hide Go;
    if on.Some? {
      SpacedGoes("on", w, step);
      SpacedGoes(on.value, w, step);
      GoTwo([Gap(" "), Tok(N("on"))], [Gap(" "), Tok(N(on.value))], w, w, w, step);
      assert OnBits(on) == [Gap(" "), Tok(N("on"))] + [Gap(" "), Tok(N(on.value))];
    }
  }

  lemma {:induction false} InlineGoes(on: Option<string>, directives: seq<Directive>, items: seq<Selection>, style: Style, i: nat, w: Walk)
    requires AtLine(w, style, i)
    ensures Go(SelectionBits(InlineFragment(on, directives, items), style, i), w, style.indent) == Some(w.(line := i))
    decreases items, 4
  {
    var line := Walk(w.open, i, Inside);
    var a, b := [Gap(Spaces(i)), Tok(SPREAD)], OnBits(on);
    var c, d := DirectivesBits(directives, style, i), [Gap(" ")] + BlockBits(items, style, i);
    SpreadGoes(style, i, w);
    WithinLine(" ", line, style.indent);
    hide Go, OnBits, DirectivesBits, Spaces;
    OnGoes(on, line, style.indent);
    DirectivesGo(directives, style, i, line);
    BlockGoes(items, style, i, line);
    GoTwo([Gap(" ")], BlockBits(items, style, i), line, line, line.(phase := Start), style.indent);
    GoTwo(c, d, line, line, line.(phase := Start), style.indent);
    GoTwo(b, c + d, line, line, line.(phase := Start), style.indent);
    GoTwo(a, b + (c + d), w, line, line.(phase := Start), style.indent);
  }

  // ----- definitions -----

  lemma {:induction false} VariableGoes(v: VariableDefinition, style: Style, w: Walk)
    requires OnLine(w, 0)
    ensures Go(VariableBits(v, style, 0), w, style.indent) == Some(w)
  {
    var head := [Tok(P('$')), Tok(N(v.name)), Tok(P(':')), Gap(" ")];
    Plainly(P('$'), w, style.indent);
    NamedGoes(v.name, w, style, 0);
    hide Go;
    GoTwo([Tok(P('$'))], NamedBits(v.name), w, w, w, style.indent);
    assert head == [Tok(P('$'))] + NamedBits(v.name);
    TypeGoes(v.varType, w, style.indent);
    DefaultGoes(v.defaultValue, style, w);
    GoTwo(TypeBits(v.varType), DefaultBits(v.defaultValue, style, 0), w, w, w, style.indent);
    GoTwo(head, TypeBits(v.varType) + DefaultBits(v.defaultValue, style, 0), w, w, w, style.indent);
  }

  lemma {:induction false} DefaultGoes(v: Option<Value>, style: Style, w: Walk)
    requires OnLine(w, 0)
    ensures Go(DefaultBits(v, style, 0), w, style.indent) == Some(w)
  {
    GoNothing(w, style.indent);
    if v.Some? {
      WithinLine(" ", w, style.indent);
      Plainly(P('='), w, style.indent);
      hide Go;
      ValueGoes(v.value, style, 0, w);
      GoTwo([Tok(P('='))], [Gap(" ")], w, w, w, style.indent);
      GoTwo([Gap(" ")], [Tok(P('='))] + [Gap(" ")], w, w, w, style.indent);
      assert [Gap(" "), Tok(P('=')), Gap(" ")] == [Gap(" ")] + ([Tok(P('='))] + [Gap(" ")]);
      GoTwo([Gap(" "), Tok(P('=')), Gap(" ")], ValueBits(v.value, style, 0), w, w, w, style.indent);
    }
  }

  lemma {:induction false} VariablesGo(variables: seq<VariableDefinition>, style: Style, commas: bool, first: bool, w: Walk)
    requires OnLine(w, 0)
    ensures Go(VariablesBits(variables, style, 0, commas, first), w, style.indent) == Some(w)
    decreases variables
  {
    GoNothing(w, style.indent);
    if variables != [] {
      var gap := if first || !commas then [] else [Gap(","), Gap(" ")];
      var v, rest := VariableBits(variables[0], style, 0), VariablesBits(variables[1..], style, 0, commas, false);
      WithinLine(",", w, style.indent);
      WithinLine(" ", w, style.indent);
      hide Go;
      GoTwo([Gap(",")], [Gap(" ")], w, w, w, style.indent);
      assert [Gap(",")] + [Gap(" ")] == [Gap(","), Gap(" ")];
      VariableGoes(variables[0], style, w);
      VariablesGo(variables[1..], style, commas, false, w);
      GoTwo(v, rest, w, w, w, style.indent);
      GoTwo(gap, v + rest, w, w, w, style.indent);
    }
  }

  lemma {:induction false} VariableBlockGoes(kind: OperationKind, name: Option<string>, variables: seq<VariableDefinition>, style: Style, w: Walk)
    requires OnLine(w, 0)
    ensures Go(VariableBlockBits(kind, name, variables, style, 0), w, style.indent) == Some(w)
  {
    GoNothing(w, style.indent);
    var written := WrittenVariables(kind, name, variables);
    if written != [] {
      var deep := w.(open := w.open + [0]);
      var body := VariablesBits(written, style, 0, kind != Subscription, true);
      Opening('(', w, style.indent);
      ClosingInside(')', deep, 0, style.indent);
      hide Go;
      VariablesGo(written, style, kind != Subscription, true, deep);
      assert deep.(open := deep.open[..|deep.open| - 1]) == w;
      GoTwo(body, [Tok(P(')'))], deep, deep, w, style.indent);
      GoTwo([Tok(P('('))], body + [Tok(P(')'))], w, deep, w, style.indent);
    }
  }

  lemma {:induction false} WordGoes(word: string, w: Walk, style: Style)
    requires w.phase == Start && w.open == []
    ensures Go([Gap(Spaces(0)), Tok(N(word))], w, style.indent) == Some(Walk([], 0, Inside))
  {
    var ready := w.(line := 0, phase := Ready);
    Indented(0, w, style.indent);
    First(N(word), ready, style.indent);
    hide Go;
    GoTwo([Gap(Spaces(0))], [Tok(N(word))], w, ready, Walk([], 0, Inside), style.indent);
    assert [Gap(Spaces(0))] + [Tok(N(word))] == [Gap(Spaces(0)), Tok(N(word))];
  }

  lemma {:induction false} DefinitionGoes(d: Definition, style: Style, w: Walk)
    requires w.phase == Start && w.open == []
    ensures Go(DefinitionBits(d, style), w, style.indent) == Some(Walk([], 0, Start))
  {
    match d {
      case SelectionSet(items) => SetGoes(items, style, w);
      case Operation(kind, name, variables, directives, items) =>
        OperationGoes(kind, name, variables, directives, items, style, w);
      case Fragment(name, on, directives, items) => FragmentGoes(name, on, directives, items, style, w);
    }
  }

  lemma {:induction false} SetGoes(items: seq<Selection>, style: Style, w: Walk)
    requires w.phase == Start && w.open == []
    ensures Go([Gap(Spaces(0))] + BlockBits(items, style, 0), w, style.indent) == Some(Walk([], 0, Start))
  {
    var ready, deep := w.(line := 0, phase := Ready), Walk([0], 0, Inside);
    var body := deep.(phase := Start);
    var ended := body.(line := if items == [] then 0 else style.indent);
    Indented(0, w, style.indent);
    First(P('{'), ready, style.indent);
    LineBreak(deep, style.indent);
    hide Go;
    assert [] + [0] == [0];
    SelectionsGo(items, style, 0 + style.indent, body);
    EndGoes(ended, style, 0);
    var end := Walk([], 0, Start);
    GoTwo([Tok(P('{'))], [Gap("\n")], ready, deep, body, style.indent);
    assert [Tok(P('{'))] + [Gap("\n")] == [Tok(P('{')), Gap("\n")];
    GoTwo(SelectionsBits(items, style, 0 + style.indent), BlockEnd(0), body, ended, end, style.indent);
    GoTwo([Tok(P('{')), Gap("\n")], SelectionsBits(items, style, 0 + style.indent) + BlockEnd(0), ready, body, end, style.indent);
    GoTwo([Gap(Spaces(0))], BlockBits(items, style, 0), w, ready, end, style.indent);
  }

  lemma {:induction false} OperationGoes(kind: OperationKind, name: Option<string>, variables: seq<VariableDefinition>,
                                         directives: seq<Directive>, items: seq<Selection>, style: Style, w: Walk)
    requires w.phase == Start && w.open == []
    ensures Go(DefinitionBits(Operation(kind, name, variables, directives, items), style), w, style.indent) == Some(Walk([], 0, Start))
  {
    var line, end := Walk([], 0, Inside), Walk([], 0, Start);
    var a, b, c := [Gap(Spaces(0)), Tok(N(Keyword(kind)))], NameBits(name), VariableBlockBits(kind, name, variables, style, 0);
    var d, e := DirectivesBits(directives, style, 0), [Gap(" ")] + BlockBits(items, style, 0);
    WordGoes(Keyword(kind), w, style);
    WithinLine(" ", line, style.indent);
    GoNothing(line, style.indent);
    hide Go, VariableBlockBits, DirectivesBits, BlockBits, Keyword, Spaces;
    if name.Some? {
      SpacedGoes(name.value, line, style.indent);
    }
    VariableBlockGoes(kind, name, variables, style, line);
    DirectivesGo(directives, style, 0, line);
    BlockGoes(items, style, 0, line);
    GoTwo([Gap(" ")], BlockBits(items, style, 0), line, line, end, style.indent);
    GoTwo(d, e, line, line, end, style.indent);
    GoTwo(c, d + e, line, line, end, style.indent);
    GoTwo(b, c + (d + e), line, line, end, style.indent);
    GoTwo(a, b + (c + (d + e)), w, line, end, style.indent);
  }

  lemma {:induction false} FragmentGoes(name: string, on: string, directives: seq<Directive>, items: seq<Selection>, style: Style, w: Walk)
    requires w.phase == Start && w.open == []
    ensures Go(DefinitionBits(Fragment(name, on, directives, items), style), w, style.indent) == Some(Walk([], 0, Start))
  {
    var line, end := Walk([], 0, Inside), Walk([], 0, Start);
    var a, b, c, d := [Gap(Spaces(0)), Tok(N("fragment"))], [Gap(" "), Tok(N(name))], [Gap(" "), Tok(N("on"))], [Gap(" "), Tok(N(on))];
    var e, f := DirectivesBits(directives, style, 0), [Gap(" ")] + BlockBits(items, style, 0);
    WordGoes("fragment", w, style);
    SpacedGoes(name, line, style.indent);
    SpacedGoes("on", line, style.indent);
    SpacedGoes(on, line, style.indent);
    WithinLine(" ", line, style.indent);
    FragmentIs(name, on, directives, items, style);
    DirectivesGo(directives, style, 0, line);
    BlockGoes(items, style, 0, line);
    hide *;
    GoTwo([Gap(" ")], BlockBits(items, style, 0), line, line, end, style.indent);
    GoTwo(e, f, line, line, end, style.indent);
    GoTwo(a, b, w, line, line, style.indent);
    GoTwo(a + b, c, w, line, line, style.indent);
    GoTwo(a + b + c, d, w, line, line, style.indent);
    GoTwo(a + b + c + d, e + f, w, line, end, style.indent);
  }

  lemma {:induction false} FragmentIs(name: string, on: string, directives: seq<Directive>, items: seq<Selection>, style: Style)
    ensures DefinitionBits(Fragment(name, on, directives, items), style) ==
            [Gap(Spaces(0)), Tok(N("fragment"))] + [Gap(" "), Tok(N(name))] + [Gap(" "), Tok(N("on"))] + [Gap(" "), Tok(N(on))]
            + (DirectivesBits(directives, style, 0) + ([Gap(" ")] + BlockBits(items, style, 0)))
  {
    hide DirectivesBits, BlockBits, Spaces;
    assert [Gap(Spaces(0)), Tok(N("fragment"))] + [Gap(" "), Tok(N(name))] + [Gap(" "), Tok(N("on"))] + [Gap(" "), Tok(N(on))]
        == [Gap(Spaces(0)), Tok(N("fragment")), Gap(" "), Tok(N(name)), Gap(" "), Tok(N("on")), Gap(" "), Tok(N(on))];
  }

  lemma {:induction false} DefinitionsGo(d: Document, style: Style, first: bool, w: Walk)
    requires w.phase == Start && w.open == []
    ensures Go(DefinitionsBits(d, style, first), w, style.indent) == Some(if d == [] then w else Walk([], 0, Start))
    decreases d
  {
    GoNothing(w, style.indent);
    if d != [] {
      var gap := if first then [] else [Gap("\n")];
      var end := Walk([], 0, Start);
      LineBreak(w, style.indent);
      hide Go;
      DefinitionGoes(d[0], style, w);
      DefinitionsGo(d[1..], style, false, end);
      GoTwo(DefinitionBits(d[0], style), DefinitionsBits(d[1..], style, false), w, end, end, style.indent);
      GoTwo(gap, DefinitionBits(d[0], style) + DefinitionsBits(d[1..], style, false), w, w, end, style.indent);
    }
  }

  /** In every style, every line of a printed document is as deep as its brackets ask for, all brackets are closed, and
      the text ends with a line break. */
  lemma {:induction false} PrintedIndents(d: Document, style: Style)
    requires d != []
    ensures Go(DocumentBits(d, style), Walk([], 0, Start), style.indent) == Some(Walk([], 0, Start))
  {
    DefinitionsGo(d, style, true, Walk([], 0, Start));
  }
}
