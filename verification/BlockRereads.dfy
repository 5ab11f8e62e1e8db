/** Block strings read back: which lines, and when the text itself. */
module BlockRereads {
  import opened Common
  import opened Lexer
  import opened BlockStrings

  predicate Blank(line: string) {
    Trim(line) == ""
  }

  /** A carriage return at the end of a line is taken for part of its ending. */
  function Chomped(line: string): string {
    if line != "" && line[|line| - 1] == '\r' then line[..|line| - 1] else line
  }

  /** The indentation all lines have that are not blank. */
  function Shared(lines: seq<string>): nat {
    match LeastIndent(lines) case Some(n) => n case None => 0
  }

  /** A line as it is read back: blank ones empty, the others without the common indentation. */
  function LineBack(line: string, common: nat): string {
    if Blank(line) || |Chomped(line)| <= common then "" else Chomped(line)[common..]
  }

  function LinesBack(lines: seq<string>, common: nat): seq<string> {
    if lines == [] then [] else [LineBack(lines[0], common)] + LinesBack(lines[1..], common)
  }

  /** Every line with a newline behind it. */
  function Ended(lines: seq<string>): string {
    if lines == [] then "" else lines[0] + "\n" + Ended(lines[1..])
  }

  /** Without blanks before the closing quotes, a blank last line is taken for the one the quotes stand on. */
  function KeptLines(lines: seq<string>, margin: bool): seq<string> {
    if margin && lines != [] && Blank(lines[|lines| - 1]) then lines[..|lines| - 1] else lines
  }

  /** The text a block is read back as; `margin` is for a block whose closing quotes stand at the margin. */
  function BlockBack(s: string, margin: bool): string {
    Ended(LinesBack(KeptLines(Lines(s), margin), Shared(Lines(s))))
  }

  // ----- white space -----

  lemma {:induction false} TrimStartIs(line: string)
    ensures TrimStart(line) == line[|line| - |TrimStart(line)|..]
    ensures forall k :: 0 <= k < |line| - |TrimStart(line)| ==> IsSpace(line[k])
    ensures TrimStart(line) != "" ==> !IsSpace(TrimStart(line)[0])
  {
    if line != "" && IsSpace(line[0]) {
      TrimStartIs(line[1..]);
    }
  }

  lemma {:induction false} TrimEndKeeps(s: string)
    requires s != "" && !IsSpace(s[0])
    ensures TrimEnd(s) != ""
  {
    if IsSpace(s[|s| - 1]) {
      TrimEndKeeps(s[..|s| - 1]);
    }
  }

  /** A line is blank exactly when nothing is left behind its indentation. */
  lemma BlankIff(line: string)
    ensures Blank(line) <==> TrimStart(line) == ""
    ensures Blank(line) <==> forall k :: 0 <= k < |line| ==> IsSpace(line[k])
  {
    TrimStartIs(line);
    if TrimStart(line) != "" {
      TrimEndKeeps(TrimStart(line));
      assert line[|line| - |TrimStart(line)|] == TrimStart(line)[0];
    }
  }

  lemma {:induction false} TrimStartSpaces(n: nat, rest: string)
    ensures TrimStart(Spaces(n) + rest) == TrimStart(rest)
  {
    if n == 0 {
      assert Spaces(0) + rest == rest;
    } else {
      assert (Spaces(n) + rest)[1..] == Spaces(n - 1) + rest;
      TrimStartSpaces(n - 1, rest);
    }
  }

  lemma {:induction false} ChompedTrim(line: string)
    requires !Blank(line)
    ensures |TrimStart(Chomped(line))| > 0 && |Chomped(line)| - |TrimStart(Chomped(line))| == |line| - |TrimStart(line)|
    ensures !Blank(Chomped(line))
    decreases |line|
  {
    BlankIff(line);
    if IsSpace(line[0]) {
      assert line == [line[0]] + line[1..];
      BlankIff(line[1..]);
      ChompedTrim(line[1..]);
      assert Chomped(line) == [line[0]] + Chomped(line[1..]);
      assert Chomped(line)[1..] == Chomped(line[1..]);
    } else {
      assert line[0] != '\r';
      assert Chomped(line)[0] == line[0];
    }
    BlankIff(Chomped(line));
  }

  // ----- guarding -----

  lemma {:induction false} GuardedBlank(line: string, n: nat)
    requires n <= |line| && forall k :: 0 <= k < n ==> IsSpace(line[k])
    ensures Guarded(line) == line[..n] + Guarded(line[n..])
  {
    if n == 0 {
      assert line[..0] + Guarded(line) == Guarded(line) && line[0..] == line;
    } else {
      GuardedBlank(line[1..], n - 1);
      assert line[..n] == [line[0]] + line[1..][..n - 1] && line[1..][n - 1..] == line[n..];
    }
  }

  lemma {:induction false} UnguardedGuarded(line: string)
    ensures Unguarded(Guarded(line)) == line
    decreases |line|
  {
    if line != "" {
      if TripleAt(line, 0) {
        var rest := Guarded(line[3..]);
        assert Guarded(line) == "\\" + TRIPLE + rest;
        assert Guarded(line)[4..] == rest && TripleAt(Guarded(line), 1);
        UnguardedGuarded(line[3..]);
        assert line == TRIPLE + line[3..];
      } else {
        var rest := Guarded(line[1..]);
        assert Guarded(line) == [line[0]] + rest && Guarded(line)[1..] == rest;
        GuardedStart(line[1..]);
        assert TripleAt(Guarded(line), 1) <==> TripleAt(rest, 0);
        UnguardedGuarded(line[1..]);
        assert line == [line[0]] + line[1..];
      }
    }
  }

  /** Guarded text never starts with a triple quote. */
  lemma {:induction false} GuardedStart(line: string)
    ensures !TripleAt(Guarded(line), 0)
  {
    if line != "" && !TripleAt(line, 0) {
      NoTripleYet(line, "\n");
      var g := Guarded(line);
      assert forall k :: 0 <= k < |g| ==> (g + "\n")[k] == g[k];
    }
  }

  lemma {:induction false} GuardedSnoc(line: string, c: char)
    requires c != '"'
    ensures Guarded(line + [c]) == Guarded(line) + [c]
    decreases |line|
  {
    var all := line + [c];
    if line == "" {
      assert all == [c] && all[1..] == "";
    } else {
      assert TripleAt(all, 0) <==> TripleAt(line, 0);
      if TripleAt(line, 0) {
        assert all[3..] == line[3..] + [c];
        GuardedSnoc(line[3..], c);
      } else {
        assert all[1..] == line[1..] + [c];
        GuardedSnoc(line[1..], c);
      }
    }
  }

  lemma {:induction false} GuardedInLine(line: string)
    requires '\n' !in line
    ensures '\n' !in Guarded(line)
    decreases |line|
  {
    if line != "" {
      if TripleAt(line, 0) {
        GuardedInLine(line[3..]);
      } else {
        GuardedInLine(line[1..]);
      }
    }
  }

  // ----- the lines of a block -----

  /** A line of the block as its text is split into lines again. */
  function Written(line: string, indent: nat): string {
    if Blank(line) then "" else Spaces(indent) + Guarded(Chomped(line))
  }

  function AllWritten(lines: seq<string>, indent: nat): (r: seq<string>)
    ensures |r| == |lines| && forall i :: 0 <= i < |r| ==> r[i] == Written(lines[i], indent)
  {
    seq(|lines|, i requires 0 <= i < |lines| => Written(lines[i], indent))
  }

  lemma {:induction false} AllWrittenCons(lines: seq<string>, indent: nat, tail: seq<string>)
    ensures lines == [] ==> AllWritten(lines, indent) + tail == tail
    ensures lines != [] ==> AllWritten(lines, indent) + tail == [Written(lines[0], indent)] + (AllWritten(lines[1..], indent) + tail)
  {
    hide Written;
  }

  lemma {:induction false} LineEndAt(text: string, rest: string, i: nat)
    requires i <= |text| && '\n' !in text
    ensures LineEnd(text + "\n" + rest, i) == |text|
    decreases |text| - i
  {
    if i < |text| {
      assert (text + "\n" + rest)[i] == text[i];
      LineEndAt(text, rest, i + 1);
    }
  }

  lemma LinesCons(text: string, rest: string)
    requires '\n' !in text
    ensures Lines(text + "\n" + rest) == [Chomped(text)] + Lines(rest)
  {
    var all := text + "\n" + rest;
    LineEndAt(text, rest, 0);
    assert all[..|text|] == text && all[|text| + 1..] == rest;
    if text != "" {
      assert all[|text| - 1] == text[|text| - 1] && all[..|text| - 1] == text[..|text| - 1];
    }
  }

  lemma {:induction false} WrittenLine(line: string, indent: nat, rest: string)
    requires '\n' !in line
    ensures Lines(LineText(line, indent) + rest) == [Written(line, indent)] + Lines(rest)
  {
    if Blank(line) {
      LinesCons("", rest);
      assert LineText(line, indent) + rest == "" + "\n" + rest;
    } else {
      var text := Spaces(indent) + Guarded(line);
      GuardedInLine(line);
      LinesCons(text, rest);
      ChompedGuarded(line, indent);
      hide Lines, Guarded, Trim;
      assert LineText(line, indent) + rest == text + "\n" + rest;
    }
  }

  lemma ChompedGuarded(line: string, indent: nat)
    requires !Blank(line)
    ensures Chomped(Spaces(indent) + Guarded(line)) == Spaces(indent) + Guarded(Chomped(line))
  {
    BlankIff(line);
    var n := |line| - 1;
    assert line == line[..n] + [line[n]];
    var text := Spaces(indent) + Guarded(line);
    if line[n] == '\r' {
      GuardedSnoc(line[..n], '\r');
      assert text == Spaces(indent) + Guarded(line[..n]) + "\r";
    } else {
      GuardedLast(line);
      assert text[|text| - 1] == Guarded(line)[|Guarded(line)| - 1];
    }
  }

  lemma {:induction false} GuardedLast(line: string)
    requires line != ""
    ensures Guarded(line) != "" && Guarded(line)[|Guarded(line)| - 1] == line[|line| - 1]
    decreases |line|
  {
    if TripleAt(line, 0) {
      if |line| > 3 {
        GuardedLast(line[3..]);
      }
    } else if |line| > 1 {
      GuardedLast(line[1..]);
    }
  }

  lemma {:induction false} BodyLines(lines: seq<string>, indent: nat, outer: nat)
    requires forall i :: 0 <= i < |lines| ==> '\n' !in lines[i]
    ensures Lines(BlockBody(lines, indent) + Spaces(outer)) == AllWritten(lines, indent) + Lines(Spaces(outer))
  {
    AllWrittenCons(lines, indent, Lines(Spaces(outer)));
    BodyCons(lines, indent, Spaces(outer));
    hide *;
    if lines != [] {
      BodyLines(lines[1..], indent, outer);
      WrittenLine(lines[0], indent, BlockBody(lines[1..], indent) + Spaces(outer));
    }
  }

  lemma {:induction false} BodyCons(lines: seq<string>, indent: nat, rest: string)
    ensures lines == [] ==> BlockBody(lines, indent) + rest == rest
    ensures lines != [] ==> BlockBody(lines, indent) + rest == LineText(lines[0], indent) + (BlockBody(lines[1..], indent) + rest)
  {
    hide LineText;
  }

  lemma SpacesLine(n: nat)
    ensures Lines(Spaces(n)) == if n == 0 then [] else [Spaces(n)]
  {
    if n > 0 {
      NoNewline(Spaces(n), 0);
    }
  }

  lemma {:induction false} NoNewline(s: string, i: nat)
    requires i <= |s| && '\n' !in s
    ensures LineEnd(s, i) == |s|
    decreases |s| - i
  {
    if i < |s| {
      NoNewline(s, i + 1);
    }
  }

  // ----- indentation -----

  lemma {:induction false} WrittenIndent(line: string, indent: nat)
    ensures Blank(line) ==> |TrimStart(Written(line, indent))| == 0
    ensures !Blank(line) ==>
      && |TrimStart(Written(line, indent))| > 0
      && |Written(line, indent)| - |TrimStart(Written(line, indent))| == indent + (|line| - |TrimStart(line)|)
  {
    if !Blank(line) {
      var c := Chomped(line);
      ChompedTrim(line);
      TrimStartIs(c);
      var n := |c| - |TrimStart(c)|;
      GuardedBlank(c, n);
      TrimStartSpaces(indent, Guarded(c));
      TrimStartAfter(c[..n], Guarded(c[n..]));
      GuardedFirst(c[n..]);
    }
  }

  lemma {:induction false} TrimStartAfter(blanks: string, rest: string)
    requires forall k :: 0 <= k < |blanks| ==> IsSpace(blanks[k])
    ensures TrimStart(blanks + rest) == TrimStart(rest)
  {
    if blanks == "" {
      assert blanks + rest == rest;
    } else {
      assert (blanks + rest)[1..] == blanks[1..] + rest;
      TrimStartAfter(blanks[1..], rest);
    }
  }

  lemma GuardedFirst(line: string)
    requires line != "" && !IsSpace(line[0])
    ensures Guarded(line) != "" && !IsSpace(Guarded(line)[0]) && TrimStart(Guarded(line)) == Guarded(line)
  {
  }

  lemma {:induction false} IndentShifts(lines: seq<string>, indent: nat, tail: seq<string>)
    requires LeastIndent(tail) == None
    ensures LeastIndent(AllWritten(lines, indent) + tail) ==
            match LeastIndent(lines) case None => None case Some(n) => Some(indent + n)
  {
    AllWrittenCons(lines, indent, tail);
    LeastOfNone();
    hide AllWritten, Written, TrimStart, Blank, LeastIndent;
    if lines != [] {
      IndentShifts(lines[1..], indent, tail);
      WrittenIndent(lines[0], indent);
      BlankIff(lines[0]);
      LeastCons(Written(lines[0], indent), AllWritten(lines[1..], indent) + tail);
      LeastCons(lines[0], lines[1..]);
      assert lines == [lines[0]] + lines[1..];
    } else {
      assert lines == [];
    }
  }

  lemma LeastOfNone()
    ensures LeastIndent([]) == None
  {
  }

  lemma LeastCons(line: string, rest: seq<string>)
    ensures var own := |line| - |TrimStart(line)|;
      LeastIndent([line] + rest) ==
      if TrimStart(line) == "" then LeastIndent(rest)
      else match LeastIndent(rest) case None => Some(own) case Some(n) => Some(if n < own then n else own)
  {
    assert ([line] + rest)[1..] == rest;
  }

  /** No line that is not blank is indented less than all have in common. */
  lemma {:induction false} SharedLeast(lines: seq<string>, i: nat)
    requires i < |lines| && !Blank(lines[i])
    ensures LeastIndent(lines).Some? && Shared(lines) <= |lines[i]| - |TrimStart(lines[i])|
  {
    BlankIff(lines[i]);
    if i > 0 {
      SharedLeast(lines[1..], i - 1);
    }
  }

  // ----- reading -----

  function WithEnds(lines: seq<string>): (r: seq<string>)
    ensures |r| == |lines| && forall i :: 0 <= i < |r| ==> r[i] == lines[i] + "\n"
  {
    seq(|lines|, i requires 0 <= i < |lines| => lines[i] + "\n")
  }

  lemma {:induction false} EndedIs(lines: seq<string>)
    ensures Concat(WithEnds(lines)) == Ended(lines)
  {
    if lines != [] {
      EndedIs(lines[1..]);
      assert WithEnds(lines)[1..] == WithEnds(lines[1..]);
    }
  }

  /** A written line without the indentation of the block and the common one, and its guards, is the line read back. */
  lemma {:induction false} LineReads(line: string, indent: nat, common: nat)
    requires !Blank(line) ==> common <= |line| - |TrimStart(line)|
    ensures var w := Written(line, indent);
      (if |w| > indent + common then Unguarded(w[indent + common..]) else "") == LineBack(line, common)
  {
    if !Blank(line) {
      var c := Chomped(line);
      ChompedTrim(line);
      TrimStartIs(c);
      GuardedBlank(c, common);
      UnguardedGuarded(c[common..]);
      var w := Written(line, indent);
      GuardedLast(c[common..]);
      assert w == Spaces(indent) + c[..common] + Guarded(c[common..]);
      assert w[indent + common..] == Guarded(c[common..]);
    }
  }

  lemma {:induction false} DedentedIs(lines: seq<string>, indent: nat, common: nat, tail: seq<string>)
    requires forall i :: 0 <= i < |lines| && !Blank(lines[i]) ==> common <= |lines[i]| - |TrimStart(lines[i])|
    ensures Dedented(AllWritten(lines, indent) + tail, indent + common)
         == WithEnds(LinesBack(lines, common)) + Dedented(tail, indent + common)
    decreases |lines|
  {
    AllWrittenCons(lines, indent, tail);
    BackCons(lines, common, Dedented(tail, indent + common));
    hide *;
    if lines != [] {
      assert forall i :: 0 <= i < |lines[1..]| ==> lines[1..][i] == lines[i + 1];
      LineReads(lines[0], indent, common);
      DedentedIs(lines[1..], indent, common, tail);
      DedentedCons(Written(lines[0], indent), AllWritten(lines[1..], indent) + tail, indent + common);
    }
  }

  lemma {:induction false} DedentedCons(line: string, rest: seq<string>, indent: nat)
    ensures Dedented([line] + rest, indent)
         == [(if |line| > indent then Unguarded(line[indent..]) else "") + "\n"] + Dedented(rest, indent)
  {
    hide Unguarded;
    assert ([line] + rest)[1..] == rest;
  }

  lemma {:induction false} BackCons(lines: seq<string>, common: nat, rest: seq<string>)
    ensures lines == [] ==> WithEnds(LinesBack(lines, common)) + rest == rest
    ensures lines != [] ==>
      WithEnds(LinesBack(lines, common)) + rest
      == [LineBack(lines[0], common) + "\n"] + (WithEnds(LinesBack(lines[1..], common)) + rest)
  {
    hide LineBack;
  }

  lemma {:induction false} LinesBackAt(lines: seq<string>, common: nat)
    ensures |LinesBack(lines, common)| == |lines|
    ensures forall i :: 0 <= i < |lines| ==> LinesBack(lines, common)[i] == LineBack(lines[i], common)
  {
    if lines != [] {
      hide LineBack;
      LinesBackAt(lines[1..], common);
    }
  }

  /** How a line read back shows whether it was blank. */
  lemma BackBlankIff(line: string, common: nat)
    requires !Blank(line) ==> common <= |line| - |TrimStart(line)|
    ensures Blank(LineBack(line, common) + "\n") <==> Blank(line)
  {
    var back := LineBack(line, common) + "\n";
    BlankIff(back);
    if Blank(line) {
      assert back == "\n";
    } else {
      ChompedTrim(line);
      TrimStartIs(Chomped(line));
      var c := Chomped(line);
      var n := |c| - |TrimStart(c)|;
      assert back[n - common] == c[n] == TrimStart(c)[0];
    }
  }

  // ----- the whole block -----

  lemma {:induction false} UnguardedSpaces(n: nat)
    ensures Unguarded(Spaces(n)) == Spaces(n)
  {
    if n > 0 {
      assert Spaces(n)[1..] == Spaces(n - 1);
      UnguardedSpaces(n - 1);
      assert Spaces(n) == [' '] + Spaces(n - 1);
    }
  }

  lemma {:induction false} AllBlank(lines: seq<string>, indent: nat)
    requires LeastIndent(lines) == None
    ensures AllWritten(lines, indent) == AllWritten(lines, 0)
  {
    forall i | 0 <= i < |lines| ensures Written(lines[i], indent) == Written(lines[i], 0) {
      if !Blank(lines[i]) {
        SharedLeast(lines, i);
      }
    }
  }

  /** The line the closing quotes stand on is blank, and read back as a blank line. */
  lemma {:induction false} ClosingLine(outer: nat, indent: nat)
    requires indent == 0 || outer <= indent
    ensures var tail := Lines(Spaces(outer));
      && LeastIndent(tail) == None
      && |Dedented(tail, indent)| == (if outer == 0 then 0 else 1)
      && (outer > 0 ==> Blank(Dedented(tail, indent)[0]))
  {
    SpacesLine(outer);
    if outer > 0 {
      var line := Spaces(outer);
      assert [line][1..] == [];
      TrimStartSpaces(outer, "");
      assert line + "" == line;
      UnguardedSpaces(outer);
      assert line[0..] == line;
      BlankIff(line + "\n");
      BlankIff("\n");
    }
  }

  /** Dropping a blank last line, as reading a block does. */
  function Closed(lines: seq<string>): string {
    if lines == [] then ""
    else if Blank(lines[|lines| - 1]) then Concat(lines[..|lines| - 1])
    else Concat(lines)
  }

  lemma {:induction false} UnquoteIs(src: string, rest: seq<string>)
    requires |src| >= 6 && Lines(src[3..|src| - 3]) == [""] + rest
    ensures UnquoteBlock(src) == Closed(Dedented(rest, Shared(rest)))
  {
    EmptyIsBlank();
    ReassembledIs(Dedented(rest, Shared(rest)));
    hide Lines, Dedented, LeastIndent, Trim, Reassembled;
    assert Lines(src[3..|src| - 3])[1..] == rest;
  }

  lemma {:induction false} ReassembledIs(lines: seq<string>)
    ensures Reassembled("", lines) == Closed(lines)
  {
    EmptyIsBlank();
    hide Trim;
    assert [] + lines == lines;
    assert lines != [] ==> [] + lines[..|lines| - 1] == lines[..|lines| - 1];
  }

  /** What is written for a string as a block is read back as its lines without their common indentation, each with a
      newline behind it. */
  lemma {:induction false} BlockReads(s: string, outer: nat, step: nat)
    requires '\n' in s
    ensures UnquoteBlock(BlockText(s, outer, step)) == BlockBack(s, outer == 0)
  {
    SomeLines(s);
    BlockLines(s, outer, step);
    hide *;
    var rest := AllWritten(Lines(s), outer + step) + Lines(Spaces(outer));
    UnquoteIs(BlockText(s, outer, step), rest);
    RestCloses(Lines(s), outer, step);
    BackIs(s, outer == 0);
  }

  lemma {:induction false} BlockLines(s: string, outer: nat, step: nat)
    ensures var src := BlockText(s, outer, step);
      |src| >= 6 && Lines(src[3..|src| - 3]) == [""] + (AllWritten(Lines(s), outer + step) + Lines(Spaces(outer)))
  {
    BlockInner(s, outer, step);
    hide *;
    BodyLines(Lines(s), outer + step, outer);
    FirstLine(BlockBody(Lines(s), outer + step) + Spaces(outer));
  }

  lemma FirstLine(body: string)
    ensures Lines("" + "\n" + body) == [""] + Lines(body)
  {
    LinesCons("", body);
  }

  lemma SomeLines(s: string)
    requires s != ""
    ensures Lines(s) != [] && AllInLine(Lines(s))
  {
  }

  lemma BackIs(s: string, margin: bool)
    ensures BlockBack(s, margin) == Ended(LinesBack(KeptLines(Lines(s), margin), Shared(Lines(s))))
  {
  }

  lemma {:induction false} BlockInner(s: string, outer: nat, step: nat)
    ensures var src := BlockText(s, outer, step);
      |src| >= 6 && src[3..|src| - 3] == "" + "\n" + (BlockBody(Lines(s), outer + step) + Spaces(outer))
  {
    hide BlockBody, Lines, Spaces;
    var body, src := BlockBody(Lines(s), outer + step) + Spaces(outer), BlockText(s, outer, step);
    var inner := "\n" + BlockBody(Lines(s), outer + step) + Spaces(outer);
    assert src == TRIPLE + inner + TRIPLE;
    assert src[3..|src| - 3] == inner == "" + "\n" + body;
  }

  lemma {:induction false} RestCloses(lines: seq<string>, outer: nat, step: nat)
    requires lines != []
    ensures var rest := AllWritten(lines, outer + step) + Lines(Spaces(outer));
      Closed(Dedented(rest, Shared(rest))) == Ended(LinesBack(KeptLines(lines, outer == 0), Shared(lines)))
  {
    hide *;
    var common, tail := Shared(lines), Lines(Spaces(outer));
    var own := OwnIndent(lines, outer, step);
    ClosingLine(outer, own + common);
    SharedLeasts(lines);
    DedentedIs(lines, own, common, tail);
    BackBlankIff(lines[|lines| - 1], common);
    DroppedLine(lines, common, Dedented(tail, own + common), outer == 0);
  }

  lemma {:induction false} SharedLeasts(lines: seq<string>)
    ensures forall i :: 0 <= i < |lines| && !Blank(lines[i]) ==> Shared(lines) <= |lines[i]| - |TrimStart(lines[i])|
  {
    hide Shared, TrimStart;
    forall i | 0 <= i < |lines| && !Blank(lines[i]) ensures Shared(lines) <= |lines[i]| - |TrimStart(lines[i])| {
      SharedLeast(lines, i);
    }
  }

  /** The indentation of the block as it is found again; where all lines are blank it is not. */
  lemma {:induction false} OwnIndent(lines: seq<string>, outer: nat, step: nat) returns (own: nat)
    ensures var tail := Lines(Spaces(outer));
      && AllWritten(lines, outer + step) + tail == AllWritten(lines, own) + tail
      && Shared(AllWritten(lines, outer + step) + tail) == own + Shared(lines)
      && (own + Shared(lines) == 0 || outer <= own + Shared(lines))
  {
    hide Lines, AllWritten, LeastIndent, Dedented, Spaces;
    ClosingLine(outer, outer + step);
    IndentShifts(lines, outer + step, Lines(Spaces(outer)));
    if LeastIndent(lines) == None {
      AllBlank(lines, outer + step);
      own := 0;
    } else {
      own := outer + step;
    }
  }

  lemma {:induction false} DroppedLine(lines: seq<string>, common: nat, closing: seq<string>, margin: bool)
    requires lines != [] && |closing| == (if margin then 0 else 1) && (!margin ==> Blank(closing[0]))
    requires Blank(LineBack(lines[|lines| - 1], common) + "\n") <==> Blank(lines[|lines| - 1])
    ensures Closed(WithEnds(LinesBack(lines, common)) + closing) == Ended(LinesBack(KeptLines(lines, margin), common))
  {
    hide *;
    var n := |lines| - 1;
    var back := LinesBack(lines, common);
    LinesBackAt(lines, common);
    LinesBackAt(lines[..n], common);
    assert LinesBack(lines[..n], common) == back[..n];
    KeptIs(lines, margin);
    EndedIs(back);
    EndedIs(back[..n]);
    if margin {
      assert closing == [];
      assert WithEnds(back) + closing == WithEnds(back[..n]) + [back[n] + "\n"] == WithEnds(back);
      ClosedLast(WithEnds(back[..n]), back[n] + "\n");
    } else {
      assert closing == [closing[0]];
      ClosedLast(WithEnds(back), closing[0]);
    }
  }

  lemma KeptIs(lines: seq<string>, margin: bool)
    ensures KeptLines(lines, margin) ==
            if margin && lines != [] && Blank(lines[|lines| - 1]) then lines[..|lines| - 1] else lines
  {
  }

  lemma ClosedLast(lines: seq<string>, last: string)
    ensures Closed(lines + [last]) == if Blank(last) then Concat(lines) else Concat(lines + [last])
  {
    hide Blank, Concat;
    assert (lines + [last])[..|lines|] == lines;
  }

  // ----- which texts come back -----

  /** A newline ends the text, and no carriage return stands before a newline. */
  predicate Terminated(s: string) {
    && s != "" && s[|s| - 1] == '\n'
    && forall i :: 0 <= i < |s| - 1 ==> !(s[i] == '\r' && s[i + 1] == '\n')
  }

  /** The text ends with a newline, has no carriage return before one, no blanks on blank lines, some line that is not
      indented if any is not blank, and, where the closing quotes stand at the margin, a last line that is not blank. */
  predicate KeptBlock(s: string, margin: bool) {
    && Terminated(s)
    && (forall i :: 0 <= i < |Lines(s)| ==> Blank(Lines(s)[i]) ==> Lines(s)[i] == "")
    && Shared(Lines(s)) == 0
    && (margin ==> !Blank(Lines(s)[|Lines(s)| - 1]))
  }

  predicate AllChomped(lines: seq<string>) {
    forall i :: 0 <= i < |lines| ==> Chomped(lines[i]) == lines[i]
  }

  predicate AllInLine(lines: seq<string>) {
    forall i :: 0 <= i < |lines| ==> '\n' !in lines[i]
  }

  lemma {:induction false} TerminatedLines(s: string)
    requires Terminated(s)
    ensures Ended(Lines(s)) == s && AllChomped(Lines(s)) && Lines(s) != []
    decreases |s|
  {
    hide Lines, LineEnd, Ended, Chomped;
    var n := LineEnd(s, 0);
    var line, rest := s[..n], s[n + 1..];
    assert s == line + "\n" + rest;
    LinesCons(line, rest);
    LineStays(s, n);
    EndedCons(line, Lines(rest));
    if rest != "" {
      RestTerminated(s, n + 1);
      TerminatedLines(rest);
    } else {
      EndsNothing();
    }
  }

  lemma LineStays(s: string, n: nat)
    requires Terminated(s) && n < |s| && s[n] == '\n'
    ensures Chomped(s[..n]) == s[..n]
  {
    assert n > 0 ==> s[n - 1] == s[..n][n - 1];
  }

  lemma RestTerminated(s: string, n: nat)
    requires Terminated(s) && n < |s|
    ensures Terminated(s[n..])
  {
    assert forall i :: 0 <= i < |s| - n ==> s[n..][i] == s[n + i];
  }

  lemma EndsNothing()
    ensures Lines("") == [] && Ended([]) == ""
  {
  }

  lemma EndedCons(line: string, lines: seq<string>)
    ensures Ended([line] + lines) == line + "\n" + Ended(lines)
  {
    assert ([line] + lines)[1..] == lines;
  }

  function ChompedAll(lines: seq<string>): (r: seq<string>)
    ensures |r| == |lines| && forall i :: 0 <= i < |r| ==> r[i] == Chomped(lines[i])
  {
    seq(|lines|, i requires 0 <= i < |lines| => Chomped(lines[i]))
  }

  lemma {:induction false} LinesOfEnded(lines: seq<string>)
    requires AllInLine(lines)
    ensures Lines(Ended(lines)) == ChompedAll(lines)
  {
    if lines != [] {
      LinesOfEnded(lines[1..]);
      LinesCons(lines[0], Ended(lines[1..]));
      hide Lines, Chomped;
      assert ChompedAll(lines) == [Chomped(lines[0])] + ChompedAll(lines[1..]);
    }
  }

  lemma {:induction false} EndedTerminated(lines: seq<string>)
    requires AllInLine(lines) && AllChomped(lines) && lines != []
    ensures Terminated(Ended(lines))
  {
    var s, head, rest := Ended(lines), lines[0], Ended(lines[1..]);
    assert s == head + "\n" + rest;
    if |lines| > 1 {
      EndedTerminated(lines[1..]);
    }
    forall i | 0 <= i < |s| - 1 ensures !(s[i] == '\r' && s[i + 1] == '\n') {
      if i < |head| {
        assert s[i] == head[i];
        assert i + 1 < |head| ==> s[i + 1] == head[i + 1];
      } else if i > |head| {
        assert s[i] == rest[i - |head| - 1] && s[i + 1] == rest[i - |head|];
      }
    }
  }

  lemma BackInLine(line: string, common: nat)
    requires '\n' !in line
    ensures '\n' !in LineBack(line, common) && |LineBack(line, common)| <= |line|
    ensures Chomped(LineBack(line, common)) == line ==> LineBack(line, common) == line
    ensures LineBack(line, common) == line ==> (Blank(line) ==> line == "") && (!Blank(line) ==> common == 0 || line == "")
  {
    hide Blank;
  }

  lemma {:induction false} SomeLine(lines: seq<string>)
    requires LeastIndent(lines).Some?
    ensures exists i :: 0 <= i < |lines| && !Blank(lines[i])
  {
    BlankIff(lines[0]);
    if Blank(lines[0]) {
      SomeLine(lines[1..]);
      var i :| 0 <= i < |lines[1..]| && !Blank(lines[1..][i]);
      assert !Blank(lines[i + 1]);
    }
  }

  lemma {:induction false} KeptLinesBack(lines: seq<string>)
    requires AllChomped(lines) && forall i :: 0 <= i < |lines| ==> Blank(lines[i]) ==> lines[i] == ""
    ensures LinesBack(lines, 0) == lines
  {
    LinesBackAt(lines, 0);
    hide LinesBack, Blank;
    forall i | 0 <= i < |lines| ensures LineBack(lines[i], 0) == lines[i] {
      assert Chomped(lines[i]) == lines[i] && lines[i][0..] == lines[i];
    }
  }

  /** A text written as a block comes back unchanged exactly when it is kept. */
  lemma {:induction false} BlockKeptIff(s: string, margin: bool)
    requires s != ""
    ensures BlockBack(s, margin) == s <==> KeptBlock(s, margin)
  {
    var lines := Lines(s);
    if KeptBlock(s, margin) {
      TerminatedLines(s);
      KeptLinesBack(lines);
    }
    if BlockBack(s, margin) == s {
      BackIsKept(s, margin);
    }
  }

  lemma {:induction false} BackIsKept(s: string, margin: bool)
    requires s != "" && BlockBack(s, margin) == s
    ensures KeptBlock(s, margin)
  {
    var lines := Lines(s);
    var kept, common := KeptLines(lines, margin), Shared(lines);
    var back := LinesBack(kept, common);
    LinesBackAt(kept, common);
    assert lines != [];
    hide Lines, LinesBack, LeastIndent, Blank, Chomped, LineBack, Ended, TrimStart, Shared;
    forall i | 0 <= i < |back| ensures '\n' !in back[i] {
      BackInLine(kept[i], common);
    }
    LinesOfEnded(back);
    assert kept == lines;
    forall i | 0 <= i < |lines| ensures back[i] == lines[i] && Chomped(lines[i]) == lines[i] {
      BackInLine(lines[i], common);
    }
    assert back == lines;
    forall i | 0 <= i < |lines| && Blank(lines[i]) ensures lines[i] == "" {
      BackInLine(lines[i], common);
    }
    NoneShared(lines);
    EndedTerminated(lines);
    EmptyIsBlank();
  }

  lemma EmptyIsBlank()
    ensures Blank("") && Ended([]) == ""
  {
  }

  lemma {:induction false} NoneShared(lines: seq<string>)
    requires AllInLine(lines) && forall i :: 0 <= i < |lines| ==> LineBack(lines[i], Shared(lines)) == lines[i]
    ensures Shared(lines) == 0
  {
    if LeastIndent(lines).Some? {
      SomeLine(lines);
      var i :| 0 <= i < |lines| && !Blank(lines[i]);
      EmptyIsBlank();
      hide LeastIndent;
      BackInLine(lines[i], Shared(lines));
    }
  }

  /** A block gives every line a newline, the last one included. */
  lemma {:induction false} BlockGainsNewline(a: char, b: char, outer: nat, step: nat)
    requires !IsSpace(a) && !IsSpace(b)
    ensures UnquoteBlock(BlockText([a, '\n', b], outer, step)) == [a, '\n', b, '\n']
  {
    var s := [a, '\n', b];
    assert s == [a] + "\n" + [b];
    LinesCons([a], [b]);
    NoNewline([b], 0);
    BlankIff([a]);
    BlankIff([b]);
    assert Lines(s) == [[a], [b]] && [[a], [b]][1..] == [[b]];
    assert TrimStart([a]) == [a] && TrimStart([b]) == [b];
    assert Shared([[b]]) == 0 && Shared(Lines(s)) == 0;
    assert LineBack([a], 0) == [a] && LineBack([b], 0) == [b];
    assert LinesBack([[b]], 0) == [[b]] && LinesBack(Lines(s), 0) == [[a], [b]];
    assert Ended([[b]]) == [b, '\n'] && Ended([[a], [b]]) == [a] + "\n" + [b, '\n'];
    BlockReads(s, outer, step);
  }
}
