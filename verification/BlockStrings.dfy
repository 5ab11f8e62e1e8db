/** Block strings: how they are written and read, and that what is written is always one token. */
module BlockStrings {
  import opened Common
  import opened Lexer
  import opened Scanning

  // ----- lines -----

  function LineEnd(s: string, i: nat): (n: nat)
    requires i <= |s|
    ensures i <= n <= |s| && (n < |s| ==> s[n] == '\n')
    ensures forall k :: i <= k < n ==> s[k] != '\n'
    decreases |s| - i
  {
    if i == |s| || s[i] == '\n' then i else LineEnd(s, i + 1)
  }

  /** The lines of a text; a carriage return before a newline belongs to the line ending. */
  function Lines(s: string): (lines: seq<string>)
    ensures forall i :: 0 <= i < |lines| ==> '\n' !in lines[i]
    decreases |s|
  {
    if s == "" then []
    else
      var n := LineEnd(s, 0);
      if n == |s| then [s]
      else [if n > 0 && s[n - 1] == '\r' then s[..n - 1] else s[..n]] + Lines(s[n + 1..])
  }

  /** The Unicode white space. */
  predicate IsSpace(c: char) {
    var n := c as int;
    9 <= n <= 13 || n == 0x20 || n == 0x85 || n == 0xA0 || n == 0x1680 || 0x2000 <= n <= 0x200A
    || n == 0x2028 || n == 0x2029 || n == 0x202F || n == 0x205F || n == 0x3000
  }

  function TrimStart(s: string): (r: string)
    ensures |r| <= |s|
  {
    if s != "" && IsSpace(s[0]) then TrimStart(s[1..]) else s
  }

  function TrimEnd(s: string): string {
    if s != "" && IsSpace(s[|s| - 1]) then TrimEnd(s[..|s| - 1]) else s
  }

  function Trim(s: string): string {
    TrimEnd(TrimStart(s))
  }

  // ----- writing -----

  function Spaces(n: nat): string {
    Repeat(' ', n)
  }

  /** A backslash goes before every triple quote. */
  function Guarded(line: string): string
    decreases |line|
  {
    if line == "" then ""
    else if TripleAt(line, 0) then "\\\"\"\"" + Guarded(line[3..])
    else [line[0]] + Guarded(line[1..])
  }

  function LineText(line: string, indent: nat): string {
    if Trim(line) == "" then "\n" else Spaces(indent) + Guarded(line) + "\n"
  }

  function BlockBody(lines: seq<string>, indent: nat): string {
    if lines == [] then "" else LineText(lines[0], indent) + BlockBody(lines[1..], indent)
  }

  const TRIPLE := "\"\"\""

  function BlockText(s: string, indent: nat, step: nat): string {
    TRIPLE + ("\n" + BlockBody(Lines(s), indent + step) + Spaces(indent)) + TRIPLE
  }

  // ----- reading -----

  /** The least indentation of the lines that are not blank. */
  function LeastIndent(lines: seq<string>): Option<nat> {
    if lines == [] then None
    else
      var rest := LeastIndent(lines[1..]);
      var trimmed := |TrimStart(lines[0])|;
      if trimmed == 0 then rest
      else
        var own := |lines[0]| - trimmed;
        if rest.Some? && rest.value < own then rest else Some(own)
  }

  /** The guards before triple quotes taken away. */
  function Unguarded(line: string): string
    decreases |line|
  {
    if line == "" then ""
    else if line[0] == '\\' && TripleAt(line, 1) then TRIPLE + Unguarded(line[4..])
    else [line[0]] + Unguarded(line[1..])
  }

  function Dedented(lines: seq<string>, indent: nat): seq<string> {
    if lines == [] then []
    else [(if |lines[0]| > indent then Unguarded(lines[0][indent..]) else "") + "\n"] + Dedented(lines[1..], indent)
  }

  /** The lines put together; a blank last one is dropped. */
  function Reassembled(first: string, rest: seq<string>): string {
    var head := if first == "" then [] else [first + "\n"];
    var last := if rest != [] then rest[|rest| - 1] else Concat(head);
    if Trim(last) == "" then
      (if rest != [] then Concat(head + rest[..|rest| - 1]) else "")
    else Concat(head + rest)
  }

  function UnquoteBlock(src: string): string
    requires |src| >= 6
  {
    var lines := Lines(src[3..|src| - 3]);
    if lines == [] then ""
    else
      var indent := match LeastIndent(lines[1..]) case Some(n) => n case None => 0;
      Reassembled(Trim(lines[0]), Dedented(lines[1..], indent))
  }

  // ----- one token -----

  lemma NoTripleYet(line: string, rest: string)
    requires line != "" && !TripleAt(line, 0) && rest != "" && rest[0] != '"'
    ensures !TripleAt(Guarded(line) + rest, 0)
  {
    assert Guarded(line) == [line[0]] + Guarded(line[1..]);
    if |line| > 1 && line[0] == '"' && line[1] == '"' {
      assert !TripleAt(line[1..], 0);
      assert Guarded(line[1..]) == [line[1]] + Guarded(line[1..][1..]);
      assert line[1..][1..] == line[2..];
      if |line| > 2 && !TripleAt(line[2..], 0) {
        assert Guarded(line[2..]) == [line[2]] + Guarded(line[2..][1..]);
      }
    }
  }

  lemma TripleShifts(tail: string, i: nat, part: string)
    requires i <= |tail| && tail[i..] == part
    ensures TripleAt(tail, i) <==> TripleAt(part, 0)
  {
    assert forall k :: 0 <= k < |part| ==> part[k] == tail[i + k];
  }

  lemma SliceTail(tail: string, i: nat, a: string, b: string)
    requires i <= |tail| && tail[i..] == a + b
    ensures i + |a| <= |tail| && tail[i + |a|..] == b
    ensures a != "" ==> tail[i] == a[0]
  {
    assert tail[i..][|a|..] == b;
    if a != "" {
      assert tail[i..][0] == (a + b)[0];
    }
  }

  lemma GuardSkipped(tail: string, i: nat, after: string)
    requires i <= |tail| && tail[i..] == "\\" + TRIPLE + after
    ensures i + 4 <= |tail| && tail[i + 4..] == after && BlockClose(tail, i) == BlockClose(tail, i + 4)
  {
    assert tail[i] == tail[i..][0] == '\\';
    assert tail[i + 1..] == tail[i..][1..] == TRIPLE + after;
    TripleShifts(tail, i + 1, TRIPLE + after);
    assert tail[i + 4..] == tail[i + 1..][3..] == after;
    assert BlockClose(tail, i) == BlockClose(tail, i + 1);
  }

  /** The scan goes over a guarded line without closing the block. */
  lemma {:induction false} GuardedScans(tail: string, i: nat, line: string, rest: string)
    requires i <= |tail| && tail[i..] == Guarded(line) + rest && rest != "" && rest[0] != '"'
    ensures i + |Guarded(line)| <= |tail| && tail[i + |Guarded(line)|..] == rest
    ensures BlockClose(tail, i) == BlockClose(tail, i + |Guarded(line)|)
    decreases |line|
  {
    if line == "" {
      assert Guarded(line) + rest == rest;
    } else {
      GuardedParts(line, rest);
      hide BlockClose, Guarded, TripleAt;
      if TripleAt(line, 0) {
        GuardSkipped(tail, i, Guarded(line[3..]) + rest);
        GuardedScans(tail, i + 4, line[3..], rest);
      } else {
        CharScans(tail, i, [line[0]], Guarded(line[1..]) + rest);
        GuardedScans(tail, i + 1, line[1..], rest);
      }
    }
  }

  lemma {:induction false} GuardedParts(line: string, rest: string)
    requires line != "" && rest != "" && rest[0] != '"'
    ensures TripleAt(line, 0) ==>
              Guarded(line) + rest == "\\" + TRIPLE + (Guarded(line[3..]) + rest) && |Guarded(line)| == 4 + |Guarded(line[3..])|
    ensures !TripleAt(line, 0) ==>
              Guarded(line) + rest == [line[0]] + (Guarded(line[1..]) + rest) && |Guarded(line)| == 1 + |Guarded(line[1..])|
    ensures !TripleAt(line, 0) ==> !TripleAt([line[0]] + (Guarded(line[1..]) + rest), 0)
  {
    if TripleAt(line, 0) {
      assert Guarded(line) == "\\\"\"\"" + Guarded(line[3..]);
    } else {
      NoTripleYet(line, rest);
      assert Guarded(line) == [line[0]] + Guarded(line[1..]);
    }
  }

  lemma {:induction false} CharScans(tail: string, i: nat, c: string, after: string)
    requires i <= |tail| && tail[i..] == c + after && |c| == 1 && !TripleAt(c + after, 0)
    ensures i < |tail| && tail[i + 1..] == after && BlockClose(tail, i) == BlockClose(tail, i + 1)
  {
    SliceTail(tail, i, c, after);
    TripleShifts(tail, i, c + after);
    hide TripleAt;
  }

  lemma {:induction false} BlanksScan(tail: string, i: nat, n: nat, rest: string)
    requires i <= |tail| && tail[i..] == Spaces(n) + rest
    ensures i + n <= |tail| && tail[i + n..] == rest && BlockClose(tail, i) == BlockClose(tail, i + n)
    decreases n
  {
    if n > 0 {
      assert tail[i] == tail[i..][0] == ' ';
      assert tail[i + 1..] == tail[i..][1..] == Spaces(n - 1) + rest;
      assert BlockClose(tail, i) == BlockClose(tail, i + 1);
      BlanksScan(tail, i + 1, n - 1, rest);
    } else {
      assert Spaces(0) + rest == rest;
    }
  }

  lemma NewlineScans(tail: string, i: nat, rest: string)
    requires i <= |tail| && tail[i..] == "\n" + rest
    ensures i + 1 <= |tail| && tail[i + 1..] == rest && BlockClose(tail, i) == BlockClose(tail, i + 1)
  {
    assert tail[i] == tail[i..][0] == '\n';
    assert tail[i + 1..] == tail[i..][1..] == rest;
  }

  lemma {:induction false} LineScans(tail: string, i: nat, line: string, indent: nat, rest: string)
    requires i <= |tail| && tail[i..] == LineText(line, indent) + rest
    ensures i + |LineText(line, indent)| <= |tail| && tail[i + |LineText(line, indent)|..] == rest
    ensures BlockClose(tail, i) == BlockClose(tail, i + |LineText(line, indent)|)
  {
    LineParts(line, indent, rest);
    hide BlockClose, Guarded, LineText, Spaces;
    if Trim(line) == "" {
      NewlineScans(tail, i, rest);
    } else {
      hide Trim;
      BlanksScan(tail, i, indent, Guarded(line) + ("\n" + rest));
      GuardedScans(tail, i + indent, line, "\n" + rest);
      NewlineScans(tail, i + indent + |Guarded(line)|, rest);
    }
  }

  lemma {:induction false} LineParts(line: string, indent: nat, rest: string)
    ensures Trim(line) == "" ==> LineText(line, indent) == "\n"
    ensures Trim(line) != "" ==>
              && LineText(line, indent) + rest == Spaces(indent) + (Guarded(line) + ("\n" + rest))
              && |LineText(line, indent)| == indent + |Guarded(line)| + 1
  {
    hide Trim, Guarded;
  }

  lemma {:induction false} BodyScans(tail: string, i: nat, lines: seq<string>, indent: nat, rest: string)
    requires i <= |tail| && tail[i..] == BlockBody(lines, indent) + rest
    ensures i + |BlockBody(lines, indent)| <= |tail| && tail[i + |BlockBody(lines, indent)|..] == rest
    ensures BlockClose(tail, i) == BlockClose(tail, i + |BlockBody(lines, indent)|)
    decreases |lines|
  {
    hide BlockClose, LineText;
    if lines == [] {
      assert "" + rest == rest;
    } else {
      var after := BlockBody(lines[1..], indent) + rest;
      assert BlockBody(lines, indent) + rest == LineText(lines[0], indent) + after;
      LineScans(tail, i, lines[0], indent, after);
      BodyScans(tail, i + |LineText(lines[0], indent)|, lines[1..], indent, rest);
    }
  }

  lemma ClosesAt(tail: string, end: nat)
    requires 0 < end <= |tail| && tail[end..] == TRIPLE && tail[end - 1] != '\\'
    ensures BlockClose(tail, end) == Some(end)
  {
    TripleShifts(tail, end, TRIPLE);
  }

  /** The body of a block with its closing quotes. */
  lemma {:induction false} TailCloses(body: string, lines: seq<string>, indent: nat, outer: nat)
    requires body == BlockBody(lines, indent)
    ensures var tail := "\n" + body + Spaces(outer) + TRIPLE; BlockClose(tail, 0) == Some(|tail| - 3)
  {
    var closing := Spaces(outer) + TRIPLE;
    var before := "\n" + body + Spaces(outer);
    var tail := before + TRIPLE;
    LastBefore(lines, indent, outer);
    hide BlockClose, BlockBody, Spaces;
    assert tail[0..] == tail == "\n" + (body + closing);
    NewlineScans(tail, 0, body + closing);
    BodyScans(tail, 1, lines, indent, closing);
    BlanksScan(tail, 1 + |body|, outer, TRIPLE);
    ClosesAt(tail, |before|);
  }

  lemma LastBefore(lines: seq<string>, indent: nat, outer: nat)
    ensures var before := "\n" + BlockBody(lines, indent) + Spaces(outer);
            before[|before| - 1] == '\n' || before[|before| - 1] == ' '
  {
    LastOfBody(lines, indent);
    var body := BlockBody(lines, indent);
    var before := "\n" + body + Spaces(outer);
    if outer == 0 {
      assert before == "\n" + body;
    }
  }

  lemma LastOfBody(lines: seq<string>, indent: nat)
    ensures var body := BlockBody(lines, indent); body != "" ==> body[|body| - 1] == '\n'
  {
  }

  /** What is written for a string as a block is scanned as one token, whatever quotes it contains. */
  lemma {:induction false} BlockIsToken(s: string, indent: nat, step: nat)
    ensures IsToken(Token(BlockString, BlockText(s, indent, step)))
  {
    var body := BlockBody(Lines(s), indent + step);
    var tail := "\n" + body + Spaces(indent) + TRIPLE;
    hide BlockClose, BlockBody, Spaces, Lines;
    assert BlockText(s, indent, step) == TRIPLE + tail;
    TailCloses(body, Lines(s), indent + step, indent);
    BlockScans(tail);
  }

  lemma BlockScans(tail: string)
    requires |tail| >= 3 && BlockClose(tail, 0) == Some(|tail| - 3)
    ensures IsToken(Token(BlockString, TRIPLE + tail))
  {
    var text := TRIPLE + tail;
    assert text[3..] == tail && TripleAt(text, 0);
  }
}
