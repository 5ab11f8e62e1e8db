/** Where a scan stands: offset, line and column, and how tokens and ignored text move it. */
module Positions {
  import opened Common
  import opened Lexer

  datatype Pos = Pos(line: nat, column: nat)

  datatype Checkpoint = Checkpoint(position: Pos, off: nat)

  function Newlines(text: string): nat {
    if text == "" then 0 else Newlines(text[..|text| - 1]) + (if text[|text| - 1] == '\n' then 1 else 0)
  }

  /** The number of characters after the last newline. */
  function LastLine(text: string): nat {
    if text == "" || text[|text| - 1] == '\n' then 0 else LastLine(text[..|text| - 1]) + 1
  }

  /** Only a block string moves to another line. */
  function AfterToken(p: Checkpoint, kind: Kind, text: string): Checkpoint {
    var Pos(line, column) := p.position;
    var lines := Newlines(text);
    var position :=
      if kind != BlockString then Pos(line, column + |text|)
      else if lines > 0 then Pos(line + lines, LastLine(text) + 1)
      else Pos(line, column + |text|);
    Checkpoint(position, p.off + |text|)
  }

  function AfterComment(buf: string, p: Checkpoint): (r: Checkpoint)
    requires p.off <= |buf|
    ensures r.off == CommentEnd(buf, p.off)
    decreases |buf| - p.off
  {
    if p.off == |buf| then p
    else if buf[p.off] == '\r' || buf[p.off] == '\n' then Checkpoint(Pos(p.position.line + 1, 1), p.off + 1)
    else AfterComment(buf, p.(off := p.off + 1))
  }

  /** A tab counts eight columns; a carriage return or a byte order mark counts none. */
  function AfterBlank(p: Checkpoint, c: char): Checkpoint {
    var Pos(line, column) := p.position;
    var position :=
      if c == '\t' then Pos(line, column + 8)
      else if c == '\n' then Pos(line + 1, 1)
      else if c == ' ' || c == ',' then Pos(line, column + 1)
      else p.position;
    Checkpoint(position, p.off + 1)
  }

  function AfterIgnored(buf: string, p: Checkpoint): (r: Checkpoint)
    requires p.off <= |buf|
    ensures r.off == SkipEnd(buf, p.off)
    decreases |buf| - p.off
  {
    if p.off == |buf| then p
    else if IsBlank(buf[p.off]) then AfterIgnored(buf, AfterBlank(p, buf[p.off]))
    else if buf[p.off] == '#' then AfterIgnored(buf, AfterComment(buf, p.(off := p.off + 1)))
    else p
  }

  /** What a scan from `p` that remembers nothing returns: the token there and the place of the next one. */
  function FreshScan(buf: string, p: Checkpoint): (r: Option<(Token, Checkpoint)>)
    requires p.off <= |buf|
    ensures r.Some? ==> p.off < p.off + |r.value.0.value| <= r.value.1.off <= |buf|
    ensures r.Some? ==> r.value.0.value == buf[p.off..p.off + |r.value.0.value|]
    ensures r.Some? ==> r.value.1.off == SkipEnd(buf, p.off + |r.value.0.value|)
  {
    match ScanToken(buf[p.off..])
    case Found(kind, n) =>
      var text := buf[p.off..p.off + n];
      Some((Token(kind, text), AfterIgnored(buf, AfterToken(p, kind, text))))
    case End => None
    case Bad => None
  }

  function Start(buf: string): (r: Checkpoint)
    ensures r.off <= |buf|
  {
    AfterIgnored(buf, Checkpoint(Pos(1, 1), 0))
  }

  // ----- offsets against suffixes -----

  lemma {:induction false} CommentEndShift(s: string, n: nat, i: nat)
    requires n + i <= |s|
    ensures CommentEnd(s, n + i) == n + CommentEnd(s[n..], i)
    decreases |s| - i
  {
    if n + i < |s| {
      assert s[n + i] == s[n..][i];
      if !(s[n + i] == '\r' || s[n + i] == '\n') {
        CommentEndShift(s, n, i + 1);
      }
    }
  }

  lemma {:induction false} SkipEndShift(s: string, n: nat, i: nat)
    requires n + i <= |s|
    ensures SkipEnd(s, n + i) == n + SkipEnd(s[n..], i)
    decreases |s| - i
  {
    if n + i < |s| {
      assert s[n + i] == s[n..][i];
      if IsBlank(s[n + i]) {
        SkipEndShift(s, n, i + 1);
      } else if s[n + i] == '#' {
        CommentEndShift(s, n, i + 1);
        SkipEndShift(s, n, CommentEnd(s[n..], i + 1));
      }
    }
  }

  lemma SkipSuffix(s: string, n: nat)
    requires n <= |s|
    ensures Skip(s[n..]) == s[SkipEnd(s, n)..]
  {
    SkipEndShift(s, n, 0);
  }

  /** Reading on from a place is reading its first token, then reading on from where a fresh scan ends. */
  lemma {:induction false} LexStep(buf: string, p: Checkpoint, limit: nat)
    requires p.off <= |buf|
    ensures FreshScan(buf, p).None? ==>
              LexFrom(buf[p.off..], limit) == (if p.off == |buf| then Some([]) else None)
    ensures FreshScan(buf, p).Some? ==>
              var (token, next) := FreshScan(buf, p).value;
              LexFrom(buf[p.off..], limit) ==
              match Spend(limit, token)
              case None => None
              case Some(left) =>
                match LexFrom(buf[next.off..], left)
                case None => None
                case Some(rest) => Some([token] + rest)
  {
    hide ScanToken, SkipEnd, Spend, AfterIgnored;
    var s := buf[p.off..];
    match ScanToken(s) {
      case Found(kind, n) =>
        assert s[..n] == buf[p.off..p.off + n] && s[n..] == buf[p.off + n..];
        SkipSuffix(buf, p.off + n);
      case End =>
      case Bad =>
    }
  }
}
