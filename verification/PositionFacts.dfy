/** Lines and columns: in a text with newlines as its only line breaks, every token stands where counting says. */
module PositionFacts {
  import opened Common
  import opened Lexer
  import opened Positions
  import opened TokenStreams

  /** No tab, carriage return or byte order mark. */
  predicate Unadorned(buf: string) {
    forall i :: 0 <= i < |buf| ==> buf[i] != '\t' && buf[i] != '\r' && buf[i] != '\U{FEFF}'
  }

  /** The place is on the line after the newlines before it, in the column after the characters behind the last of them. */
  predicate Counted(buf: string, p: Checkpoint) {
    p.off <= |buf| && p.position == Pos(1 + Newlines(buf[..p.off]), 1 + LastLine(buf[..p.off]))
  }

  lemma NextCharacter(buf: string, i: nat)
    requires i < |buf|
    ensures Newlines(buf[..i + 1]) == Newlines(buf[..i]) + if buf[i] == '\n' then 1 else 0
    ensures LastLine(buf[..i + 1]) == if buf[i] == '\n' then 0 else LastLine(buf[..i]) + 1
  {
    assert buf[..i + 1][..i] == buf[..i];
  }

  /** A comment counts no columns: only behind its newline is the place counted again. */
  lemma {:induction false} CommentCounted(buf: string, p: Checkpoint)
    requires Unadorned(buf) && p.off <= |buf| && p.position.line == 1 + Newlines(buf[..p.off])
    ensures AfterComment(buf, p).off < |buf| ==> Counted(buf, AfterComment(buf, p))
    decreases |buf| - p.off
  {
    if p.off < |buf| {
      NextCharacter(buf, p.off);
      if buf[p.off] != '\n' {
        CommentCounted(buf, p.(off := p.off + 1));
      }
    }
  }

  lemma {:induction false} IgnoredCounted(buf: string, p: Checkpoint)
    requires Unadorned(buf) && p.off <= |buf| && (p.off < |buf| ==> Counted(buf, p))
    ensures AfterIgnored(buf, p).off < |buf| ==> Counted(buf, AfterIgnored(buf, p))
    decreases |buf| - p.off
  {
    if p.off < |buf| {
      NextCharacter(buf, p.off);
      if IsBlank(buf[p.off]) {
        IgnoredCounted(buf, AfterBlank(p, buf[p.off]));
      } else if buf[p.off] == '#' {
        CommentCounted(buf, p.(off := p.off + 1));
        IgnoredCounted(buf, AfterComment(buf, p.(off := p.off + 1)));
      }
    }
  }

  // ----- tokens -----

  lemma {:induction false} CountsAppend(a: string, b: string)
    ensures Newlines(a + b) == Newlines(a) + Newlines(b)
    ensures LastLine(a + b) == if '\n' in b then LastLine(b) else LastLine(a) + |b|
    ensures Newlines(b) == 0 <==> '\n' !in b
  {
    if b == "" {
      assert a + b == a;
    } else {
      var init := b[..|b| - 1];
      assert (a + b)[..|a + b| - 1] == a + init && b == init + [b[|b| - 1]];
      CountsAppend(a, init);
    }
  }

  lemma {:induction false} QuotedInLine(s: string, i: nat, escaped: bool)
    requires i <= |s| && QuotedEnd(s, i, escaped).Some?
    ensures forall k :: i <= k < QuotedEnd(s, i, escaped).value ==> s[k] != '\n'
    decreases |s| - i
  {
    if !(s[i] == '"' && !escaped) {
      QuotedInLine(s, i + 1, !escaped && s[i] == '\\');
    }
  }

  /** Only block strings contain newlines. */
  lemma {:induction false} TokenInLine(s: string)
    requires ScanToken(s).Found? && ScanToken(s).kind != BlockString
    ensures '\n' !in s[..ScanToken(s).len]
  {
    hide NumberKind, BlockClose;
    var c, r := s[0], ScanToken(s);
    if c == '"' {
      QuotedInLine(s, 1, false);
    }
    forall k | 0 <= k < r.len ensures s[k] != '\n' {
    }
  }

  lemma {:induction false} TokenCounted(buf: string, p: Checkpoint, token: Token, next: Checkpoint)
    requires Counted(buf, p) && p.off <= |buf| && FreshScan(buf, p) == Some((token, next)) && Unadorned(buf)
    ensures next.off < |buf| ==> Counted(buf, next)
  {
    hide *;
    var kind, n := ScanParts(buf, p, token, next);
    if kind != BlockString {
      TokenInLine(buf[p.off..]);
      assert buf[p.off..][..n] == buf[p.off..p.off + n];
    }
    PlaceBehind(buf, p, kind, n);
    CountedEnds(buf, AfterToken(p, kind, buf[p.off..p.off + n]));
    IgnoredCounted(buf, AfterToken(p, kind, buf[p.off..p.off + n]));
  }

  lemma CountedEnds(buf: string, p: Checkpoint)
    requires Counted(buf, p)
    ensures p.off <= |buf|
  {
  }

  lemma {:induction false} ScanParts(buf: string, p: Checkpoint, token: Token, next: Checkpoint) returns (kind: Kind, n: nat)
    requires p.off <= |buf| && FreshScan(buf, p) == Some((token, next))
    ensures ScanToken(buf[p.off..]) == Found(kind, n) && p.off + n <= |buf| && n <= |buf[p.off..]|
    ensures AfterToken(p, kind, buf[p.off..p.off + n]).off <= |buf|
    ensures next == AfterIgnored(buf, AfterToken(p, kind, buf[p.off..p.off + n]))
  {
    hide ScanToken, AfterIgnored, SkipEnd;
    var r := ScanToken(buf[p.off..]);
    kind, n := r.kind, r.len;
  }

  lemma {:induction false} PlaceBehind(buf: string, p: Checkpoint, kind: Kind, n: nat)
    requires Counted(buf, p) && p.off + n <= |buf| && (kind != BlockString ==> '\n' !in buf[p.off..p.off + n])
    ensures Counted(buf, AfterToken(p, kind, buf[p.off..p.off + n]))
  {
    hide Newlines, LastLine;
    var text := buf[p.off..p.off + n];
    CountsAppend(buf[..p.off], text);
    assert buf[..p.off] + text == buf[..p.off + n];
  }

  /** Every token a stream gives stands on the line and in the column that counting the characters before it gives. */
  lemma {:induction false} TokensCounted(buf: string, tokens: seq<Token>, trace: seq<Checkpoint>, i: nat)
    requires Chain(buf, tokens, trace) && Unadorned(buf) && i < |trace| && trace[i].off < |buf|
    ensures Counted(buf, trace[i])
  {
    hide FreshScan, AfterIgnored;
    if i == 0 {
      assert buf[..0] == "";
      IgnoredCounted(buf, Checkpoint(Pos(1, 1), 0));
      StartIs(buf);
    } else {
      assert FreshScan(buf, trace[i - 1]) == Some((tokens[i - 1], trace[i]));
      TokensCounted(buf, tokens, trace, i - 1);
      TokenCounted(buf, trace[i - 1], tokens[i - 1], trace[i]);
    }
  }

  lemma StartIs(buf: string)
    ensures Start(buf) == AfterIgnored(buf, Checkpoint(Pos(1, 1), 0))
  {
  }
}
