/** What a token stream reads: exactly the tokens of its text, which they and the ignored text between them make up. */
module StreamFacts {
  import opened Common
  import opened Lexer
  import opened Positions
  import opened TokenStreams

  // ----- the tokens read -----

  function Prepend(tokens: seq<Token>, rest: Option<seq<Token>>): Option<seq<Token>> {
    if rest.None? then None else Some(tokens + rest.value)
  }

  /** The tokens scanned so far begin the tokens of the text, and reading on gives the others. */
  lemma {:induction false} LexContinues(buf: string, tokens: seq<Token>, trace: seq<Checkpoint>)
    requires Chain(buf, tokens, trace) && SpendAll(BRACKET_LIMIT, tokens).Some?
    ensures Lex(buf) == Prepend(tokens, LexFrom(buf[trace[|tokens|].off..], SpendAll(BRACKET_LIMIT, tokens).value))
  {
    if tokens == [] {
      LexStarts(buf);
    } else {
      var n := |tokens| - 1;
      ChainShortens(buf, tokens, trace);
      hide FreshScan, Spend, LexFrom, Lex, Start, Prepend, Chain;
      LexContinues(buf, tokens[..n], trace[..n + 1]);
      LexContinuesBy(buf, tokens[..n], trace[n], tokens[n], trace[n + 1], SpendAll(BRACKET_LIMIT, tokens[..n]).value);
      assert tokens[..n] + [tokens[n]] == tokens;
    }
  }

  lemma ChainShortens(buf: string, tokens: seq<Token>, trace: seq<Checkpoint>)
    requires Chain(buf, tokens, trace) && tokens != []
    ensures var n := |tokens| - 1;
            && Chain(buf, tokens[..n], trace[..n + 1])
            && |trace| == n + 2 && trace[..n + 1][n] == trace[n]
            && trace[n].off <= |buf| && trace[n + 1].off <= |buf|
            && FreshScan(buf, trace[n]) == Some((tokens[n], trace[n + 1]))
  {
  }

  lemma {:induction false} LexContinuesBy(
      buf: string, before: seq<Token>, p: Checkpoint, token: Token, next: Checkpoint, left: nat)
    requires p.off <= |buf| && next.off <= |buf| && FreshScan(buf, p) == Some((token, next)) && Spend(left, token).Some?
    requires Lex(buf) == Prepend(before, LexFrom(buf[p.off..], left))
    ensures Lex(buf) == Prepend(before + [token], LexFrom(buf[next.off..], Spend(left, token).value))
  {
    hide FreshScan, Spend, LexFrom, Lex, Prepend;
    NextToken(buf, p, left);
    PrependSnoc(before, token, LexFrom(buf[next.off..], Spend(left, token).value));
  }

  lemma LexStarts(buf: string)
    ensures Lex(buf) == Prepend([], LexFrom(buf[Start(buf).off..], BRACKET_LIMIT))
  {
    SkipSuffix(buf, 0);
    assert buf[0..] == buf;
    var rest := LexFrom(Skip(buf), BRACKET_LIMIT);
    if rest.Some? {
      assert [] + rest.value == rest.value;
    }
  }

  lemma {:induction false} NextToken(buf: string, p: Checkpoint, limit: nat)
    requires p.off <= |buf| && FreshScan(buf, p).Some? && Spend(limit, FreshScan(buf, p).value.0).Some?
    ensures var (token, next) := FreshScan(buf, p).value;
            LexFrom(buf[p.off..], limit) == Prepend([token], LexFrom(buf[next.off..], Spend(limit, token).value))
  {
    hide FreshScan, Spend, LexFrom;
    LexStep(buf, p, limit);
  }

  lemma PrependSnoc(tokens: seq<Token>, token: Token, rest: Option<seq<Token>>)
    ensures Prepend(tokens, Prepend([token], rest)) == Prepend(tokens + [token], rest)
  {
    if rest.Some? {
      assert tokens + ([token] + rest.value) == tokens + [token] + rest.value;
    }
  }

  // ----- the budget -----

  function Depth(tokens: seq<Token>): int {
    if tokens == [] then 0
    else
      var token := tokens[|tokens| - 1];
      Depth(tokens[..|tokens| - 1]) +
      if token.kind != Punctuator || token.value == "" then 0
      else if IsOpen(token.value[0]) then 1
      else if IsClose(token.value[0]) then -1
      else 0
  }

  /** No prefix is nested deeper than the limit. */
  predicate Within(limit: nat, tokens: seq<Token>) {
    forall k :: 0 <= k <= |tokens| ==> Depth(tokens[..k]) <= limit
  }

  lemma {:induction false} WithinSnoc(limit: nat, tokens: seq<Token>)
    requires tokens != []
    ensures Within(limit, tokens) <==> Within(limit, tokens[..|tokens| - 1]) && Depth(tokens) <= limit
  {
    hide Depth;
    var n := |tokens| - 1;
    var before := tokens[..n];
    assert tokens[..|tokens|] == tokens;
    assert forall k :: 0 <= k <= n ==> before[..k] == tokens[..k];
    if Within(limit, tokens) {
      assert forall k :: 0 <= k <= n ==> Depth(before[..k]) == Depth(tokens[..k]);
    }
    if Within(limit, before) && Depth(tokens) <= limit {
      forall k | 0 <= k <= |tokens|
        ensures Depth(tokens[..k]) <= limit
      {
        if k <= n {
          assert before[..k] == tokens[..k];
        }
      }
    }
  }

  /** The budget is spent down to the limit minus the depth reached, and suffices exactly as long as no prefix is
      nested deeper than the limit. */
  lemma {:induction false} BudgetIsDepth(limit: nat, tokens: seq<Token>)
    ensures SpendAll(limit, tokens).Some? <==> Within(limit, tokens)
    ensures SpendAll(limit, tokens).Some? ==> SpendAll(limit, tokens).value == limit - Depth(tokens)
  {
    if tokens == [] {
      assert forall k :: 0 <= k <= |tokens| ==> tokens[..k] == [];
    } else {
      WithinSnoc(limit, tokens);
      hide Within;
      BudgetIsDepth(limit, tokens[..|tokens| - 1]);
    }
  }

  // ----- ignored text -----

  predicate EndsLine(c: char) {
    c == '\r' || c == '\n'
  }

  /** The character stands behind a `#` on its line, or is one. */
  ghost predicate InComment(s: string, i: nat, k: nat)
    requires k < |s|
  {
    exists j :: i <= j <= k && s[j] == '#' && forall m :: j <= m <= k ==> !EndsLine(s[m])
  }

  lemma {:induction false} CommentIs(s: string, i: nat)
    requires i <= |s|
    ensures var n := CommentEnd(s, i);
      && (forall k :: i <= k < n - 1 ==> !EndsLine(s[k]))
      && (n < |s| ==> i < n && EndsLine(s[n - 1]))
    decreases |s| - i
  {
    if i < |s| && !EndsLine(s[i]) {
      CommentIs(s, i + 1);
    }
  }

  /** What is skipped are blanks, commas and comments, each to the end of its line, and all of them. */
  lemma {:induction false} SkippedIs(s: string, i: nat)
    requires i <= |s|
    ensures var n := SkipEnd(s, i);
      && (n < |s| ==> !IsBlank(s[n]) && s[n] != '#')
      && (forall k :: i <= k < n ==> IsBlank(s[k]) || InComment(s, i, k))
    decreases |s| - i
  {
    if i < |s| {
      if IsBlank(s[i]) {
        SkippedIs(s, i + 1);
        LaterComment(s, i, i + 1);
      } else if s[i] == '#' {
        var m := CommentEnd(s, i + 1);
        CommentIs(s, i + 1);
        SkippedIs(s, m);
        LaterComment(s, i, m);
        forall k | i <= k < m ensures IsBlank(s[k]) || InComment(s, i, k) {
          if !EndsLine(s[k]) {
            assert s[i] == '#' && forall l :: i <= l <= k ==> !EndsLine(s[l]);
          }
        }
      }
    }
  }

  lemma LaterComment(s: string, i: nat, j: nat)
    requires i <= j <= |s|
    ensures forall k :: j <= k < |s| && InComment(s, j, k) ==> InComment(s, i, k)
  {
  }

  // ----- the partition of the text -----

  /** Ignored text: blanks, commas and comments only. */
  predicate Ignored(text: string) {
    SkipEnd(text, 0) == |text|
  }

  function Joined(parts: seq<string>): string {
    if parts == [] then "" else Joined(parts[..|parts| - 1]) + parts[|parts| - 1]
  }

  /** The ignored text behind the i-th token. */
  function Behind(buf: string, tokens: seq<Token>, trace: seq<Checkpoint>, i: nat): string
    requires Chain(buf, tokens, trace) && i < |tokens|
  {
    assert FreshScan(buf, trace[i]) == Some((tokens[i], trace[i + 1]));
    buf[trace[i].off + |tokens[i].value|..trace[i + 1].off]
  }

  /** The text read so far, as its tokens and what was skipped behind each. */
  function Parts(buf: string, tokens: seq<Token>, trace: seq<Checkpoint>, n: nat): seq<string>
    requires Chain(buf, tokens, trace) && n <= |tokens|
  {
    if n == 0 then [buf[..trace[0].off]]
    else Parts(buf, tokens, trace, n - 1) + [tokens[n - 1].value, Behind(buf, tokens, trace, n - 1)]
  }

  lemma {:induction false} CommentEndLocal(s: string, i: nat, n: nat)
    requires i <= |s| && CommentEnd(s, i) <= n <= |s|
    ensures CommentEnd(s[..n], i) == CommentEnd(s, i)
    decreases |s| - i
  {
    if i < n {
      assert s[..n][i] == s[i];
      if !(s[i] == '\r' || s[i] == '\n') {
        CommentEndLocal(s, i + 1, n);
      }
    }
  }

  lemma {:induction false} SkipEndLocal(s: string, i: nat)
    requires i <= |s|
    ensures SkipEnd(s[..SkipEnd(s, i)], i) == SkipEnd(s, i)
    decreases |s| - i
  {
    var n := SkipEnd(s, i);
    if i < n {
      assert s[..n][i] == s[i];
      if IsBlank(s[i]) {
        SkipEndLocal(s, i + 1);
      } else {
        CommentEndLocal(s, i + 1, n);
        SkipEndLocal(s, CommentEnd(s, i + 1));
      }
    }
  }

  lemma SkippedIsIgnored(s: string, i: nat)
    requires i <= |s|
    ensures Ignored(s[i..SkipEnd(s, i)])
  {
    var n := SkipEnd(s, i);
    SkipEndLocal(s, i);
    SkipEndShift(s[..n], i, 0);
    assert s[..n][i..] == s[i..n];
  }

  /** Tokens and ignored text, alternating, make up the text read so far: nothing is lost or read twice. */
  lemma {:induction false} StreamPartitions(buf: string, tokens: seq<Token>, trace: seq<Checkpoint>, n: nat)
    requires Chain(buf, tokens, trace) && n <= |tokens|
    ensures Joined(Parts(buf, tokens, trace, n)) == buf[..trace[n].off]
    ensures Ignored(buf[..trace[0].off]) && forall i :: 0 <= i < n ==> Ignored(Behind(buf, tokens, trace, i))
  {
    hide FreshScan, SkipEnd, Ignored;
    if n == 0 {
      SkippedIsIgnored(buf, 0);
      assert buf[0..trace[0].off] == buf[..trace[0].off];
      assert Joined([buf[..trace[0].off]]) == Joined([]) + buf[..trace[0].off];
    } else {
      hide Joined, Start;
      var m := n - 1;
      StreamPartitions(buf, tokens, trace, m);
      PartitionBy(buf, Parts(buf, tokens, trace, m), trace[m], tokens[m], trace[n]);
    }
  }

  lemma {:induction false} PartitionBy(buf: string, parts: seq<string>, p: Checkpoint, token: Token, next: Checkpoint)
    requires p.off <= |buf| && FreshScan(buf, p) == Some((token, next)) && Joined(parts) == buf[..p.off]
    ensures var gap := buf[p.off + |token.value|..next.off];
            Ignored(gap) && Joined(parts + [token.value, gap]) == buf[..next.off]
  {
    SpanOfScan(buf, p);
    hide FreshScan, SkipEnd, Joined, Ignored;
    var middle := p.off + |token.value|;
    SkippedIsIgnored(buf, middle);
    JoinedTwo(parts, token.value, buf[middle..next.off]);
    assert buf[..p.off] + buf[p.off..middle] + buf[middle..next.off] == buf[..next.off];
  }

  lemma {:induction false} SpanOfScan(buf: string, p: Checkpoint)
    requires p.off <= |buf| && FreshScan(buf, p).Some?
    ensures var (token, next) := FreshScan(buf, p).value;
            token.value == buf[p.off..p.off + |token.value|] && next.off == SkipEnd(buf, p.off + |token.value|)
  {
    hide ScanToken, SkipEnd, AfterIgnored;
  }

  lemma JoinedTwo(parts: seq<string>, a: string, b: string)
    ensures Joined(parts + [a, b]) == Joined(parts) + a + b
  {
    assert (parts + [a, b])[..|parts| + 1] == parts + [a];
    assert (parts + [a])[..|parts|] == parts;
  }
}
