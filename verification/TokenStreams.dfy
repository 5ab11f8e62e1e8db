/** The token stream: one token of lookahead kept in a cache, checkpoints to go back to, and a bracket budget. */
module TokenStreams {
  import opened Common
  import opened Lexer
  import opened Positions

  // ----- the scanning loops -----

  method ScanName(s: string) returns (n: nat)
    requires s != ""
    ensures n == NameEnd(s, 1)
  {
    n := 1;
    while n < |s|
      invariant n <= |s| && NameEnd(s, 1) == NameEnd(s, n)
    {
      if !IsNameChar(s[n]) {
        return;
      }
      n := n + 1;
    }
  }

  lemma LastOfSnoc(s: string, n: nat, a: char, b: char)
    requires 0 < n < |s|
    ensures LastOf(s[..n + 1], a, b) == if s[n] == a || s[n] == b then Some(n) else LastOf(s[..n], a, b)
  {
    assert s[..n + 1][..n] == s[..n];
  }

  /** Scans up to a stopping character, remembering the last dot and the last exponent mark. */
  method ScanNumber(s: string) returns (n: nat, exponent: Option<nat>, point: Option<nat>)
    requires s != ""
    ensures n == NumberEnd(s, 1) && 0 < n
    ensures exponent == LastOf(s[..n], 'e', 'E') && point == LastOf(s[..n], '.', '.')
  {
    exponent, point, n := None, None, 1;
    while n < |s|
      invariant 0 < n <= |s| && NumberEnd(s, 1) == NumberEnd(s, n)
      invariant exponent == LastOf(s[..n], 'e', 'E') && point == LastOf(s[..n], '.', '.')
    {
      var c := s[n];
      if StopsNumber(c) {
        return;
      }
      LastOfSnoc(s, n, 'e', 'E');
      LastOfSnoc(s, n, '.', '.');
      if c == '.' {
        point := Some(n);
      } else if c == 'e' || c == 'E' {
        exponent := Some(n);
      }
      n := n + 1;
    }
  }

  method ScanQuoted(s: string) returns (n: Option<nat>)
    requires s != ""
    ensures n == QuotedEnd(s, 1, false)
  {
    var i, escaped := 1, false;
    while i < |s|
      invariant 1 <= i <= |s| && QuotedEnd(s, 1, false) == QuotedEnd(s, i, escaped)
    {
      var c := s[i];
      if c == '"' && !escaped {
        return Some(i + 1);
      }
      if c == '\n' {
        return None;
      }
      escaped := !escaped && c == '\\';
      i := i + 1;
    }
    return None;
  }

  method ScanBlock(tail: string) returns (close: Option<nat>)
    ensures close == BlockClose(tail, 0)
  {
    var i := 0;
    while i + 3 <= |tail|
      invariant i <= |tail| && BlockClose(tail, 0) == BlockClose(tail, i)
    {
      if !TripleAt(tail, i) {
        i := i + 1;
      } else if i > 0 && tail[i - 1] == '\\' {
        i := i + 3;
      } else {
        return Some(i);
      }
    }
    return None;
  }

  method CountLines(text: string) returns (lines: nat, num: nat)
    ensures lines == Newlines(text) && num == LastLine(text)
    ensures lines == 0 ==> num == |text|
  {
    lines, num := 0, 0;
    for i := 0 to |text|
      invariant lines == Newlines(text[..i]) && num == LastLine(text[..i]) && (lines == 0 ==> num == i)
    {
      assert text[..i + 1][..i] == text[..i];
      if text[i] == '\n' {
        lines, num := lines + 1, 0;
      } else {
        num := num + 1;
      }
    }
    assert text[..|text|] == text;
  }

  // ----- the stream -----

  datatype Cached = Cached(at: nat, token: Token, next: Checkpoint)

  datatype Step = Next(token: Token) | EndOfInput | Error

  /** tokens[i] stands at trace[i], and a fresh scan from there ends at trace[i + 1]. */
  ghost predicate Chain(buf: string, tokens: seq<Token>, trace: seq<Checkpoint>) {
    && |trace| == |tokens| + 1
    && trace[0] == Start(buf)
    && (forall i :: 0 <= i < |trace| ==> trace[i].off <= |buf|)
    && forall i :: 0 <= i < |tokens| ==> FreshScan(buf, trace[i]) == Some((tokens[i], trace[i + 1]))
  }

  /** What is left of a budget after some tokens. */
  function SpendAll(limit: nat, tokens: seq<Token>): Option<nat> {
    if tokens == [] then Some(limit)
    else
      match SpendAll(limit, tokens[..|tokens| - 1])
      case None => None
      case Some(left) => Spend(left, tokens[|tokens| - 1])
  }

  class TokenStream {
    const buf: string
    var position: Pos
    var off: nat
    var nextState: Option<Cached>
    var recursionLimit: nat

    /** Every token scanned so far in the order of the text, the places between them, the number of tokens before
        the current place, which token the cache holds, and all scans as they were made, repeated ones included. */
    ghost var tokens: seq<Token>
    ghost var trace: seq<Checkpoint>
    ghost var here: nat
    ghost var kept: nat
    ghost var scans: seq<Token>

    ghost predicate Valid()
      reads this
    {
      && Chain(buf, tokens, trace) && |trace| == |tokens| + 1
      && here < |trace| && trace[here] == At() && off <= |buf|
      && (nextState.Some? ==> kept < |tokens| && nextState.value == Cached(trace[kept].off, tokens[kept], trace[kept + 1]))
      && SpendAll(BRACKET_LIMIT, scans) == Some(recursionLimit)
    }

    /** The cache holds the token at the current place. */
    predicate Remembers()
      reads this
    {
      nextState.Some? && nextState.value.at == off
    }

    /** The stream was only ever moved back over its last token: nothing was scanned twice. */
    ghost predicate OneBehind()
      reads this
    {
      && |tokens| <= here + 1
      && (tokens != [] ==> nextState.Some? && kept == |tokens| - 1)
      && scans == tokens
    }

    function At(): Checkpoint
      reads this
    {
      Checkpoint(position, off)
    }

    constructor (s: string)
      ensures buf == s && At() == Start(s) && recursionLimit == BRACKET_LIMIT
      ensures Valid() && OneBehind() && tokens == [] && here == 0
    {
      buf, position, off := s, Pos(1, 1), 0;
      nextState, recursionLimit := None, BRACKET_LIMIT;
      tokens, trace, here, kept, scans := [], [Start(s)], 0, 0, [];
      new;
      SkipWhitespace();
    }

    method SkipWhitespace()
      requires off <= |buf|
      modifies `position, `off
      ensures At() == AfterIgnored(buf, old(At()))
    {
      while off < |buf|
        invariant off <= |buf| && AfterIgnored(buf, At()) == AfterIgnored(buf, old(At()))
        decreases |buf| - off
      {
        var c := buf[off];
        if c == '#' {
          off := off + 1;
          SkipComment();
        } else if IsBlank(c) {
          SkipBlank(c);
        } else {
          return;
        }
      }
    }

    method SkipBlank(c: char)
      modifies `position, `off
      ensures At() == AfterBlank(old(At()), c)
    {
      if c == '\t' {
        position := position.(column := position.column + 8);
      } else if c == '\n' {
        position := Pos(position.line + 1, 1);
      } else if c == ' ' || c == ',' {
        position := position.(column := position.column + 1);
      }
      off := off + 1;
    }

    method SkipComment()
      requires off <= |buf|
      modifies `position, `off
      ensures At() == AfterComment(buf, old(At())) && old(off) <= off <= |buf|
    {
      while off < |buf|
        invariant old(off) <= off <= |buf| && AfterComment(buf, At()) == AfterComment(buf, old(At()))
      {
        var c := buf[off];
        off := off + 1;
        if c == '\r' || c == '\n' {
          position := Pos(position.line + 1, 1);
          return;
        }
      }
    }

    method AdvanceToken(size: nat)
      modifies `position, `off
      ensures position == old(position).(column := old(position).column + size) && off == old(off) + size
    {
      position := position.(column := position.column + size);
      off := off + size;
    }

    /** Scans a token at the current place; a failure changes nothing. */
    method TakeToken() returns (r: Scan)
      requires off <= |buf|
      modifies `position, `off, `recursionLimit
      ensures r.Found? ==> old(off) + r.len <= |buf| && ScanToken(buf[old(off)..]) == r
      ensures r.Found? ==> At() == AfterToken(old(At()), r.kind, buf[old(off)..old(off) + r.len])
      ensures r.Found? ==>
                Spend(old(recursionLimit), Token(r.kind, buf[old(off)..old(off) + r.len])) == Some(recursionLimit)
      ensures !r.Found? ==> At() == old(At()) && recursionLimit == old(recursionLimit)
      ensures !r.Found? && ScanToken(buf[off..]) != r ==>
                r.Bad? && recursionLimit == 0 && off < |buf| && IsOpen(buf[off])
    {
      var s := buf[off..];
      if s == "" {
        return End;
      }
      var c := s[0];
      if IsOpen(c) {
        if recursionLimit == 0 {
          return Bad;
        }
        recursionLimit := recursionLimit - 1;
        AdvanceToken(1);
        r := Found(Punctuator, 1);
      } else if IsClose(c) {
        recursionLimit := recursionLimit + 1;
        AdvanceToken(1);
        r := Found(Punctuator, 1);
      } else if IsSign(c) {
        AdvanceToken(1);
        r := Found(Punctuator, 1);
      } else if c == '.' {
        if |s| >= 3 && s[1] == '.' && s[2] == '.' {
          AdvanceToken(3);
          r := Found(Punctuator, 3);
        } else {
          r := Bad;
        }
      } else if IsNameStart(c) {
        var n := ScanName(s);
        AdvanceToken(n);
        r := Found(Name, n);
      } else if c == '-' || IsDigit(c) {
        r := TakeNumber(s);
      } else if c == '"' {
        r := TakeString(s);
      } else {
        r := Bad;
      }
      if r.Found? {
        assert buf[old(off)..old(off) + r.len] == s[..r.len];
      }
    }

    method TakeNumber(s: string) returns (r: Scan)
      requires s != "" && (s[0] == '-' || IsDigit(s[0]))
      modifies `position, `off
      ensures r == ScanToken(s)
      ensures r.Found? ==> position == old(position).(column := old(position).column + r.len) && off == old(off) + r.len
      ensures !r.Found? ==> At() == old(At())
    {
      hide CheckInt, CheckFloat, CheckBigInt, LastOf, NumberEnd, NameEnd, QuotedEnd, BlockClose;
      var n, exponent, point := ScanNumber(s);
      var value := s[..n];
      if exponent.Some? || point.Some? {
        if !CheckFloat(value, exponent, point) {
          return Bad;
        }
        AdvanceToken(n);
        r := Found(FloatValue, n);
      } else if !CheckInt(value) {
        r := Bad;
      } else if CheckBigInt(value) {
        AdvanceToken(n);
        r := Found(BigIntValue, n);
      } else {
        AdvanceToken(n);
        r := Found(IntValue, n);
      }
    }

    method TakeString(s: string) returns (r: Scan)
      requires s != "" && s[0] == '"'
      modifies `position, `off
      ensures r == ScanToken(s)
      ensures r.Found? ==> At() == AfterToken(old(At()), r.kind, s[..r.len])
      ensures !r.Found? ==> At() == old(At())
    {
      if TripleAt(s, 0) {
        var close := ScanBlock(s[3..]);
        if close.None? {
          return Bad;
        }
        var n := close.value + 6;
        var lines, num := CountLines(s[..n]);
        off := off + n;
        if lines > 0 {
          position := Pos(position.line + lines, num + 1);
        } else {
          position := position.(column := position.column + num);
        }
        r := Found(BlockString, n);
      } else {
        var n := ScanQuoted(s);
        if n.None? {
          return Bad;
        }
        AdvanceToken(n.value);
        r := Found(StringValue, n.value);
      }
    }

    /** The next token: remembered, or scanned together with the ignored text behind it. Either way it is what a
        fresh scan from this place gives; only a scan is paid for. */
    method Uncons() returns (step: Step)
      requires Valid()
      modifies this
      ensures Valid() && old(trace) <= trace && old(tokens) <= tokens
      ensures step.Next? ==> FreshScan(buf, old(At())) == Some((step.token, At())) && here == old(here) + 1
      ensures step.Next? ==> tokens == if old(here == |tokens|) then old(tokens) + [step.token] else old(tokens)
      ensures step.Next? ==> scans == if old(Remembers()) then old(scans) else old(scans) + [step.token]
      ensures step.Next? ==> nextState.Some? && nextState.value.at == old(off)
      ensures !step.Next? ==> unchanged(this)
      ensures step.EndOfInput? <==> old(off) == |buf|
      ensures step.Error? ==> FreshScan(buf, At()).None? || (recursionLimit == 0 && IsOpen(buf[off]))
      ensures old(OneBehind()) ==> OneBehind() && (step.Next? ==> here == |tokens|)
      ensures old(OneBehind()) && step.Error? ==> here == |tokens|
    {
      if nextState.Some? && nextState.value.at == off {
        TraceIncreases(buf, tokens, trace);
        assert kept == here;
        var Cached(_, token, next) := nextState.value;
        off := next.off;
        position := next.position;
        here := here + 1;
        return Next(token);
      }
      step := ScanNext();
    }

    method ScanNext() returns (step: Step)
      requires Valid() && !Remembers()
      modifies this
      ensures Valid() && old(trace) <= trace && old(tokens) <= tokens
      ensures step.Next? ==> FreshScan(buf, old(At())) == Some((step.token, At())) && here == old(here) + 1
      ensures step.Next? ==> tokens == if old(here == |tokens|) then old(tokens) + [step.token] else old(tokens)
      ensures step.Next? ==> scans == old(scans) + [step.token]
      ensures step.Next? ==> nextState.Some? && nextState.value.at == old(off)
      ensures !step.Next? ==> unchanged(this)
      ensures step.EndOfInput? <==> old(off) == |buf|
      ensures step.Error? ==> FreshScan(buf, At()).None? || (recursionLimit == 0 && IsOpen(buf[off]))
      ensures old(OneBehind()) ==> old(here == |tokens|)
      ensures old(OneBehind()) && step.Next? ==> OneBehind()
    {
      hide FreshScan, Spend, Start, AfterIgnored, IsOpen, Chain, SpendAll;
      var oldPos := off;
      step := Fetch();
      if step.Next? {
        nextState := Some(Cached(oldPos, step.token, At()));
        ChainAt(buf, tokens, trace, here);
        if here == |tokens| {
          ChainExtends(buf, tokens, trace, step.token, At());
          tokens, trace := tokens + [step.token], trace + [At()];
        }
        SpendSnoc(BRACKET_LIMIT, scans, step.token);
        kept, here, scans := here, here + 1, scans + [step.token];
      }
    }

    /** Takes a token and skips the ignored text behind it. */
    method Fetch() returns (step: Step)
      requires off <= |buf|
      modifies `position, `off, `recursionLimit
      ensures step.Next? ==> FreshScan(buf, old(At())) == Some((step.token, At())) && off <= |buf|
      ensures step.Next? ==> Spend(old(recursionLimit), step.token) == Some(recursionLimit)
      ensures !step.Next? ==> At() == old(At()) && recursionLimit == old(recursionLimit)
      ensures step.EndOfInput? <==> old(off) == |buf|
      ensures step.Error? ==> FreshScan(buf, At()).None? || (recursionLimit == 0 && IsOpen(buf[off]))
    {
      hide ScanToken, AfterIgnored, SkipEnd, Spend, IsOpen, Newlines, LastLine;
      var r := TakeToken();
      if r.End? {
        return EndOfInput;
      }
      if r.Bad? {
        return Error;
      }
      var token := Token(r.kind, buf[off - r.len..off]);
      SkipWhitespace();
      step := Next(token);
    }

    method Save() returns (checkpoint: Checkpoint)
      requires Valid()
      ensures checkpoint == At() == trace[here]
    {
      checkpoint := At();
    }

    /** Goes back (or forward) to a place the stream has been at: `k` tokens from the start. */
    method Reset(checkpoint: Checkpoint, ghost k: nat)
      requires Valid() && k < |trace| && checkpoint == trace[k]
      modifies `position, `off, `here
      ensures Valid() && At() == checkpoint && here == k
      ensures old(OneBehind()) && |tokens| <= k + 1 ==> OneBehind()
    {
      position, off, here := checkpoint.position, checkpoint.off, k;
    }
  }

  /** Going back over two tokens of `{a` and reading on pays for the bracket a second time. */
  method GoingBackTwo() returns (stream: TokenStream)
    ensures fresh(stream) && stream.Valid() && stream.buf == EXAMPLE && stream.here == 1
    ensures stream.tokens == [BRACKET, WORD] && stream.scans == [BRACKET, WORD, BRACKET]
    ensures stream.recursionLimit == BRACKET_LIMIT - 2
  {
    hide FreshScan, Start, Chain, SpendAll;
    ExampleScans();
    stream := new TokenStream(EXAMPLE);
    var start := stream.Save();
    var bracket := stream.Uncons();
    var word := stream.Uncons();
    assert stream.scans == [BRACKET, WORD] && stream.recursionLimit == BRACKET_LIMIT - 1;
    stream.Reset(start, 0);
    assert stream.At() == start && !stream.Remembers();
    var again := stream.Uncons();
  }

  const EXAMPLE := "{a"
  const BRACKET := Token(Punctuator, "{")
  const WORD := Token(Name, "a")

  lemma ExampleScans()
    ensures Start(EXAMPLE) == Checkpoint(Pos(1, 1), 0)
    ensures FreshScan(EXAMPLE, Checkpoint(Pos(1, 1), 0)) == Some((BRACKET, Checkpoint(Pos(1, 2), 1)))
    ensures FreshScan(EXAMPLE, Checkpoint(Pos(1, 2), 1)) == Some((WORD, Checkpoint(Pos(1, 3), 2)))
    ensures SpendAll(BRACKET_LIMIT, [BRACKET]) == SpendAll(BRACKET_LIMIT, [BRACKET, WORD]) == Some(BRACKET_LIMIT - 1)
    ensures SpendAll(BRACKET_LIMIT, [BRACKET, WORD, BRACKET]) == Some(BRACKET_LIMIT - 2)
  {
    assert EXAMPLE[0..] == EXAMPLE && EXAMPLE[0..1] == "{" && EXAMPLE[1..] == "a" && EXAMPLE[1..2] == "a";
    assert ScanToken(EXAMPLE) == Found(Punctuator, 1);
    assert AfterIgnored(EXAMPLE, Checkpoint(Pos(1, 2), 1)) == Checkpoint(Pos(1, 2), 1);
    assert NameEnd("a", 1) == 1 && ScanToken("a") == Found(Name, 1);
    SpendSnoc(BRACKET_LIMIT, [], BRACKET);
    SpendSnoc(BRACKET_LIMIT, [BRACKET], WORD);
    SpendSnoc(BRACKET_LIMIT, [BRACKET, WORD], BRACKET);
    assert [] + [BRACKET] == [BRACKET] && [BRACKET] + [WORD] == [BRACKET, WORD] && [BRACKET, WORD] + [BRACKET] == [BRACKET, WORD, BRACKET];
  }

  lemma ChainAt(buf: string, tokens: seq<Token>, trace: seq<Checkpoint>, i: nat)
    requires Chain(buf, tokens, trace) && i < |trace|
    ensures trace[i].off <= |buf| && (i < |tokens| ==> FreshScan(buf, trace[i]) == Some((tokens[i], trace[i + 1])))
  {
  }

  lemma {:induction false} ChainExtends(buf: string, tokens: seq<Token>, trace: seq<Checkpoint>, token: Token, next: Checkpoint)
    requires Chain(buf, tokens, trace) && FreshScan(buf, trace[|tokens|]) == Some((token, next))
    ensures Chain(buf, tokens + [token], trace + [next])
  {
    hide FreshScan, Start;
  }

  lemma SpendSnoc(limit: nat, tokens: seq<Token>, token: Token)
    ensures SpendAll(limit, tokens + [token]) ==
            match SpendAll(limit, tokens) case None => None case Some(left) => Spend(left, token)
  {
    assert (tokens + [token])[..|tokens|] == tokens;
  }

  /** Every token takes at least one character. */
  lemma {:induction false} TraceIncreases(buf: string, tokens: seq<Token>, trace: seq<Checkpoint>)
    requires Chain(buf, tokens, trace)
    ensures forall i, j :: 0 <= i < j < |trace| ==> trace[i].off < trace[j].off
  {
    forall i, j | 0 <= i < j < |trace|
      ensures trace[i].off < trace[j].off
    {
      TraceIncreasesTo(buf, tokens, trace, i, j);
    }
  }

  lemma {:induction false} TraceIncreasesTo(buf: string, tokens: seq<Token>, trace: seq<Checkpoint>, i: nat, j: nat)
    requires Chain(buf, tokens, trace) && i < j < |trace|
    ensures trace[i].off < trace[j].off
    decreases j
  {
    assert FreshScan(buf, trace[j - 1]) == Some((tokens[j - 1], trace[j]));
    if i < j - 1 {
      TraceIncreasesTo(buf, tokens, trace, i, j - 1);
    }
  }
}
