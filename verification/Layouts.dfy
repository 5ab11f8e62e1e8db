/** Texts laid out as tokens with ignored text between them, and when such a text is read back as its tokens. */
module Layouts {
  import opened Common
  import opened Lexer
  import opened Scanning

  /** A token and the blanks written behind it. */
  datatype Piece = Piece(token: Token, gap: string)

  /** Every blank but the byte order mark, which is ignored between tokens but does not end a number. */
  predicate IsGap(gap: string) {
    forall i :: 0 <= i < |gap| ==> IsBlank(gap[i]) && StopsNumber(gap[i])
  }

  function Text(pieces: seq<Piece>): string {
    if pieces == [] then "" else pieces[0].token.value + pieces[0].gap + Text(pieces[1..])
  }

  function Tokens(pieces: seq<Piece>): (tokens: seq<Token>)
    ensures |tokens| == |pieces|
  {
    if pieces == [] then [] else [pieces[0].token] + Tokens(pieces[1..])
  }

  predicate WellFormed(pieces: seq<Piece>) {
    forall i :: 0 <= i < |pieces| ==> IsToken(pieces[i].token) && IsGap(pieces[i].gap)
  }

  /** Whether `next` may be written directly behind `token`. */
  predicate MayTouch(token: Token, next: Token) {
    MayPrecede(token, next.value)
  }

  /** Tokens that may not touch have a blank between them. */
  predicate Separated(pieces: seq<Piece>) {
    forall i :: 0 <= i < |pieces| - 1 ==> pieces[i].gap != "" || MayTouch(pieces[i].token, pieces[i + 1].token)
  }

  /** The bracket budget suffices. */
  predicate Affordable(tokens: seq<Token>, limit: nat) {
    tokens == [] || (Spend(limit, tokens[0]).Some? && Affordable(tokens[1..], Spend(limit, tokens[0]).value))
  }

  lemma {:induction false} SkipGapFrom(gap: string, rest: string, i: nat)
    requires IsGap(gap) && i <= |gap| && SkipEnd(rest, 0) == 0
    ensures SkipEnd(gap + rest, i) == |gap|
    decreases |gap| - i
  {
    var s := gap + rest;
    if i < |gap| {
      assert s[i] == gap[i];
      SkipGapFrom(gap, rest, i + 1);
    } else if rest != "" {
      assert s[i] == rest[0];
    }
  }

  lemma SkipGap(gap: string, rest: string)
    requires IsGap(gap) && SkipEnd(rest, 0) == 0
    ensures Skip(gap + rest) == rest
  {
    SkipGapFrom(gap, rest, 0);
  }

  lemma TextStarts(pieces: seq<Piece>)
    requires WellFormed(pieces)
    ensures SkipEnd(Text(pieces), 0) == 0
    ensures pieces != [] ==> Text(pieces) != "" && Text(pieces)[0] == pieces[0].token.value[0]
  {
    if pieces != [] {
      assert IsToken(pieces[0].token);
    }
  }

  /** The first token of a layout and what follows it do not run together. */
  predicate HeadApart(pieces: seq<Piece>)
    requires pieces != []
  {
    pieces[0].gap != "" || |pieces| == 1 || MayTouch(pieces[0].token, pieces[1].token)
  }

  /** What follows a token in a layout may follow it exactly when a gap or the next token may. */
  lemma {:induction false} MayPrecedeText(pieces: seq<Piece>)
    requires WellFormed(pieces) && pieces != []
    ensures MayPrecede(pieces[0].token, pieces[0].gap + Text(pieces[1..])) <==>
            HeadApart(pieces)
  {
    var gap, rest := pieces[0].gap, Text(pieces[1..]);
    var follow := gap + rest;
    assert IsToken(pieces[0].token);
    if gap != "" {
      assert follow[0] == gap[0] && IsBlank(gap[0]) && StopsNumber(gap[0]);
    } else {
      assert follow == rest;
      if |pieces| > 1 {
        TextStarts(pieces[1..]);
        assert IsToken(pieces[1].token);
      }
    }
  }

  /** A head that stands apart is read first, and then the rest of the layout. */
  lemma {:induction false} ReadsHead(pieces: seq<Piece>, limit: nat)
    requires WellFormed(pieces) && pieces != []
    ensures var token, rest := pieces[0].token, Text(pieces[1..]);
            && (!HeadApart(pieces) ==> ScanToken(Text(pieces)) != Found(token.kind, |token.value|))
            && (HeadApart(pieces) ==>
                  LexFrom(Text(pieces), limit) ==
                  match Spend(limit, token)
                  case None => None
                  case Some(left) => match LexFrom(rest, left) case None => None case Some(tokens) => Some([token] + tokens))
  {
    var token, rest := pieces[0].token, pieces[1..];
    var n, follow := |token.value|, pieces[0].gap + Text(rest);
    var text := Text(pieces);
    assert text == token.value + follow;
    assert text[..n] == token.value && text[n..] == follow;
    assert IsToken(token);
    ScansIff(token, follow);
    MayPrecedeText(pieces);
    TextStarts(rest);
    SkipGap(pieces[0].gap, Text(rest));
    hide ScanToken, Spend, Text, MayPrecede, MayTouch, Skip;
  }

  /** A layout is read back as its tokens exactly when it is separated. */
  lemma {:induction false} LayoutLexesIff(pieces: seq<Piece>, limit: nat)
    requires WellFormed(pieces) && Affordable(Tokens(pieces), limit)
    ensures LexFrom(Text(pieces), limit) == Some(Tokens(pieces)) <==> Separated(pieces)
  {
    if pieces != [] {
      var token, rest := pieces[0].token, pieces[1..];
      ReadsHead(pieces, limit);
      SeparatedStep(pieces);
      assert Tokens(pieces)[1..] == Tokens(rest);
      if HeadApart(pieces) {
        hide LexFrom, ScanToken, Text, HeadApart, Separated;
        LayoutLexesIff(rest, Spend(limit, token).value);
      } else {
        OtherFirstToken(Text(pieces), limit, token);
      }
    }
  }

  /** A text whose first token is not `token` is not read as tokens that start with it. */
  lemma OtherFirstToken(text: string, limit: nat, token: Token)
    requires ScanToken(text) != Found(token.kind, |token.value|)
    ensures var read := LexFrom(text, limit); read.Some? && read.value != [] ==> read.value[0] != token
  {
  }

  lemma SeparatedStep(pieces: seq<Piece>)
    requires pieces != []
    ensures Separated(pieces) <==> HeadApart(pieces) && Separated(pieces[1..])
  {
    var rest := pieces[1..];
    if Separated(rest) && HeadApart(pieces) {
      forall i | 0 <= i < |pieces| - 1
        ensures pieces[i].gap != "" || MayTouch(pieces[i].token, pieces[i + 1].token)
      {
        if i > 0 {
          assert rest[i - 1] == pieces[i] && rest[i] == pieces[i + 1];
        }
      }
    }
    if Separated(pieces) {
      forall i | 0 <= i < |rest| - 1
        ensures rest[i].gap != "" || MayTouch(rest[i].token, rest[i + 1].token)
      {
        assert rest[i] == pieces[i + 1] && rest[i + 1] == pieces[i + 2];
      }
    }
  }

  /** The same for a whole text, which a layout may begin with blanks. */
  lemma LayoutLexes(lead: string, pieces: seq<Piece>)
    requires WellFormed(pieces) && Affordable(Tokens(pieces), BRACKET_LIMIT) && Separated(pieces) && IsGap(lead)
    ensures Lex(lead + Text(pieces)) == Some(Tokens(pieces))
  {
    TextStarts(pieces);
    SkipGap(lead, Text(pieces));
    LayoutLexesIff(pieces, BRACKET_LIMIT);
  }

  /** The tokens read from any text are tokens, and the budget sufficed for them. */
  lemma {:induction false} LexedTokens(s: string, limit: nat)
    ensures var read := LexFrom(s, limit); read.Some? ==>
              Affordable(read.value, limit) && forall i :: 0 <= i < |read.value| ==> IsToken(read.value[i])
    decreases |s|
  {
    match ScanToken(s) {
      case End =>
      case Bad =>
      case Found(kind, n) =>
        var token := Token(kind, s[..n]);
        ScannedIsToken(s, kind, n);
        if Spend(limit, token).Some? {
          var limit' := Spend(limit, token).value;
          LexedTokens(Skip(s[n..]), limit');
          var rest := LexFrom(Skip(s[n..]), limit');
          if rest.Some? {
            assert ([token] + rest.value)[1..] == rest.value;
          }
        }
    }
  }
}
