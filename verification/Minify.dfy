/** The query minifier: the tokens of a text written again with as few blanks as it thinks necessary. */
module Minify {
  import opened Common
  import opened Lexer
  import opened Scanning
  import opened Layouts
  import opened Positions
  import opened TokenStreams
  import opened StreamFacts

  // ----- what is written -----

  /** A blank goes between two tokens that are not punctuators. */
  function Separator(token: Token, next: Token): string {
    if token.kind != Punctuator && next.kind != Punctuator then " " else ""
  }

  function Minimal(tokens: seq<Token>): (pieces: seq<Piece>)
    ensures |pieces| == |tokens|
  {
    if tokens == [] then []
    else
      var gap := if |tokens| > 1 then Separator(tokens[0], tokens[1]) else "";
      [Piece(tokens[0], gap)] + Minimal(tokens[1..])
  }

  function Minified(source: string): Option<string> {
    match Lex(source)
    case None => None
    case Some(tokens) => Some(Text(Minimal(tokens)))
  }

  lemma {:induction false} MinimalSnoc(tokens: seq<Token>, token: Token)
    ensures Text(Minimal(tokens + [token])) ==
            Text(Minimal(tokens)) + (if tokens == [] then "" else Separator(tokens[|tokens| - 1], token)) + token.value
  {
    var all := tokens + [token];
    if tokens == [] {
      assert all[1..] == [];
    } else {
      assert all[1..] == tokens[1..] + [token];
      MinimalSnoc(tokens[1..], token);
    }
  }

  /** The pairs of neighbours that are both no punctuators. */
  function Meetings(tokens: seq<Token>): nat {
    if |tokens| < 2 then 0
    else Meetings(tokens[1..]) + if tokens[0].kind == Punctuator || tokens[1].kind == Punctuator then 0 else 1
  }

  function Lengths(tokens: seq<Token>): nat {
    if tokens == [] then 0 else |tokens[0].value| + Lengths(tokens[1..])
  }

  /** The minified text is as long as its tokens and one blank for each two neighbours that are no punctuators. */
  lemma {:induction false} MinifiedLength(tokens: seq<Token>)
    ensures |Text(Minimal(tokens))| == Lengths(tokens) + Meetings(tokens)
  {
    if tokens != [] {
      var pieces := Minimal(tokens);
      MinifiedLength(tokens[1..]);
      assert pieces[1..] == Minimal(tokens[1..]);
    }
  }

  // ----- the loop -----

  method MinifyQuery(source: string) returns (r: Option<string>)
    ensures r == Minified(source)
  {
    hide FreshScan, Start, LexFrom, Lex, Minified, Minimal, Text, SpendAll, Spend, IsOpen;
    NothingMinified();
    var bits := "";
    var stream := new TokenStream(source);
    var prevWasPunctuator := false;
    while true
      invariant stream.Valid() && stream.OneBehind() && stream.here == |stream.tokens|
      invariant fresh(stream) && stream.buf == source
      invariant bits == Text(Minimal(stream.tokens))
      invariant prevWasPunctuator <==>
                (stream.tokens != [] && stream.tokens[|stream.tokens| - 1].kind != Punctuator)
      decreases |source| - stream.off
    {
      ghost var read := stream.tokens;
      var step := stream.Uncons();
      match step {
        case Next(x) =>
          var isNonPunctuator := x.kind != Punctuator;
          if prevWasPunctuator && isNonPunctuator {
            bits := bits + " ";
          }
          bits := bits + x.value;
          prevWasPunctuator := isNonPunctuator;
          MinimalSnoc(read, x);
        case EndOfInput =>
          StreamEnds(source, stream.tokens, stream.trace);
          return Some(bits);
        case Error =>
          StreamFails(source, stream.tokens, stream.trace);
          return None;
      }
    }
  }

  lemma NothingMinified()
    ensures Text(Minimal([])) == ""
  {
  }

  lemma {:induction false} StreamEnds(buf: string, tokens: seq<Token>, trace: seq<Checkpoint>)
    requires Chain(buf, tokens, trace) && SpendAll(BRACKET_LIMIT, tokens).Some?
    requires trace[|tokens|].off == |buf|
    ensures Minified(buf) == Some(Text(Minimal(tokens)))
  {
    LexContinues(buf, tokens, trace);
    assert buf[|buf|..] == "";
    assert tokens + [] == tokens;
  }

  lemma {:induction false} StreamFails(buf: string, tokens: seq<Token>, trace: seq<Checkpoint>)
    requires Chain(buf, tokens, trace) && SpendAll(BRACKET_LIMIT, tokens).Some?
    requires var p := trace[|tokens|];
             p.off < |buf| && (FreshScan(buf, p).None?
                               || (SpendAll(BRACKET_LIMIT, tokens) == Some(0) && IsOpen(buf[p.off])))
    ensures Minified(buf).None?
  {
    var p, limit := trace[|tokens|], SpendAll(BRACKET_LIMIT, tokens).value;
    LexContinues(buf, tokens, trace);
    LexStep(buf, p, limit);
    if FreshScan(buf, p).Some? {
      assert buf[p.off..][0] == buf[p.off];
    }
  }

  // ----- what is read again -----

  predicate MeetsSpread(token: Token, next: Token) {
    IsNumber(token.kind) && next == Token(Punctuator, "...")
  }

  /** A number token with a spread right behind it. */
  predicate NumberMeetsSpread(tokens: seq<Token>) {
    exists i :: 0 <= i < |tokens| - 1 && MeetsSpread(tokens[i], tokens[i + 1])
  }

  predicate AllTokens(tokens: seq<Token>) {
    forall i :: 0 <= i < |tokens| ==> IsToken(tokens[i])
  }

  lemma {:induction false} MinimalPieces(tokens: seq<Token>)
    requires AllTokens(tokens)
    ensures WellFormed(Minimal(tokens)) && Tokens(Minimal(tokens)) == tokens
  {
    if tokens != [] {
      var gap := if |tokens| > 1 then Separator(tokens[0], tokens[1]) else "";
      MinimalPieces(tokens[1..]);
      WellFormedCons(Piece(tokens[0], gap), Minimal(tokens[1..]));
    }
  }

  lemma WellFormedCons(piece: Piece, pieces: seq<Piece>)
    requires IsToken(piece.token) && IsGap(piece.gap) && WellFormed(pieces)
    ensures WellFormed([piece] + pieces) && Tokens([piece] + pieces) == [piece.token] + Tokens(pieces)
  {
    assert ([piece] + pieces)[1..] == pieces;
  }

  lemma {:induction false} MinimalAt(tokens: seq<Token>, i: nat)
    requires i < |tokens|
    ensures Minimal(tokens)[i].token == tokens[i]
    ensures Minimal(tokens)[i].gap == if i + 1 < |tokens| then Separator(tokens[i], tokens[i + 1]) else ""
  {
    if i > 0 {
      MinimalAt(tokens[1..], i - 1);
    }
  }

  /** Two tokens with the separator of the minifier between them need nothing more, unless they are a number and a
      spread. */
  lemma SeparatorSuffices(token: Token, next: Token)
    requires IsToken(token) && IsToken(next)
    ensures (Separator(token, next) != "" || MayTouch(token, next)) <==>
            !MeetsSpread(token, next)
  {
    if next.kind == Punctuator {
      assert next.value == "..." || (|next.value| == 1 && (IsOpen(next.value[0]) || IsClose(next.value[0]) || IsSign(next.value[0])));
    }
  }

  /** Reading the minified text gives the same kinds and values exactly when no number has a spread right behind it. */
  lemma {:induction false} MinifiedLexesIff(source: string)
    requires Lex(source).Some?
    ensures Lex(Minified(source).value) == Lex(source) <==> !NumberMeetsSpread(Lex(source).value)
  {
    var tokens := Lex(source).value;
    LexedTokens(Skip(source), BRACKET_LIMIT);
    MinimalPieces(tokens);
    var pieces := Minimal(tokens);
    TextStarts(pieces);
    LayoutLexesIff(pieces, BRACKET_LIMIT);
    SeparatedUnlessSpread(tokens);
    assert Text(pieces)[0..] == Text(pieces);
  }

  lemma {:induction false} SeparatedUnlessSpread(tokens: seq<Token>)
    requires AllTokens(tokens)
    ensures Separated(Minimal(tokens)) <==> !NumberMeetsSpread(tokens)
  {
    hide IsToken, MeetsSpread, MayTouch, Separator, Minimal;
    forall i | 0 <= i < |tokens| - 1
      ensures (Minimal(tokens)[i].gap != "" || MayTouch(Minimal(tokens)[i].token, Minimal(tokens)[i + 1].token)) <==>
              !MeetsSpread(tokens[i], tokens[i + 1])
    {
      assert IsToken(tokens[i]) && IsToken(tokens[i + 1]);
      SeparatorSuffices(tokens[i], tokens[i + 1]);
      MinimalAt(tokens, i);
      MinimalAt(tokens, i + 1);
    }
  }

  /** Otherwise the minified text cannot be read at all. */
  lemma {:induction false} MinifiedUnreadable(tokens: seq<Token>, limit: nat)
    requires AllTokens(tokens) && NumberMeetsSpread(tokens)
    ensures LexFrom(Text(Minimal(tokens)), limit).None?
  {
    var pieces, rest := Minimal(tokens), tokens[1..];
    MinimalHead(tokens);
    if MeetsSpread(tokens[0], tokens[1]) {
      SpreadUnread(pieces, limit);
    } else {
      SpreadLater(tokens);
      hide IsToken, NumberMeetsSpread, HeadApart, MeetsSpread, Text, LexFrom, Minimal, Spend;
      ReadsHead(pieces, limit);
      if Spend(limit, tokens[0]).Some? {
        MinifiedUnreadable(rest, Spend(limit, tokens[0]).value);
      }
    }
  }

  lemma MinimalHead(tokens: seq<Token>)
    requires AllTokens(tokens) && |tokens| >= 2
    ensures var pieces := Minimal(tokens);
            && WellFormed(pieces) && AllTokens(tokens[1..])
            && pieces[0].token == tokens[0] && pieces[1].token == tokens[1] && pieces[1..] == Minimal(tokens[1..])
            && (HeadApart(pieces) <==> !MeetsSpread(tokens[0], tokens[1]))
            && (MeetsSpread(tokens[0], tokens[1]) ==> pieces[0].gap == "")
  {
    MinimalPieces(tokens);
    assert IsToken(tokens[0]) && IsToken(tokens[1]);
    SeparatorSuffices(tokens[0], tokens[1]);
  }

  lemma SpreadLater(tokens: seq<Token>)
    requires NumberMeetsSpread(tokens) && !MeetsSpread(tokens[0], tokens[1])
    ensures NumberMeetsSpread(tokens[1..])
  {
    var rest := tokens[1..];
    var i :| 0 <= i < |tokens| - 1 && MeetsSpread(tokens[i], tokens[i + 1]);
    assert rest[i - 1] == tokens[i] && rest[i] == tokens[i + 1];
  }

  lemma SpreadUnread(pieces: seq<Piece>, limit: nat)
    requires WellFormed(pieces) && |pieces| >= 2
    requires MeetsSpread(pieces[0].token, pieces[1].token) && pieces[0].gap == ""
    ensures LexFrom(Text(pieces), limit).None?
  {
    var token, follow := pieces[0].token, pieces[1].gap + Text(pieces[2..]);
    assert pieces[1..][1..] == pieces[2..];
    assert Text(pieces) == token.value + "..." + follow;
    assert IsToken(token);
    NumberBeforeDots(token, follow);
  }

  /** Minifying a second time changes nothing, or fails when a number met a spread. */
  lemma {:induction false} MinifyTwice(source: string)
    requires Lex(source).Some?
    ensures var once := Minified(source).value;
            Minified(once) == if NumberMeetsSpread(Lex(source).value) then None else Some(once)
  {
    var tokens := Lex(source).value;
    LexedTokens(Skip(source), BRACKET_LIMIT);
    MinifiedLexesIff(source);
    if NumberMeetsSpread(tokens) {
      MinifiedUnreadable(tokens, BRACKET_LIMIT);
      MinimalPieces(tokens);
      TextStarts(Minimal(tokens));
      assert Text(Minimal(tokens))[0..] == Text(Minimal(tokens));
    }
  }

  /** `1...` cannot come from a text that was read, but `1 ...` can. */
  lemma {:induction false} NumberMeetsSpreadExample()
    ensures Lex("1 ...") == Some([Token(IntValue, "1"), Token(Punctuator, "...")])
    ensures Minified("1 ...") == Some("1...") && Minified("1...") == None
  {
    var tokens := [Token(IntValue, "1"), Token(Punctuator, "...")];
    ReadSpaced();
    MinimalExample();
    hide Lex, Minimal, Text;
    MinifyTwice("1 ...");
    assert MeetsSpread(tokens[0], tokens[1]);
  }

  lemma {:induction false} ReadSpaced()
    ensures Lex("1 ...") == Some([Token(IntValue, "1"), Token(Punctuator, "...")])
  {
    OneIsToken();
    var one, spread := Token(IntValue, "1"), Token(Punctuator, "...");
    var pieces := [Piece(one, " "), Piece(spread, "")];
    assert pieces[1..] == [Piece(spread, "")] && pieces[1..][1..] == [];
    assert Text(pieces[1..]) == "...";
    assert Text(pieces) == "1 ...";
    assert Tokens(pieces) == [one, spread];
    hide Lex, ScanToken, Text, Tokens;
    assert [one, spread][1..] == [spread] && [spread][1..] == [];
    LayoutLexes("", pieces);
    assert "" + "1 ..." == "1 ...";
  }

  lemma MinimalExample()
    ensures Text(Minimal([Token(IntValue, "1"), Token(Punctuator, "...")])) == "1..."
  {
    var one, spread := Token(IntValue, "1"), Token(Punctuator, "...");
    assert [one, spread][1..] == [spread] && [spread][1..] == [];
    assert Minimal([spread]) == [Piece(spread, "")];
    assert Minimal([one, spread]) == [Piece(one, ""), Piece(spread, "")];
    assert [Piece(one, ""), Piece(spread, "")][1..] == [Piece(spread, "")];
    assert [Piece(spread, "")][1..] == [];
  }

  lemma OneIsToken()
    ensures IsToken(Token(IntValue, "1")) && IsToken(Token(Punctuator, "..."))
  {
    assert NumberEnd("1", 1) == 1 && "1"[..1] == "1";
    assert !CheckBigInt("1") by {
      assert Decimal("1"[..0]) == 0;
    }
  }
}
