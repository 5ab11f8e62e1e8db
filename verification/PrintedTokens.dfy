/** Printed text is read back as the tokens that were written, and these are the tokens of the document. */
module PrintedTokens {
  import opened Common
  import opened Lexer
  import opened Scanning
  import opened Layouts
  import opened Syntax
  import opened Printing

  function BitTokens(bits: seq<Bit>): seq<Token> {
    if bits == [] then [] else (if bits[0].Tok? then [bits[0].token] else []) + BitTokens(bits[1..])
  }

  lemma {:induction false} BitTokensAppend(a: seq<Bit>, b: seq<Bit>)
    ensures BitTokens(a + b) == BitTokens(a) + BitTokens(b)
  {
    if a == [] {
      assert a + b == b;
    } else {
      assert (a + b)[1..] == a[1..] + b;
      BitTokensAppend(a[1..], b);
    }
  }

  // ----- running along what was written -----

  /** Whether a token closes every token before it. */
  predicate Tight(t: Token) {
    t.kind == Punctuator && t != SPREAD
  }

  /** Checks the bits one after another. The state is whether the last thing written is a name, a number or a string
      with nothing behind it; only a blank or a tight punctuator may come then. */
  function Run(bits: seq<Bit>, open: bool): Option<bool> {
    if bits == [] then Some(open)
    else
      match bits[0]
      case Gap(text) => if IsGap(text) then Run(bits[1..], open && text == "") else None
      case Tok(t) =>
        if !IsToken(t) || (open && !Tight(t)) then None else Run(bits[1..], t.kind != Punctuator)
  }

  function Then(state: Option<bool>, bits: seq<Bit>): Option<bool> {
    if state.Some? then Run(bits, state.value) else None
  }

  lemma {:induction false} RunAppend(a: seq<Bit>, b: seq<Bit>, open: bool)
    ensures Run(a + b, open) == Then(Run(a, open), b)
  {
    if a == [] {
      assert a + b == b;
    } else {
      assert (a + b)[1..] == a[1..] + b;
      match a[0] {
        case Gap(text) => RunAppend(a[1..], b, open && text == "");
        case Tok(t) => RunAppend(a[1..], b, t.kind != Punctuator);
      }
    }
  }

  // ----- a run is a layout -----

  function Lead(bits: seq<Bit>): string {
    if bits == [] || bits[0].Tok? then "" else bits[0].text + Lead(bits[1..])
  }

  function Pieces(bits: seq<Bit>): seq<Piece> {
    if bits == [] then []
    else if bits[0].Tok? then [Piece(bits[0].token, Lead(bits[1..]))] + Pieces(bits[1..])
    else Pieces(bits[1..])
  }

  lemma {:induction false} PiecesAre(bits: seq<Bit>)
    ensures BitsText(bits) == Lead(bits) + Text(Pieces(bits)) && Tokens(Pieces(bits)) == BitTokens(bits)
  {
    if bits != [] {
      var rest := bits[1..];
      PiecesAre(rest);
      if bits[0].Tok? {
        PieceCons(Piece(bits[0].token, Lead(rest)), Pieces(rest));
      }
      hide Text, Tokens;
    }
  }

  lemma PieceCons(piece: Piece, pieces: seq<Piece>)
    ensures Text([piece] + pieces) == piece.token.value + (piece.gap + Text(pieces))
    ensures Tokens([piece] + pieces) == [piece.token] + Tokens(pieces)
  {
    assert ([piece] + pieces)[1..] == pieces;
  }

  lemma TightTouches(token: Token, next: Token)
    requires IsToken(next) && Tight(next)
    ensures MayTouch(token, next)
  {
  }

  lemma PunctuatorTouches(token: Token, next: Token)
    requires token.kind == Punctuator
    ensures MayTouch(token, next)
  {
  }

  /** What a run guarantees of its layout; behind an open token it begins with a blank or a tight token. */
  predicate LaidOut(bits: seq<Bit>, open: bool) {
    var pieces := Pieces(bits);
    && IsGap(Lead(bits)) && WellFormed(pieces) && Separated(pieces)
    && (open && pieces != [] ==> Lead(bits) != "" || Tight(pieces[0].token))
  }

  lemma {:induction false} RunIsLaidOut(bits: seq<Bit>, open: bool)
    requires Run(bits, open).Some?
    ensures LaidOut(bits, open)
  {
    if bits != [] {
      var rest := bits[1..];
      match bits[0] {
        case Gap(text) =>
          RunIsLaidOut(rest, open && text == "");
        case Tok(t) =>
          RunIsLaidOut(rest, t.kind != Punctuator);
          TokenLaidOut(t, rest);
          assert Pieces(bits) == [Piece(t, Lead(rest))] + Pieces(rest);
      }
    }
  }

  lemma TokenLaidOut(t: Token, rest: seq<Bit>)
    requires IsToken(t) && LaidOut(rest, t.kind != Punctuator)
    ensures var pieces := [Piece(t, Lead(rest))] + Pieces(rest); WellFormed(pieces) && Separated(pieces)
  {
    var pieces := [Piece(t, Lead(rest))] + Pieces(rest);
    assert pieces[1..] == Pieces(rest);
    if Pieces(rest) != [] {
      var next := Pieces(rest)[0].token;
      assert IsToken(next);
      if t.kind == Punctuator {
        PunctuatorTouches(t, next);
      } else if Lead(rest) == "" {
        TightTouches(t, next);
      }
    }
    hide MayTouch, IsToken;
    SeparatedStep(pieces);
  }

  /** Text whose bits run through is read back as its tokens, as far as the bracket budget goes. */
  lemma {:induction false} RunLexes(bits: seq<Bit>)
    requires Run(bits, false).Some? && Affordable(BitTokens(bits), BRACKET_LIMIT)
    ensures Lex(BitsText(bits)) == Some(BitTokens(bits))
  {
    RunIsLaidOut(bits, false);
    PiecesAre(bits);
    LayoutLexes(Lead(bits), Pieces(bits));
  }
}
