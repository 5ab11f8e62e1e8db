/** What follows a token decides whether it is scanned again: scanning depends only on the token and one or two
    characters of lookahead. */
module Scanning {
  import opened Common
  import opened Lexer

  predicate IsToken(token: Token) {
    token.value != "" && ScanToken(token.value) == Found(token.kind, |token.value|)
  }

  predicate IsNumber(kind: Kind) {
    kind == IntValue || kind == BigIntValue || kind == FloatValue
  }

  /** Whether the text may directly follow the token. */
  predicate MayPrecede(token: Token, rest: string) {
    match token.kind
    case Punctuator => true
    case BlockString => true
    case StringValue => token.value == "\"\"" ==> !StartsWith(rest, '"')
    case Name => rest == "" || !IsNameChar(rest[0])
    case IntValue => rest == "" || StopsNumber(rest[0])
    case BigIntValue => rest == "" || StopsNumber(rest[0])
    case FloatValue => rest == "" || StopsNumber(rest[0])
  }

  // ----- the scans look at nothing after the position they return -----

  lemma {:induction false} QuotedEndLocal(s: string, t: string, i: nat, escaped: bool, n: nat)
    requires i < n <= |s| && n <= |t| && s[..n] == t[..n]
    requires QuotedEnd(s, i, escaped) == Some(n)
    ensures QuotedEnd(t, i, escaped) == Some(n)
    decreases n - i
  {
    assert s[i] == s[..n][i] == t[i];
    if !(s[i] == '"' && !escaped) {
      QuotedEndLocal(s, t, i + 1, !escaped && s[i] == '\\', n);
    }
  }

  lemma {:induction false} BlockCloseLocal(s: string, t: string, i: nat, n: nat)
    requires i <= n && n + 3 <= |s| && n + 3 <= |t| && s[..n + 3] == t[..n + 3]
    requires BlockClose(s, i) == Some(n)
    ensures BlockClose(t, i) == Some(n)
    decreases n - i
  {
    assert forall k :: 0 <= k < n + 3 ==> s[k] == s[..n + 3][k] == t[k];
    if !TripleAt(s, i) {
      BlockCloseLocal(s, t, i + 1, n);
    } else if i > 0 && s[i - 1] == '\\' {
      BlockCloseLocal(s, t, i + 3, n);
    }
  }

  lemma NumberEndIs(s: string, i: nat, n: nat)
    requires i <= n <= |s| && (n < |s| ==> StopsNumber(s[n]))
    requires forall k :: i <= k < n ==> !StopsNumber(s[k])
    ensures NumberEnd(s, i) == n
  {
    var m := NumberEnd(s, i);
    assert m >= n && m <= n;
  }

  lemma NameEndIs(s: string, i: nat, n: nat)
    requires i <= n <= |s| && (n < |s| ==> !IsNameChar(s[n]))
    requires forall k :: i <= k < n ==> IsNameChar(s[k])
    ensures NameEnd(s, i) == n
  {
    var m := NameEnd(s, i);
    assert m >= n && m <= n;
  }

  // ----- one token -----

  /** A scanned token is a token by itself, and what follows it was allowed to. */
  lemma {:induction false} ScannedIsToken(s: string, kind: Kind, n: nat)
    requires ScanToken(s) == Found(kind, n)
    ensures n <= |s| && IsToken(Token(kind, s[..n])) && MayPrecede(Token(kind, s[..n]), s[n..])
  {
    var t := s[..n];
    match kind {
      case Punctuator =>
      case Name =>
        NameEndIs(t, 1, n);
      case StringValue =>
        QuotedEndLocal(s, t, 1, false, n);
      case BlockString =>
        var tail := s[3..];
        assert t[3..] == tail[..n - 3];
        BlockCloseLocal(tail, t[3..], 0, n - 6);
      case IntValue => ScannedNumber(s, kind, n);
      case BigIntValue => ScannedNumber(s, kind, n);
      case FloatValue => ScannedNumber(s, kind, n);
    }
  }

  lemma {:induction false} ScannedNumber(s: string, kind: Kind, n: nat)
    requires ScanToken(s) == Found(kind, n) && IsNumber(kind)
    ensures n <= |s| && IsToken(Token(kind, s[..n])) && MayPrecede(Token(kind, s[..n]), s[n..])
  {
    var t := s[..n];
    NumberEndIs(t, 1, n);
    assert t[..n] == t;
  }

  /** A token is scanned from the front of a longer text exactly when the rest may follow it. */
  lemma {:induction false} ScansIff(token: Token, rest: string)
    requires IsToken(token)
    ensures ScanToken(token.value + rest) == Found(token.kind, |token.value|) <==> MayPrecede(token, rest)
  {
    var t, n := token.value, |token.value|;
    var s := t + rest;
    assert s[..n] == t && s[n..] == rest;
    if ScanToken(s) == Found(token.kind, n) {
      ScannedIsToken(s, token.kind, n);
    }
    if MayPrecede(token, rest) {
      Scans(token, rest);
    }
  }

  lemma {:induction false} Scans(token: Token, rest: string)
    requires IsToken(token) && MayPrecede(token, rest)
    ensures ScanToken(token.value + rest) == Found(token.kind, |token.value|)
  {
    var t, n := token.value, |token.value|;
    var s := t + rest;
    assert s[..n] == t && s[n..] == rest && t[..n] == t;
    match token.kind {
      case Punctuator =>
      case Name =>
        NameEndIs(s, 1, n);
      case StringValue =>
        QuotedEndLocal(t, s, 1, false, n);
      case BlockString =>
        assert s[3..][..n - 3] == t[3..][..n - 3];
        BlockCloseLocal(t[3..], s[3..], 0, n - 6);
      case IntValue => NumberEndIs(s, 1, n);
      case BigIntValue => NumberEndIs(s, 1, n);
      case FloatValue => NumberEndIs(s, 1, n);
    }
  }

  /** A number with three dots right behind it is no number at all. */
  lemma {:induction false} NumberBeforeDots(token: Token, rest: string)
    requires IsToken(token) && IsNumber(token.kind)
    ensures ScanToken(token.value + "..." + rest) == Bad
  {
    var t, n := token.value, |token.value|;
    var s := t + "..." + rest;
    ScansPastDots(t, rest);
    var m := NumberEnd(s, 1);
    var value := s[..m];
    hide NumberEnd, CheckInt, LastOf, CheckDec, CheckExp, CheckBigInt;
    var point := LastOf(value, '.', '.');
    assert value[n] == '.' && value[n + 2] == '.';
    assert point.Some? && point.value > n;
    DotNotInt(value[..point.value], n);
  }

  lemma ScansPastDots(t: string, rest: string)
    requires t != "" && NumberEnd(t, 1) == |t|
    ensures NumberEnd(t + "..." + rest, 1) >= |t| + 3
  {
    var s, n := t + "..." + rest, |t|;
    var m := NumberEnd(s, 1);
    assert forall k :: 0 <= k < n ==> s[k] == t[k];
    assert s[n] == s[n + 1] == s[n + 2] == '.';
    assert forall k :: 1 <= k < n ==> !StopsNumber(t[k]);
    assert forall k :: 1 <= k < n + 3 ==> !StopsNumber(s[k]);
  }

  lemma DotNotInt(whole: string, k: nat)
    requires 0 < k < |whole| && whole[k] == '.'
    ensures !CheckInt(whole)
  {
    assert whole[1..][k - 1] == '.' && !IsDigit('.');
  }
}
