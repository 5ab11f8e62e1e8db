/** Which texts are numbers, by the parts they are made of. */
module Numbers {
  import opened Common
  import opened Lexer

  /** Digits without a leading zero. */
  predicate Natural(s: string) {
    s == "0" || (s != "" && s[0] != '0' && AllDigits(s))
  }

  predicate Integer(s: string) {
    Natural(s) || (s != "" && s[0] == '-' && Natural(s[1..]))
  }

  predicate Fraction(s: string) {
    |s| >= 2 && s[0] == '.' && AllDigits(s[1..])
  }

  /** A sign with any digits, or digits that begin with 1 to 8. */
  predicate Exponent(s: string) {
    && |s| >= 2 && (s[0] == 'e' || s[0] == 'E') && AllDigits(s[2..])
    && (s[1] == '+' || s[1] == '-' || '1' <= s[1] <= '8')
  }

  /** The exponents of the GraphQL specification, section 2.9.2. */
  predicate SpecifiedExponent(s: string) {
    && |s| >= 2 && (s[0] == 'e' || s[0] == 'E') && AllDigits(s[2..])
    && (IsDigit(s[1]) || ((s[1] == '+' || s[1] == '-') && |s| >= 3))
  }

  /** What a specified exponent must not begin with, and what only the scanner takes for one. */
  lemma ExponentIff(s: string)
    ensures Exponent(s) && SpecifiedExponent(s) <==> SpecifiedExponent(s) && s[1] != '0' && s[1] != '9'
    ensures Exponent(s) && !SpecifiedExponent(s) <==> |s| == 2 && (s[0] == 'e' || s[0] == 'E') && (s[1] == '+' || s[1] == '-')
  {
  }

  predicate StartsNumber(s: string) {
    s != "" && (s[0] == '-' || IsDigit(s[0]))
  }

  lemma CheckIntIff(s: string)
    requires s == "" || StartsNumber(s)
    ensures CheckInt(s) <==> Integer(s)
  {
    if s != "" {
      assert s == [s[0]] + s[1..];
      assert AllDigits(s) <==> IsDigit(s[0]) && AllDigits(s[1..]) by {
        assert forall i :: 0 < i < |s| ==> s[i] == s[1..][i - 1];
      }
      if |s| > 1 {
        assert AllDigits(s[1..]) ==> IsDigit(s[1..][0]);
      }
    }
  }

  ghost predicate FloatParts(s: string, whole: string, fraction: string, exponent: string) {
    && s == whole + fraction + exponent && Integer(whole)
    && (fraction == "" || Fraction(fraction)) && (exponent == "" || Exponent(exponent))
    && (fraction != "" || exponent != "")
  }

  ghost predicate IsFloat(s: string) {
    exists whole, fraction, exponent :: FloatParts(s, whole, fraction, exponent)
  }

  lemma IntegerChars(s: string, i: nat)
    requires Integer(s) && i < |s|
    ensures IsDigit(s[i]) || s[i] == '-'
    ensures i > 0 ==> IsDigit(s[i])
  {
    if s[0] == '-' && i > 0 {
      assert s[i] == s[1..][i - 1];
    }
  }

  /** The dot stands at the fraction and the mark at the exponent, and nowhere else. */
  lemma {:induction false} MarksAre(s: string, whole: string, fraction: string, exponent: string, i: nat)
    requires FloatParts(s, whole, fraction, exponent) && i < |s|
    ensures var w, f := |whole|, |whole| + |fraction|;
      && (s[i] == '.' <==> fraction != "" && i == w)
      && (s[i] == 'e' || s[i] == 'E' <==> exponent != "" && i == f)
  {
    var w, f := |whole|, |whole| + |fraction|;
    if i < w {
      IntegerChars(whole, i);
      assert s[i] == whole[i];
    } else if i < f {
      assert s[i] == fraction[i - w];
      assert i > w ==> fraction[i - w] == fraction[1..][i - w - 1];
    } else {
      assert s[i] == exponent[i - f];
      assert i > f + 1 ==> exponent[i - f] == exponent[2..][i - f - 2];
    }
  }

  lemma {:induction false} LastOfIs(s: string, a: char, b: char, at: Option<nat>)
    requires forall i :: 0 <= i < |s| ==> (s[i] == a || s[i] == b <==> at == Some(i))
    requires at.Some? ==> 0 < at.value < |s|
    ensures LastOf(s, a, b) == at
  {
  }

  lemma {:induction false} PartsAreFloat(s: string, whole: string, fraction: string, exponent: string)
    requires FloatParts(s, whole, fraction, exponent)
    ensures NumberKind(s) == Some(FloatValue)
  {
    var w, f := |whole|, |whole| + |fraction|;
    MarksFound(s, whole, fraction, exponent);
    Slices(s, whole, fraction, exponent);
    PartsCheck(whole, fraction, exponent);
    hide CheckInt, CheckDec, CheckExp, LastOf, Integer, FloatParts;
    assert CheckFloat(s, if exponent == "" then None else Some(f), if fraction == "" then None else Some(w));
  }

  lemma {:induction false} MarksFound(s: string, whole: string, fraction: string, exponent: string)
    requires FloatParts(s, whole, fraction, exponent)
    ensures whole != "" && (fraction != "" || exponent != "")
    ensures LastOf(s, '.', '.') == if fraction == "" then None else Some(|whole|)
    ensures LastOf(s, 'e', 'E') == if exponent == "" then None else Some(|whole| + |fraction|)
  {
    var w, f := |whole|, |whole| + |fraction|;
    WholeStarts(whole);
    forall i | 0 <= i < |s|
      ensures (s[i] == '.' <==> fraction != "" && i == w) && (s[i] == 'e' || s[i] == 'E' <==> exponent != "" && i == f)
    {
      MarksAre(s, whole, fraction, exponent, i);
    }
    hide Integer, Exponent, Fraction, LastOf;
    LastOfIs(s, '.', '.', if fraction == "" then None else Some(w));
    LastOfIs(s, 'e', 'E', if exponent == "" then None else Some(f));
  }

  lemma {:induction false} Slices(s: string, whole: string, fraction: string, exponent: string)
    requires FloatParts(s, whole, fraction, exponent)
    ensures var w, f := |whole|, |whole| + |fraction|;
      && f <= |s| && s[..w] == whole
      && (fraction != "" ==> w + 1 <= f && s[w + 1..f] == fraction[1..] && (exponent == "" ==> s[w + 1..] == fraction[1..]))
      && (fraction == "" ==> s[..f] == whole)
      && (exponent != "" ==> f < |s| && s[f + 1..] == exponent[1..])
  {
    hide Integer, Exponent, Fraction;
  }

  lemma {:induction false} PartsCheck(whole: string, fraction: string, exponent: string)
    requires Integer(whole) && (fraction == "" || Fraction(fraction)) && (exponent == "" || Exponent(exponent))
    ensures CheckInt(whole) && (fraction != "" ==> CheckDec(fraction[1..])) && (exponent != "" ==> CheckExp(exponent[1..]))
  {
    WholeStarts(whole);
    CheckIntIff(whole);
    if exponent != "" {
      assert exponent[1..][1..] == exponent[2..] && exponent[1..][0] == exponent[1];
    }
  }

  lemma WholeStarts(s: string)
    requires Integer(s)
    ensures StartsNumber(s)
  {
  }

  lemma {:induction false} FloatHasParts(s: string)
    requires StartsNumber(s) && NumberKind(s) == Some(FloatValue)
    ensures IsFloat(s)
  {
    hide *;
    var f, w := Cuts(s);
    CheckIntIff(s[..w]);
    if w < f {
      FractionChecks(s, w, f);
    }
    if f < |s| {
      ExponentChecks(s, f);
    }
    JoinParts(s, w, f);
  }

  lemma {:induction false} JoinParts(s: string, w: nat, f: nat)
    requires w <= f <= |s| && w < |s| && Integer(s[..w])
    requires w < f ==> Fraction(s[w..f])
    requires f < |s| ==> Exponent(s[f..])
    ensures IsFloat(s)
  {
    hide Integer, Fraction, Exponent;
    assert s == s[..w] + s[w..f] + s[f..];
    assert FloatParts(s, s[..w], s[w..f], s[f..]);
  }

  /** Where the exponent and the fraction begin. */
  lemma {:induction false} Cuts(s: string) returns (f: nat, w: nat)
    requires StartsNumber(s) && NumberKind(s) == Some(FloatValue)
    ensures 0 < w <= f <= |s| && w < |s| && CheckInt(s[..w]) && StartsNumber(s[..w])
    ensures w < f ==> s[w] == '.' && CheckDec(s[w + 1..f])
    ensures f < |s| ==> (s[f] == 'e' || s[f] == 'E') && CheckExp(s[f + 1..])
  {
    var point, mark := LastOf(s, '.', '.'), LastOf(s, 'e', 'E');
    hide CheckInt, CheckDec, CheckExp, LastOf;
    f := if mark.Some? then mark.value else |s|;
    w := if point.Some? then point.value else f;
    assert w < |s| ==> s[w + 1..] == s[w + 1..|s|];
  }

  lemma FractionChecks(s: string, w: nat, f: nat)
    requires w < f <= |s| && s[w] == '.' && CheckDec(s[w + 1..f])
    ensures Fraction(s[w..f])
  {
    assert s[w..f][1..] == s[w + 1..f];
  }

  lemma ExponentChecks(s: string, f: nat)
    requires f < |s| && (s[f] == 'e' || s[f] == 'E') && CheckExp(s[f + 1..])
    ensures Exponent(s[f..])
  {
    var e := s[f + 1..];
    assert s[f..][1..] == e && s[f..][2..] == e[1..] && s[f..][1] == e[0];
  }

  /** Of the texts that start like numbers, floats are those made of an integer and a fraction, an exponent, or both;
      the others are integers, big ones when they are unsigned and beyond 64 bits. */
  lemma {:induction false} NumberKindIff(s: string)
    requires StartsNumber(s)
    ensures NumberKind(s) == Some(FloatValue) <==> IsFloat(s)
    ensures NumberKind(s) == Some(BigIntValue) <==> Integer(s) && AllDigits(s) && Decimal(s) > MAX_U64
    ensures NumberKind(s) == Some(IntValue) <==> Integer(s) && (AllDigits(s) ==> Decimal(s) <= MAX_U64)
  {
    CheckIntIff(s);
    hide CheckFloat, CheckInt, Decimal;
    if IsFloat(s) {
      var whole, fraction, exponent :| FloatParts(s, whole, fraction, exponent);
      PartsAreFloat(s, whole, fraction, exponent);
    }
    if NumberKind(s) == Some(FloatValue) {
      FloatHasParts(s);
    }
    if Integer(s) {
      NoMarks(s);
    }
    NeverOther(s);
  }

  lemma NoMarks(s: string)
    requires Integer(s)
    ensures LastOf(s, '.', '.') == None && LastOf(s, 'e', 'E') == None
  {
    forall i | 0 <= i < |s| ensures s[i] != '.' && s[i] != 'e' && s[i] != 'E' {
      IntegerChars(s, i);
    }
  }

  lemma NeverOther(s: string)
    ensures NumberKind(s).Some? ==> NumberKind(s).value in [FloatValue, BigIntValue, IntValue]
    ensures NumberKind(s) == Some(BigIntValue) || NumberKind(s) == Some(IntValue) ==> CheckInt(s)
    ensures NumberKind(s) == Some(BigIntValue) ==> CheckBigInt(s)
    ensures NumberKind(s) == Some(IntValue) ==> !CheckBigInt(s)
  {
  }

  /** `1e9` is no number, and `1e+` is one. */
  lemma NineIsNoExponent()
    ensures NumberKind("1e9") == None && NumberKind("1e+") == Some(FloatValue)
  {
    assert "1e9"[..1] == "1" && "1e9"[2..] == "9";
    assert LastOf("1e9", 'e', 'E') == Some(1) && LastOf("1e9", '.', '.') == None;
    assert FloatParts("1e+", "1", "", "e+");
    PartsAreFloat("1e+", "1", "", "e+");
  }
}
