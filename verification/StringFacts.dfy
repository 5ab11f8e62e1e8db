/** A quoted string is one token, and reading it gives back the string exactly when its characters survive. */
module StringFacts {
  import opened Common
  import opened Lexer
  import opened Scanning
  import opened Strings

  // ----- scanning what was written -----

  /** `part` stands in `text` at `i`. */
  predicate StandsAt(text: string, i: nat, part: string) {
    i + |part| <= |text| && forall k :: 0 <= k < |part| ==> part[k] == text[i + k]
  }

  predicate Harmless(c: char) {
    c != '"' && c != '\\' && c != '\n'
  }

  lemma {:induction false} RunScans(text: string, i: nat, part: string)
    requires StandsAt(text, i, part) && forall k :: 0 <= k < |part| ==> Harmless(part[k])
    ensures QuotedEnd(text, i, false) == QuotedEnd(text, i + |part|, false)
    decreases part
  {
    if part != "" {
      assert part[0] == text[i + 0];
      StandsTail(text, i, part, 1);
      RunScans(text, i + 1, part[1..]);
    }
  }

  lemma StandsTail(text: string, i: nat, part: string, n: nat)
    requires StandsAt(text, i, part) && n <= |part|
    ensures StandsAt(text, i, part[..n]) && StandsAt(text, i + n, part[n..])
  {
    forall k | 0 <= k < |part| - n
      ensures part[n..][k] == text[i + n + k]
    {
      assert part[n + k] == text[i + (n + k)];
    }
  }

  /** The scan goes over an escaped character and is not escaping behind it. */
  lemma {:induction false} EscapeScans(text: string, i: nat, c: char)
    requires StandsAt(text, i, Escape(c))
    ensures QuotedEnd(text, i, false) == QuotedEnd(text, i + |Escape(c)|, false)
  {
    if c == '\r' || c == '\n' || c == '\t' || c == '"' || c == '\\' {
      PairScans(text, i, Escape(c));
    } else if Printable(c) {
      assert Escape(c) == [c] && Harmless(c);
      hide QuotedEnd, Escape;
      RunScans(text, i, [c]);
    } else {
      CodeScans(text, i, Padded(c as int));
    }
  }

  lemma PairScans(text: string, i: nat, e: string)
    requires StandsAt(text, i, e) && |e| == 2 && e[0] == '\\' && e[1] != '\n'
    ensures QuotedEnd(text, i, false) == QuotedEnd(text, i + 2, false)
  {
    assert e[0] == text[i + 0] && e[1] == text[i + 1];
    assert QuotedEnd(text, i, false) == QuotedEnd(text, i + 1, true);
  }

  lemma {:induction false} CodeScans(text: string, i: nat, digits: string)
    requires StandsAt(text, i, "\\u" + digits) && AllDigits(digits)
    ensures QuotedEnd(text, i, false) == QuotedEnd(text, i + 2 + |digits|, false)
  {
    var e := "\\u" + digits;
    StandsTail(text, i, e, 2);
    assert e[..2] == "\\u" && e[2..] == digits;
    PairScans(text, i, "\\u");
    hide QuotedEnd;
    RunScans(text, i + 2, digits);
  }

  lemma {:induction false} EscapedScans(text: string, i: nat, s: string)
    requires StandsAt(text, i, Escaped(s) + "\"")
    ensures QuotedEnd(text, i, false) == Some(i + |Escaped(s)| + 1)
    decreases s
  {
    hide QuotedEnd, Escape, Escaped, StandsAt;
    if s == "" {
      ClosingScans(text, i);
    } else {
      var e, rest := Escape(s[0]), Escaped(s[1..]) + "\"";
      EscapedParts(s);
      EscapedStep(text, i, e, rest, Escaped(s) + "\"");
      EscapeScans(text, i, s[0]);
      EscapedScans(text, i + |e|, s[1..]);
    }
  }

  lemma ClosingScans(text: string, i: nat)
    requires StandsAt(text, i, Escaped("") + "\"")
    ensures i < |text| && Escaped("") == "" && QuotedEnd(text, i, false) == Some(i + 1)
  {
    assert (Escaped("") + "\"")[0] == text[i + 0];
  }

  lemma EscapedParts(s: string)
    requires s != ""
    ensures Escaped(s) == Escape(s[0]) + Escaped(s[1..])
    ensures Escaped(s) + "\"" == Escape(s[0]) + (Escaped(s[1..]) + "\"")
  {
  }

  lemma EscapedStep(text: string, i: nat, e: string, rest: string, part: string)
    requires part == e + rest && StandsAt(text, i, part)
    ensures StandsAt(text, i, e) && StandsAt(text, i + |e|, rest)
  {
    assert part[..|e|] == e && part[|e|..] == rest;
    StandsTail(text, i, part, |e|);
  }

  /** What is written for any string is scanned as one string token. */
  lemma {:induction false} QuoteIsToken(s: string)
    ensures IsToken(Token(StringValue, Quote(s)))
  {
    var text := Quote(s);
    assert StandsAt(text, 1, Escaped(s) + "\"");
    EscapedScans(text, 1, s);
    if s != "" {
      assert text[1] == Escape(s[0])[0];
    }
  }

  /** Whatever follows, unless it is a quote behind the empty string. */
  lemma QuoteScansIff(s: string, rest: string)
    ensures ScanToken(Quote(s) + rest) == Found(StringValue, |Quote(s)|) <==> !(s == "" && StartsWith(rest, '"'))
  {
    QuoteIsToken(s);
    ScansIff(Token(StringValue, Quote(s)), rest);
    assert Quote(s) == "\"\"" <==> s == "" by {
      if s != "" {
        assert |Quote(s)| >= 3;
      }
    }
  }

  // ----- reading what was written -----

  /** What comes back for one character: itself, or the decimal digits of its code taken for hexadecimal ones. */
  function Mangled(c: char): (text: string)
    ensures text != ""
  {
    if Plain(c) || c == '\n' then [c]
    else
      var digits := Padded(c as int);
      (match CodePoint(digits[..4]) case Some(d) => [d] case None => "?") + digits[4..]
  }

  function MangledAll(s: string): (text: string)
    ensures |text| >= |s|
  {
    if s == "" then "" else Mangled(s[0]) + MangledAll(s[1..])
  }

  predicate Survives(c: char) {
    Plain(c) || c == '\n' || c as int <= 8
  }

  /** Four decimal digits are a hexadecimal code, and never a surrogate. */
  lemma FourDigits(digits: string)
    requires |digits| == 4 && AllDigits(digits)
    ensures var value := ((HexDigit(digits[0]).value * 16 + HexDigit(digits[1]).value) * 16
                          + HexDigit(digits[2]).value) * 16 + HexDigit(digits[3]).value;
            CodePoint(digits) == Some(value as char)
  {
    var a, b, c := digits[..1], digits[..2], digits[..3];
    assert HexDigits(a[..0]) == Some(0);
    assert b[..1] == a && c[..2] == b && digits[..3] == c;
    assert HexDigits(a) == HexDigit(digits[0]);
    assert HexDigits(b) == Some(HexDigit(digits[0]).value * 16 + HexDigit(digits[1]).value);
    assert HexDigits(c).Some?;
  }

  /** Reading back what was written never fails; it gives every character mangled. */
  lemma {:induction false} ReadsMangled(s: string)
    ensures UnquoteFrom(Escaped(s)) == Read(MangledAll(s))
  {
    if s != "" {
      ReadsMangled(s[1..]);
      EscapeReads(s[0], Escaped(s[1..]));
    }
  }

  lemma EscapeReads(c: char, rest: string)
    ensures UnquoteFrom(Escape(c) + rest) == After(Mangled(c), UnquoteFrom(rest))
  {
    if c == '\r' || c == '\n' || c == '\t' || c == '"' || c == '\\' {
      PairReads(Escape(c), rest);
    } else if Printable(c) {
      assert ([c] + rest)[1..] == rest;
    } else {
      CodeReads(Padded(c as int), rest);
    }
    if Plain(c) || c == '\n' {
      AfterOne(c, UnquoteFrom(rest));
    }
  }

  lemma PairReads(e: string, rest: string)
    requires |e| == 2 && e[0] == '\\' && e[1] != 'u' && Unescaped(e[1]).Some?
    ensures UnquoteFrom(e + rest) == Push(Unescaped(e[1]).value, UnquoteFrom(rest))
  {
    assert (e + rest)[2..] == rest;
  }

  lemma {:induction false} CodeReads(digits: string, rest: string)
    requires AllDigits(digits) && |digits| >= 4
    ensures CodePoint(digits[..4]).Some?
    ensures UnquoteFrom("\\u" + digits + rest) == After([CodePoint(digits[..4]).value] + digits[4..], UnquoteFrom(rest))
  {
    var text := "\\u" + digits + rest;
    var code, more := digits[..4], digits[4..];
    FourDigits(code);
    assert text[2..6] == code && text[6..] == more + rest;
    hide CodePoint, After;
    DigitsRead(more, rest);
    AfterTwo(CodePoint(code).value, more, UnquoteFrom(rest));
  }

  lemma {:induction false} DigitsRead(digits: string, rest: string)
    requires AllDigits(digits)
    ensures UnquoteFrom(digits + rest) == After(digits, UnquoteFrom(rest))
  {
    if digits == "" {
      assert "" + rest == rest;
      AfterNothing(UnquoteFrom(rest));
    } else {
      var text := digits + rest;
      assert text[0] == digits[0] && text[1..] == digits[1..] + rest;
      DigitsRead(digits[1..], rest);
      AfterTwo(digits[0], digits[1..], UnquoteFrom(rest));
      assert [digits[0]] + digits[1..] == digits;
    }
  }

  lemma AfterOne(c: char, rest: Unquoted)
    ensures Push(c, rest) == After([c], rest)
  {
  }

  lemma AfterTwo(c: char, text: string, rest: Unquoted)
    ensures Push(c, After(text, rest)) == After([c] + text, rest)
  {
    if rest.Read? {
      assert [c] + (text + rest.text) == [c] + text + rest.text;
    }
  }

  lemma {:induction false} SurvivesAlone(c: char)
    ensures Mangled(c) == [c] <==> Survives(c)
    ensures |Mangled(c)| == 1 || !Survives(c)
  {
    if !(Plain(c) || c == '\n') {
      var n := c as int;
      if n < 0x20 {
        SmallCode(n);
        assert Padded(n)[..4] == Padded(n) && Padded(n)[4..] == "";
        assert n / 10 * 16 + n % 10 == n + 6 * (n / 10);
      } else {
        LargeCode(n);
      }
    }
  }

  lemma SmallCode(n: nat)
    requires n < 0x20
    ensures |Padded(n)| == 4 && CodePoint(Padded(n)) == Some((n / 10 * 16 + n % 10) as char)
  {
    if n >= 10 {
      assert Digits(n) == [Digit(n / 10), Digit(n % 10)];
      assert Padded(n) == ['0', '0', Digit(n / 10), Digit(n % 10)];
    } else {
      assert Padded(n) == ['0', '0', '0', Digit(n)];
    }
    var digits := Padded(n);
    FourDigits(digits);
    assert digits[..4] == digits;
  }

  lemma LargeCode(n: nat)
    requires n > 0xFFFF
    ensures |Padded(n)| > 4
  {
    assert |Digits(n / 10000)| >= 1;
    assert |Digits(n / 1000)| >= 2 by { assert n / 1000 / 10 == n / 10000; }
    assert |Digits(n / 100)| >= 3 by { assert n / 100 / 10 == n / 1000; }
    assert |Digits(n / 10)| >= 4 by { assert n / 10 / 10 == n / 100; }
  }

  /** A string that is written between quotes comes back exactly when each of its characters survives. */
  lemma {:induction false} QuoteRoundTripIff(s: string)
    ensures Unquote(Quote(s)) == Read(s) <==> forall i :: 0 <= i < |s| ==> Survives(s[i])
  {
    assert Quote(s)[1..|Quote(s)| - 1] == Escaped(s);
    ReadsMangled(s);
    UnmangledIff(s);
  }

  lemma {:induction false} UnmangledIff(s: string)
    ensures MangledAll(s) == s <==> forall i :: 0 <= i < |s| ==> Survives(s[i])
  {
    if s != "" {
      var c, rest, m := s[0], s[1..], Mangled(s[0]);
      SurvivesAlone(c);
      UnmangledIff(rest);
      if MangledAll(s) == s {
        assert |m| == 1;
        assert m[0] == MangledAll(s)[0] == c;
        assert MangledAll(s)[1..] == MangledAll(rest);
        assert forall i :: 0 < i < |s| ==> s[i] == rest[i - 1];
      }
      if forall i :: 0 <= i < |s| ==> Survives(s[i]) {
        assert Survives(s[0]);
        assert forall i :: 0 <= i < |rest| ==> rest[i] == s[i + 1];
        assert [c] + rest == s;
      }
    }
  }

  /** U+000E is written as `\u0014` and comes back as U+0014. */
  lemma ShiftOutIsMangled()
    ensures Quote("\U{000E}") == "\"\\u0014\"" && Unquote(Quote("\U{000E}")) == Read("\U{0014}")
  {
    var c := '\U{000E}';
    assert ['0'] == "0" && Digits(14) == ['1', '4'];
    assert Padded(14) == "0014";
    SmallCode(14);
    assert Escaped([c][1..]) == "" && MangledAll([c][1..]) == "";
    ReadsMangled([c]);
    assert Quote([c])[1..|Quote([c])| - 1] == Escaped([c]);
    assert "0014"[..4] == "0014" && "0014"[4..] == "";
    assert (0x14 as char) == '\U{0014}';
  }

  // ----- reading any token -----

  /** No scanned string ends its body in a backslash that escapes nothing. */
  lemma {:induction false} TokensNeverPanic(text: string)
    requires IsToken(Token(StringValue, text))
    ensures |text| >= 2 && Unquote(text) != Panics
  {
    BodyNeverPanics(text, 1);
    assert text[1..|text| - 1] == text[1..][..|text| - 2];
  }

  lemma {:induction false} BodyNeverPanics(text: string, i: nat)
    requires i <= |text| && QuotedEnd(text, i, false) == Some(|text|)
    ensures i < |text| && UnquoteFrom(text[i..|text| - 1]) != Panics
    decreases |text| - i
  {
    var body := text[i..|text| - 1];
    if i < |text| - 1 {
      assert body[0] == text[i];
      if text[i] == '\\' {
        assert QuotedEnd(text, i, false) == QuotedEnd(text, i + 1, true);
        assert QuotedEnd(text, i + 1, true) == QuotedEnd(text, i + 2, false);
        if i + 2 < |text| {
          assert body[1] == text[i + 1];
          BodyNeverPanics(text, i + 2);
          assert body[2..] == text[i + 2..|text| - 1];
          if body[1] == 'u' && |body| >= 6 && CodePoint(body[2..6]).Some? {
            CodeHasNoSlash(body[2..6]);
            assert forall k :: 2 <= k < 6 ==> body[k] == body[2..6][k - 2] == text[i + k];
            SkipsFour(text, i + 2);
            BodyNeverPanics(text, i + 6);
            assert body[6..] == text[i + 6..|text| - 1];
          }
        }
      } else {
        BodyNeverPanics(text, i + 1);
        assert body[1..] == text[i + 1..|text| - 1];
      }
    }
  }

  lemma SkipsFour(text: string, i: nat)
    requires i + 4 <= |text| && forall k :: i <= k < i + 4 ==> Harmless(text[k])
    ensures QuotedEnd(text, i, false) == QuotedEnd(text, i + 4, false)
  {
    assert QuotedEnd(text, i, false) == QuotedEnd(text, i + 1, false);
    assert QuotedEnd(text, i + 1, false) == QuotedEnd(text, i + 2, false);
    assert QuotedEnd(text, i + 2, false) == QuotedEnd(text, i + 3, false);
  }

  lemma CodeHasNoSlash(code: string)
    requires CodePoint(code).Some? && |code| == 4
    ensures forall k :: 0 <= k < 4 ==> Harmless(code[k])
  {
    if code[0] == '+' {
      HexHasNoSlash(code[1..]);
      assert forall k :: 1 <= k < 4 ==> code[k] == code[1..][k - 1];
    } else {
      HexHasNoSlash(code);
    }
  }

  lemma HexHasNoSlash(digits: string)
    requires HexDigits(digits).Some?
    ensures forall k :: 0 <= k < |digits| ==> Harmless(digits[k])
  {
    if digits != "" {
      HexHasNoSlash(digits[..|digits| - 1]);
      assert forall k :: 0 <= k < |digits| - 1 ==> digits[k] == digits[..|digits| - 1][k];
    }
  }

  // ----- reading escapes -----

  /** The character an escape of one letter stands for in the GraphQL specification, section 2.9.4. */
  function SpecifiedEscape(c: char): Option<char> {
    match c
    case '"' => Some('"')
    case '\\' => Some('\\')
    case '/' => Some('/')
    case 'b' => Some('\U{0008}')
    case 'f' => Some('\U{000C}')
    case 'n' => Some('\n')
    case 'r' => Some('\r')
    case 't' => Some('\t')
    case _ => None
  }

  /** Every specified escape of one letter is read as specified but `b`, which gives U+0010 for U+0008; other letters
      than `u` are malformed. */
  lemma EscapeReadIff(c: char, rest: string)
    requires c != 'u'
    ensures UnquoteFrom(['\\', c] + rest) ==
            if SpecifiedEscape(c).None? then Malformed
            else Push(if c == 'b' then '\U{0010}' else SpecifiedEscape(c).value, UnquoteFrom(rest))
  {
    assert (['\\', c] + rest)[2..] == rest;
  }

  /** Four hexadecimal digits give the character with that code, unless it is a surrogate. */
  lemma UnicodeRead(code: string, rest: string)
    requires |code| == 4 && forall i :: 0 <= i < 4 ==> HexDigit(code[i]).Some?
    ensures var n := ((HexDigit(code[0]).value * 16 + HexDigit(code[1]).value) * 16 + HexDigit(code[2]).value) * 16 + HexDigit(code[3]).value;
      UnquoteFrom("\\u" + code + rest) ==
      if 0xD800 <= n < 0xE000 then Malformed else Push(n as char, UnquoteFrom(rest))
  {
    var n := ((HexDigit(code[0]).value * 16 + HexDigit(code[1]).value) * 16 + HexDigit(code[2]).value) * 16 + HexDigit(code[3]).value;
    var text := "\\u" + code + rest;
    assert text[2..6] == code && text[6..] == rest;
    HexOfFour(code);
    hide HexDigits, HexDigit;
    assert CodePoint(code) == CharFrom(n);
  }

  lemma HexOfFour(code: string)
    requires |code| == 4 && forall i :: 0 <= i < 4 ==> HexDigit(code[i]).Some?
    ensures HexDigits(code) ==
            Some(((HexDigit(code[0]).value * 16 + HexDigit(code[1]).value) * 16 + HexDigit(code[2]).value) * 16 + HexDigit(code[3]).value)
    ensures code[0] != '+'
  {
    hide HexDigit;
    PlusIsNoDigit();
    assert code[..3][..2] == code[..2] && code[..2][..1] == code[..1] && code[..1][..0] == "";
    assert HexDigits("") == Some(0);
    assert HexDigits(code[..1]) == Some(HexDigit(code[0]).value);
    assert HexDigits(code[..2]) == Some(HexDigit(code[0]).value * 16 + HexDigit(code[1]).value);
    assert HexDigits(code[..3]) == Some((HexDigit(code[0]).value * 16 + HexDigit(code[1]).value) * 16 + HexDigit(code[2]).value);
  }

  lemma PlusIsNoDigit()
    ensures HexDigit('+') == None
  {
  }
}
