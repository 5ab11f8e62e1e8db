/** Quoted strings: how they are written, how they are read back, and which strings survive. */
module Strings {
  import opened Common
  import opened Lexer

  // ----- numbers in text -----

  function Digit(d: nat): (c: char)
    requires d < 10
    ensures IsDigit(c)
  {
    ('0' as int + d) as char
  }

  function Digits(n: nat): (text: string)
    ensures text != "" && AllDigits(text)
  {
    if n < 10 then [Digit(n)] else Digits(n / 10) + [Digit(n % 10)]
  }

  /** At least four digits, with zeros in front. */
  function Padded(n: nat): (text: string)
    ensures |text| >= 4 && AllDigits(text)
  {
    var digits := Digits(n);
    if |digits| >= 4 then digits
    else if |digits| == 3 then "0" + digits
    else if |digits| == 2 then "00" + digits
    else "000" + digits
  }

  function HexDigit(c: char): Option<nat> {
    if '0' <= c <= '9' then Some(c as nat - '0' as nat)
    else if 'a' <= c <= 'f' then Some(c as nat - 'a' as nat + 10)
    else if 'A' <= c <= 'F' then Some(c as nat - 'A' as nat + 10)
    else None
  }

  function HexDigits(text: string): Option<nat> {
    if text == "" then Some(0)
    else
      match (HexDigits(text[..|text| - 1]), HexDigit(text[|text| - 1]))
      case (Some(high), Some(low)) => Some(high * 16 + low)
      case (_, _) => None
  }

  /** The number parser takes a plus sign in front. */
  function HexNumber(text: string): Option<nat> {
    if text == "" || text == "+" then None
    else if text[0] == '+' then HexDigits(text[1..])
    else HexDigits(text)
  }

  /** Surrogates are no characters. */
  function CharFrom(n: nat): Option<char> {
    if n < 0xD800 || 0xE000 <= n < 0x11_0000 then Some(n as char) else None
  }

  // ----- writing -----

  predicate Printable(c: char) {
    0x20 <= c as int <= 0xFFFF
  }

  predicate Plain(c: char) {
    c == '\r' || c == '\t' || Printable(c)
  }

  predicate HasNonprintable(s: string) {
    exists i :: 0 <= i < |s| && s[i] != '\n' && !Plain(s[i])
  }

  /** Whether a string is written between single quotes rather than as a block. */
  predicate TakesQuotes(s: string) {
    '\n' !in s || HasNonprintable(s)
  }

  /** The code of a character that is not printable is written in decimal. */
  function Escape(c: char): (text: string)
    ensures text != ""
  {
    if c == '\r' then "\\r"
    else if c == '\n' then "\\n"
    else if c == '\t' then "\\t"
    else if c == '"' then "\\\""
    else if c == '\\' then "\\\\"
    else if Printable(c) then [c]
    else "\\u" + Padded(c as int)
  }

  function Escaped(s: string): string {
    if s == "" then "" else Escape(s[0]) + Escaped(s[1..])
  }

  function Quote(s: string): string {
    "\"" + Escaped(s) + "\""
  }

  // ----- reading -----

  datatype Unquoted = Read(text: string) | Malformed | Panics

  function Push(c: char, rest: Unquoted): Unquoted {
    if rest.Read? then Read([c] + rest.text) else rest
  }

  /** The character behind a backslash, for the escapes of one letter; `b` gives U+0010. */
  function Unescaped(c: char): Option<char> {
    if c == '"' || c == '\\' || c == '/' then Some(c)
    else if c == 'b' then Some('\U{0010}')
    else if c == 'f' then Some('\U{000C}')
    else if c == 'n' then Some('\n')
    else if c == 'r' then Some('\r')
    else if c == 't' then Some('\t')
    else None
  }

  /** Four characters read as a hexadecimal code. */
  function CodePoint(text: string): Option<char> {
    match HexNumber(text)
    case Some(n) => CharFrom(n)
    case None => None
  }

  function UnquoteFrom(chars: string): Unquoted
    decreases |chars|
  {
    if chars == "" then Read("")
    else if chars[0] != '\\' then Push(chars[0], UnquoteFrom(chars[1..]))
    else if |chars| == 1 then Panics
    else if chars[1] == 'u' then
      if |chars| < 6 || CodePoint(chars[2..6]).None? then Malformed
      else Push(CodePoint(chars[2..6]).value, UnquoteFrom(chars[6..]))
    else if Unescaped(chars[1]).None? then Malformed
    else Push(Unescaped(chars[1]).value, UnquoteFrom(chars[2..]))
  }

  function Unquote(s: string): Unquoted
    requires |s| >= 2
  {
    UnquoteFrom(s[1..|s| - 1])
  }

  /** Prefixes what was read before to what is read still. */
  function After(text: string, rest: Unquoted): Unquoted {
    if rest.Read? then Read(text + rest.text) else rest
  }

  method UnquoteString(s: string) returns (r: Unquoted)
    requires |s| >= 2
    ensures r == Unquote(s)
  {
    var chars := s[1..|s| - 1];
    var res, i := "", 0;
    assert chars[0..] == chars;
    AfterNothing(UnquoteFrom(chars));
    while i < |chars|
      invariant i <= |chars| && UnquoteFrom(chars) == After(res, UnquoteFrom(chars[i..]))
    {
      var c := chars[i];
      var rest := chars[i..];
      if c == '\\' {
        if i + 1 == |chars| {
          return Panics;
        }
        var e := chars[i + 1];
        i := i + 2;
        if e == 'u' {
          var code := "";
          while |code| < 4
            invariant |code| <= 4 && i + 0 <= |chars| && i == |chars| - |rest| + 2 + |code| && code == rest[2..2 + |code|]
          {
            if i == |chars| {
              return Malformed;
            }
            code := code + [chars[i]];
            i := i + 1;
          }
          var unicode := CodePoint(code);
          if unicode.None? {
            return Malformed;
          }
          AfterPush(res, unicode.value, UnquoteFrom(chars[i..]));
          assert rest[6..] == chars[i..];
          res := res + [unicode.value];
        } else {
          var u := Unescaped(e);
          if u.None? {
            return Malformed;
          }
          AfterPush(res, u.value, UnquoteFrom(chars[i..]));
          assert rest[2..] == chars[i..];
          res := res + [u.value];
        }
      } else {
        i := i + 1;
        AfterPush(res, c, UnquoteFrom(chars[i..]));
        assert rest[1..] == chars[i..];
        res := res + [c];
      }
    }
    assert chars[i..] == "";
    assert res + "" == res;
    r := Read(res);
  }

  lemma AfterNothing(rest: Unquoted)
    ensures After("", rest) == rest
  {
    if rest.Read? {
      assert "" + rest.text == rest.text;
    }
  }

  lemma AfterPush(text: string, c: char, rest: Unquoted)
    ensures After(text, Push(c, rest)) == After(text + [c], rest)
  {
    if rest.Read? {
      assert text + ([c] + rest.text) == text + [c] + rest.text;
    }
  }
}
