/** Tokens of the query language: scanning one token, skipping ignored text, and lexing a whole text. */
module Lexer {
  import opened Common

  datatype Kind = Punctuator | Name | IntValue | BigIntValue | FloatValue | StringValue | BlockString

  datatype Token = Token(kind: Kind, value: string)

  datatype Scan = End | Bad | Found(kind: Kind, len: nat)

  // ----- character classes -----

  predicate IsDigit(c: char) {
    '0' <= c <= '9'
  }

  predicate IsNameStart(c: char) {
    c == '_' || 'a' <= c <= 'z' || 'A' <= c <= 'Z'
  }

  predicate IsNameChar(c: char) {
    IsNameStart(c) || IsDigit(c)
  }

  predicate IsOpen(c: char) {
    c == '(' || c == '[' || c == '{'
  }

  predicate IsClose(c: char) {
    c == ')' || c == ']' || c == '}'
  }

  predicate IsSign(c: char) {
    c == '!' || c == '$' || c == ':' || c == '=' || c == '@' || c == '|' || c == '&'
  }

  /** The characters at which the scan of a number stops. */
  predicate StopsNumber(c: char) {
    c == ' ' || c == '\n' || c == '\r' || c == '\t' || c == ',' || c == '#' || IsSign(c) || IsOpen(c) || IsClose(c)
  }

  predicate IsBlank(c: char) {
    c == '\U{FEFF}' || c == '\r' || c == '\t' || c == '\n' || c == ' ' || c == ','
  }

  predicate AllDigits(s: string) {
    forall i :: 0 <= i < |s| ==> IsDigit(s[i])
  }

  predicate StartsWith(s: string, c: char) {
    s != "" && s[0] == c
  }

  // ----- numbers -----

  /** Called on texts that begin with a digit or a minus sign. */
  predicate CheckInt(value: string) {
    || value == "0"
    || value == "-0"
    || (value != "" && !StartsWith(value, '0') && value != "-"
        && !(StartsWith(value, '-') && StartsWith(value[1..], '0')) && AllDigits(value[1..]))
  }

  function Decimal(digits: string): nat
    requires AllDigits(digits)
  {
    if digits == "" then 0 else Decimal(digits[..|digits| - 1]) * 10 + (digits[|digits| - 1] as nat - '0' as nat)
  }

  const MAX_U64 := 0xFFFF_FFFF_FFFF_FFFF

  /** The u64 parse overflows; a sign makes it fail in another way. */
  predicate CheckBigInt(value: string) {
    value != "" && AllDigits(value) && Decimal(value) > MAX_U64
  }

  predicate CheckDec(value: string) {
    value != "" && AllDigits(value)
  }

  /** The first character may be a sign or 1 to 8. */
  predicate CheckExp(value: string) {
    value != "" && (value[0] == '-' || value[0] == '+' || '0' < value[0] < '9') && AllDigits(value[1..])
  }

  predicate CheckFloat(value: string, exponent: Option<nat>, point: Option<nat>)
    requires exponent.Some? ==> exponent.value < |value|
    requires point.Some? ==> point.value < |value|
    requires exponent.Some? || point.Some?
    requires exponent.Some? && point.Some? ==> exponent.value != point.value
  {
    match (exponent, point)
    case (Some(e), Some(r)) => e > r && CheckInt(value[..r]) && CheckDec(value[r + 1..e]) && CheckExp(value[e + 1..])
    case (Some(e), None) => CheckInt(value[..e]) && CheckExp(value[e + 1..])
    case (None, Some(r)) => CheckInt(value[..r]) && CheckDec(value[r + 1..])
    case (None, None) => false
  }

  /** Where the scan of a number that began before `i` stops. */
  function NumberEnd(s: string, i: nat): (n: nat)
    requires i <= |s|
    ensures i <= n <= |s| && (n < |s| ==> StopsNumber(s[n]))
    ensures forall k :: i <= k < n ==> !StopsNumber(s[k])
    decreases |s| - i
  {
    if i == |s| || StopsNumber(s[i]) then i else NumberEnd(s, i + 1)
  }

  /** The last position after the first at which one of two characters stands. */
  function LastOf(value: string, a: char, b: char): (r: Option<nat>)
    ensures r.Some? ==> 0 < r.value < |value| && (value[r.value] == a || value[r.value] == b)
    ensures r.None? ==> forall i :: 0 < i < |value| ==> value[i] != a && value[i] != b
    ensures r.Some? ==> forall i :: r.value < i < |value| ==> value[i] != a && value[i] != b
  {
    if |value| <= 1 then None
    else if value[|value| - 1] == a || value[|value| - 1] == b then Some(|value| - 1)
    else LastOf(value[..|value| - 1], a, b)
  }

  /** The kind of a number's text, if it is one. */
  function NumberKind(value: string): Option<Kind> {
    var point, exponent := LastOf(value, '.', '.'), LastOf(value, 'e', 'E');
    if point.Some? || exponent.Some? then
      if CheckFloat(value, exponent, point) then Some(FloatValue) else None
    else if !CheckInt(value) then None
    else if CheckBigInt(value) then Some(BigIntValue)
    else Some(IntValue)
  }

  // ----- names and strings -----

  function NameEnd(s: string, i: nat): (n: nat)
    requires i <= |s|
    ensures i <= n <= |s| && (n < |s| ==> !IsNameChar(s[n]))
    ensures forall k :: i <= k < n ==> IsNameChar(s[k])
    decreases |s| - i
  {
    if i == |s| || !IsNameChar(s[i]) then i else NameEnd(s, i + 1)
  }

  /** The end of a quoted string read up to `i`, just after its closing quote. */
  function QuotedEnd(s: string, i: nat, escaped: bool): (r: Option<nat>)
    requires i <= |s|
    ensures r.Some? ==> i < r.value <= |s|
    decreases |s| - i
  {
    if i == |s| || s[i] == '\n' then None
    else if s[i] == '"' && !escaped then Some(i + 1)
    else QuotedEnd(s, i + 1, !escaped && s[i] == '\\')
  }

  predicate TripleAt(s: string, i: nat) {
    i + 3 <= |s| && s[i] == '"' && s[i + 1] == '"' && s[i + 2] == '"'
  }

  /** The first unescaped triple quote at or after `i`, matches being taken left to right without overlap. */
  function BlockClose(tail: string, i: nat): (r: Option<nat>)
    requires i <= |tail|
    ensures r.Some? ==> i <= r.value && r.value + 3 <= |tail|
    decreases |tail| - i
  {
    if i + 3 > |tail| then None
    else if !TripleAt(tail, i) then BlockClose(tail, i + 1)
    else if i > 0 && tail[i - 1] == '\\' then BlockClose(tail, i + 3)
    else Some(i)
  }

  // ----- one token -----

  function ScanToken(s: string): (r: Scan)
    ensures r.Found? ==> 0 < r.len <= |s|
    ensures r.End? <==> s == ""
  {
    if s == "" then End
    else
      var c := s[0];
      if IsOpen(c) || IsClose(c) || IsSign(c) then Found(Punctuator, 1)
      else if c == '.' then (if |s| >= 3 && s[1] == '.' && s[2] == '.' then Found(Punctuator, 3) else Bad)
      else if IsNameStart(c) then Found(Name, NameEnd(s, 1))
      else if c == '-' || IsDigit(c) then
        var n := NumberEnd(s, 1);
        match NumberKind(s[..n]) case Some(kind) => Found(kind, n) case None => Bad
      else if c == '"' then
        if TripleAt(s, 0) then
          match BlockClose(s[3..], 0) case Some(i) => Found(BlockString, i + 6) case None => Bad
        else
          match QuotedEnd(s, 1, false) case Some(n) => Found(StringValue, n) case None => Bad
      else Bad
  }

  // ----- ignored text -----

  function CommentEnd(s: string, i: nat): (n: nat)
    requires i <= |s|
    ensures i <= n <= |s|
    decreases |s| - i
  {
    if i == |s| then i else if s[i] == '\r' || s[i] == '\n' then i + 1 else CommentEnd(s, i + 1)
  }

  /** The end of the blanks, commas and comments that start at `i`. */
  function SkipEnd(s: string, i: nat): (n: nat)
    requires i <= |s|
    ensures i <= n <= |s|
    decreases |s| - i
  {
    if i == |s| then i
    else if IsBlank(s[i]) then SkipEnd(s, i + 1)
    else if s[i] == '#' then SkipEnd(s, CommentEnd(s, i + 1))
    else i
  }

  function Skip(s: string): string {
    s[SkipEnd(s, 0)..]
  }

  // ----- the bracket budget -----

  const BRACKET_LIMIT := 50

  /** What is left of the budget after a token; None when an opening bracket exceeds it. */
  function Spend(limit: nat, token: Token): Option<nat> {
    if token.kind != Punctuator || token.value == "" then Some(limit)
    else if IsOpen(token.value[0]) then (if limit == 0 then None else Some(limit - 1))
    else if IsClose(token.value[0]) then Some(limit + 1)
    else Some(limit)
  }

  // ----- whole texts -----

  /** The tokens of a text that starts at a token, or None when some token is malformed or nested too deeply. */
  function LexFrom(s: string, limit: nat): Option<seq<Token>>
    decreases |s|
  {
    match ScanToken(s)
    case End => Some([])
    case Bad => None
    case Found(kind, n) =>
      var token := Token(kind, s[..n]);
      match Spend(limit, token)
      case None => None
      case Some(limit') =>
        match LexFrom(Skip(s[n..]), limit')
        case None => None
        case Some(rest) => Some([token] + rest)
  }

  function Lex(s: string): Option<seq<Token>> {
    LexFrom(Skip(s), BRACKET_LIMIT)
  }
}
