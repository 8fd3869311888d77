/** Decimal rendering of integers and JavaScript's `parseInt`, as far as the
    browser script and the relay use them: the session counter is stored as
    a decimal string and read back with `parseInt`, and PHP renders `time()`
    and `mt_rand()` in decimal when it mints a client id. */
module Decimal {

  predicate IsDigit(c: char) { '0' <= c <= '9' }

  predicate AllDigits(s: string) { forall i :: 0 <= i < |s| ==> IsDigit(s[i]) }

  function DigitChar(d: int): (c: char)
    requires 0 <= d < 10
    ensures IsDigit(c) && c as int - '0' as int == d
  {
    ('0' as int + d) as char
  }

  /** The canonical decimal numeral of `n`: digits only, no leading zero. */
  function NatToString(n: nat): (s: string)
    ensures |s| >= 1 && AllDigits(s)
    ensures (s[0] == '0') == (n == 0)
    ensures n == 0 ==> s == "0"
    decreases n
  {
    if n < 10 then [DigitChar(n)] else NatToString(n / 10) + [DigitChar(n % 10)]
  }

  /** The number a string of decimal digits denotes (most significant first). */
  function DigitsValue(s: string): nat
    requires AllDigits(s)
  {
    if s == [] then 0 else 10 * DigitsValue(s[..|s| - 1]) + (s[|s| - 1] as int - '0' as int)
  }

  lemma {:induction false} DigitsValueOfNatToString(n: nat)
    ensures DigitsValue(NatToString(n)) == n
    decreases n
  {
    if n >= 10 {
      DigitsValueOfNatToString(n / 10);
      var s := NatToString(n);
      assert s[..|s| - 1] == NatToString(n / 10);
    }
  }

  /** The decimal rendering of an integer, as JavaScript's `String(n)` and
      PHP's integer-to-string conversion both produce it. */
  function IntToString(i: int): (s: string)
    ensures |s| >= 1
    ensures i >= 0 ==> s == NatToString(i)
    ensures i < 0 ==> s == "-" + NatToString(-i)
  {
    if i < 0 then "-" + NatToString(-i) else NatToString(i)
  }

  /** A JavaScript number, restricted to the integers and NaN. */
  datatype JsNumber = Num(n: int) | NaN

  /** `String(x)` of a JavaScript number (the value `setItem` stores). */
  function NumberToString(x: JsNumber): string {
    match x
    case Num(n) => IntToString(n)
    case NaN => "NaN"
  }

  /** `x + 1` on a JavaScript number. */
  function Increment(x: JsNumber): JsNumber {
    match x
    case Num(n) => Num(n + 1)
    case NaN => NaN
  }

  /** The characters `parseInt` skips before the number: ECMAScript's
      WhiteSpace and LineTerminator code points. */
  predicate IsJsWhitespace(c: char) {
    c == '\t' || c == '\n' || c == '\U{000B}' || c == '\U{000C}' || c == '\r' || c == ' '
    || c == '\U{00A0}' || c == '\U{1680}' || ('\U{2000}' <= c <= '\U{200A}')
    || c == '\U{2028}' || c == '\U{2029}' || c == '\U{202F}' || c == '\U{205F}'
    || c == '\U{3000}' || c == '\U{FEFF}'
  }

  function TrimStart(s: string): (t: string)
    ensures |t| <= |s| && t == s[|s| - |t|..]
    ensures t != [] ==> !IsJsWhitespace(t[0])
  {
    if s != [] && IsJsWhitespace(s[0]) then TrimStart(s[1..]) else s
  }

  /** The longest prefix of `s` made of decimal digits. */
  function DigitPrefix(s: string): (p: string)
    ensures |p| <= |s| && p == s[..|p|] && AllDigits(p)
    ensures |p| < |s| ==> !IsDigit(s[|p|])
  {
    if s == [] || !IsDigit(s[0]) then [] else [s[0]] + DigitPrefix(s[1..])
  }

  predicate IsHexDigit(c: char) { IsDigit(c) || ('a' <= c <= 'f') || ('A' <= c <= 'F') }

  function HexDigitValue(c: char): (v: int)
    requires IsHexDigit(c)
    ensures 0 <= v < 16
  {
    if IsDigit(c) then c as int - '0' as int
    else if 'a' <= c <= 'f' then c as int - 'a' as int + 10
    else c as int - 'A' as int + 10
  }

  /** The longest prefix of `s` made of hexadecimal digits. */
  function HexPrefix(s: string): (p: string)
    ensures |p| <= |s| && p == s[..|p|]
    ensures forall i :: 0 <= i < |p| ==> IsHexDigit(p[i])
  {
    if s == [] || !IsHexDigit(s[0]) then [] else [s[0]] + HexPrefix(s[1..])
  }

  function HexValue(s: string): nat
    requires forall i :: 0 <= i < |s| ==> IsHexDigit(s[i])
  {
    if s == [] then 0 else 16 * HexValue(s[..|s| - 1]) + HexDigitValue(s[|s| - 1])
  }

  /** The digits after the sign: a `0x`/`0X` prefix selects base 16, and
      the longest run of digits of the base is the number; no digit at all
      gives NaN. */
  function ParseUnsigned(u: string): JsNumber {
    if |u| >= 2 && u[0] == '0' && (u[1] == 'x' || u[1] == 'X') then
      var h := HexPrefix(u[2..]);
      if h == [] then NaN else Num(HexValue(h))
    else
      var d := DigitPrefix(u);
      if d == [] then NaN else Num(DigitsValue(d))
  }

  function Negate(x: JsNumber): JsNumber {
    match x
    case Num(n) => Num(-n)
    case NaN => NaN
  }

  /** JavaScript's `parseInt(s)` with no radix: skip leading white space,
      take an optional sign, then read the digits. */
  function ParseInt(s: string): JsNumber {
    var t := TrimStart(s);
    if t != [] && t[0] == '-' then Negate(ParseUnsigned(t[1..]))
    else if t != [] && t[0] == '+' then ParseUnsigned(t[1..])
    else ParseUnsigned(t)
  }

  lemma DigitPrefixOfDigits(s: string)
    requires AllDigits(s)
    ensures DigitPrefix(s) == s
  {
  }

  lemma ParseUnsignedOfNatToString(n: nat)
    ensures ParseUnsigned(NatToString(n)) == Num(n)
  {
    var digits := NatToString(n);
    DigitsValueOfNatToString(n);
    DigitPrefixOfDigits(digits);
  }

  lemma TrimStartNoWhitespace(s: string)
    requires s != [] && !IsJsWhitespace(s[0])
    ensures TrimStart(s) == s
  {
  }

  /** Reading back what was stored: `parseInt(String(i)) == i`. */
  lemma ParseIntOfIntToString(i: int)
    ensures ParseInt(IntToString(i)) == Num(i)
  {
    if i < 0 {
      var digits := NatToString(-i);
      var s := "-" + digits;
      TrimStartNoWhitespace(s);
      assert s[1..] == digits;
      ParseUnsignedOfNatToString(-i);
      assert ParseInt(s) == Negate(ParseUnsigned(digits));
    } else {
      var s := NatToString(i);
      assert IsDigit(s[0]);
      TrimStartNoWhitespace(s);
      ParseUnsignedOfNatToString(i);
      assert ParseInt(s) == ParseUnsigned(s);
    }
  }

  lemma ParseIntOfNaN()
    ensures ParseInt(NumberToString(NaN)) == NaN
  {
    TrimStartNoWhitespace("NaN");
  }

  /** Storing a JavaScript number and parsing it back gives the number. */
  lemma ParseIntOfNumberToString(x: JsNumber)
    ensures ParseInt(NumberToString(x)) == x
  {
    match x
    case Num(n) => ParseIntOfIntToString(n);
    case NaN => ParseIntOfNaN();
  }
}
