/** The parts of PHP 8's value semantics the relay endpoint relies on:
    conversion to bool, numeric strings, and loose comparison `==`. */
module Php {
  import opened Values
  import opened Decimal

  /** PHP's conversion to bool: `null`, `false`, `0`, `""` and `"0"` are
      false, every other scalar is true. */
  predicate Truthy(v: Value) {
    match v
    case Null => false
    case Bool(b) => b
    case Int(i) => i != 0
    case Str(s) => s != "" && s != "0"
  }

  /** The white space PHP allows around a numeric string. */
  predicate IsPhpWhitespace(c: char) {
    c == ' ' || c == '\t' || c == '\n' || c == '\r' || c == '\U{000B}' || c == '\U{000C}'
  }

  function TrimLeft(s: string): (t: string)
    ensures |t| <= |s|
  {
    if s != [] && IsPhpWhitespace(s[0]) then TrimLeft(s[1..]) else s
  }

  function TrimRight(s: string): (t: string)
    ensures |t| <= |s|
  {
    if s != [] && IsPhpWhitespace(s[|s| - 1]) then TrimRight(s[..|s| - 1]) else s
  }

  /** The number `(-1 if negative) * mantissa * 10^exponent`. */
  datatype Numeric = Numeric(negative: bool, mantissa: nat, exponent: int)

  lemma AllDigitsConcat(a: string, b: string)
    requires AllDigits(a) && AllDigits(b)
    ensures AllDigits(a + b)
  {
    assert forall i :: 0 <= i < |a + b| ==> (a + b)[i] == if i < |a| then a[i] else b[i - |a|];
  }

  /** The optional exponent part `[eE][+-]?[0-9]+` after the mantissa;
      `None` when `e` is not empty and is not such a part. */
  function ExponentPart(e: string): Option<int> {
    if e == [] then Some(0)
    else if e[0] != 'e' && e[0] != 'E' then None
    else
      var negative := |e| > 1 && e[1] == '-';
      var digits := if |e| > 1 && (e[1] == '-' || e[1] == '+') then e[2..] else e[1..];
      if digits == [] || !AllDigits(digits) then None
      else
        var magnitude: int := DigitsValue(digits);
        Some(if negative then -magnitude else magnitude)
  }

  /** An unsigned PHP number literal: `LNUM`, `DNUM` (`1.`, `.5`, `1.5`) or
      either of them followed by an exponent. */
  function UnsignedNumber(u: string, negative: bool): Option<Numeric> {
    var whole := DigitPrefix(u);
    var rest := u[|whole|..];
    var hasDot := rest != [] && rest[0] == '.';
    var fraction := if hasDot then DigitPrefix(rest[1..]) else [];
    var tail := if hasDot then rest[1 + |fraction|..] else rest;
    if whole == [] && fraction == [] then None
    else
      match ExponentPart(tail)
      case None => None
      case Some(e) =>
        AllDigitsConcat(whole, fraction);
        Some(Numeric(negative, DigitsValue(whole + fraction), e - |fraction|))
  }

  /** The value of a PHP 8 numeric string (optional surrounding white
      space, an optional sign, a number literal), or `None` when the string
      is not numeric. */
  function NumericValue(s: string): Option<Numeric> {
    var t := TrimRight(TrimLeft(s));
    if t != [] && t[0] == '-' then UnsignedNumber(t[1..], true)
    else if t != [] && t[0] == '+' then UnsignedNumber(t[1..], false)
    else UnsignedNumber(t, false)
  }

  function Pow10(n: nat): (p: nat)
    ensures p >= 1
  {
    if n == 0 then 1 else 10 * Pow10(n - 1)
  }

  /** Whether two numbers are equal (rational equality; PHP's rounding to
      floating point is not modelled). */
  predicate SameNumber(x: Numeric, y: Numeric) {
    var e := if x.exponent <= y.exponent then x.exponent else y.exponent;
    (x.mantissa == 0 && y.mantissa == 0)
    || (x.negative == y.negative
        && x.mantissa * Pow10(x.exponent - e) == y.mantissa * Pow10(y.exponent - e))
  }

  function IntNumeric(i: int): Numeric {
    Numeric(i < 0, if i < 0 then -i else i, 0)
  }

  /** PHP 8's `int == string`: numerically when the string is numeric,
      otherwise as strings. */
  predicate IntEqualsString(i: int, s: string) {
    match NumericValue(s)
    case Some(x) => SameNumber(IntNumeric(i), x)
    case None => IntToString(i) == s
  }

  /** PHP 8's loose comparison `a == b` on scalars. */
  predicate LooseEquals(a: Value, b: Value) {
    if a.Bool? || b.Bool? then Truthy(a) == Truthy(b)
    else
      match (a, b)
      case (Null, Null) => true
      case (Null, Str(t)) => t == ""
      case (Str(s), Null) => s == ""
      case (Null, Int(j)) => j == 0
      case (Int(i), Null) => i == 0
      case (Int(i), Int(j)) => i == j
      case (Int(i), Str(t)) => IntEqualsString(i, t)
      case (Str(s), Int(j)) => IntEqualsString(j, s)
      case (Str(s), Str(t)) =>
        match (NumericValue(s), NumericValue(t))
        case (Some(x), Some(y)) => SameNumber(x, y)
        case _ => s == t
  }

  /** `$x == true` and `$x != true` test exactly the truthiness of `$x`. */
  lemma LooseEqualsTrueIsTruthy(v: Value)
    ensures LooseEquals(v, Bool(true)) <==> Truthy(v)
  {
  }

  lemma NumericValueOfOne()
    ensures NumericValue("1") == Some(Numeric(false, 1, 0))
  {
    assert TrimLeft("1") == "1";
    assert TrimRight("1") == "1";
    assert DigitPrefix("1") == "1";
  }

  lemma NumericValueOfZero()
    ensures NumericValue("0") == Some(Numeric(false, 0, 0))
  {
    assert TrimLeft("0") == "0";
    assert TrimRight("0") == "0";
    assert DigitPrefix("0") == "0";
  }

  /** A flag that compares equal to `'1'` is truthy: `'1'`, `1`, `true`,
      and numeric strings worth one such as `'01'` or `' 1'`. */
  lemma EqualsOneIsTruthy(v: Value)
    ensures LooseEquals(v, Str("1")) ==> Truthy(v)
  {
    NumericValueOfOne();
    NumericValueOfZero();
    if v.Int? {
      assert LooseEquals(v, Str("1")) ==> v.i == 1;
    }
  }

  /** The comparison with `'1'` follows PHP 8: numeric strings compare as
      numbers, everything else as strings or booleans. */
  lemma EqualsOneExamples()
    ensures LooseEquals(Str("1"), Str("1")) && LooseEquals(Int(1), Str("1"))
    ensures LooseEquals(Bool(true), Str("1")) && LooseEquals(Str("01"), Str("1"))
    ensures !LooseEquals(Null, Str("1")) && !LooseEquals(Str(""), Str("1"))
    ensures !LooseEquals(Int(0), Str("1")) && !LooseEquals(Str("on"), Str("1"))
  {
    NumericValueOfOne();
    NumericValueOfZero();
    assert TrimLeft("01") == "01" && TrimRight("01") == "01";
    assert DigitPrefix("01") == "01";
    assert DigitsValue("01") == 1;
    assert "01"[2..] == [] && "01" + [] == "01";
    assert UnsignedNumber("01", false) == Some(Numeric(false, 1, 0));
    assert TrimLeft("on") == "on" && TrimRight("on") == "on";
    assert DigitPrefix("on") == [];
    assert TrimLeft("") == "";
  }
}
