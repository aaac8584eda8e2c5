/** JavaScript's `parseFloat` on the decimal literals a balance field holds:
    leading white space is skipped, an optional sign is read, then the
    longest prefix of the form `digits[.digits][e[sign]digits]`; whatever
    follows is ignored, and a string with no such prefix parses to NaN
    (`None`). */
module JsNumbers {
  import opened Results

  predicate IsDigit(c: char) {
    '0' <= c <= '9'
  }

  /** JavaScript's StrWhiteSpaceChar: tab, vertical tab, form feed, the
      byte-order mark, the Unicode space separators (category Zs) and the
      line terminators. */
  predicate IsJsSpace(c: char) {
    var n := c as int;
    n == 9 || n == 10 || n == 11 || n == 12 || n == 13 || n == 32
    || n == 0xA0 || n == 0x1680 || (0x2000 <= n <= 0x200A) || n == 0x202F || n == 0x205F
    || n == 0x3000 || n == 0x2028 || n == 0x2029 || n == 0xFEFF
  }

  /** The length of the run of white space `s` starts with. */
  function SpaceRun(s: string): (n: nat)
    ensures n <= |s|
    ensures forall i :: 0 <= i < n ==> IsJsSpace(s[i])
    ensures n < |s| ==> !IsJsSpace(s[n])
  {
    if |s| > 0 && IsJsSpace(s[0]) then 1 + SpaceRun(s[1..]) else 0
  }

  /** `s` without its leading white space. */
  function TrimStart(s: string): string {
    s[SpaceRun(s)..]
  }

  /** The length of the run of digits `s` starts with. */
  function DigitRun(s: string): (n: nat)
    ensures n <= |s|
    ensures forall i :: 0 <= i < n ==> IsDigit(s[i])
    ensures n < |s| ==> !IsDigit(s[n])
  {
    if |s| > 0 && IsDigit(s[0]) then 1 + DigitRun(s[1..]) else 0
  }

  predicate AllDigits(s: string) {
    forall i :: 0 <= i < |s| ==> IsDigit(s[i])
  }

  /** The number a string of decimal digits denotes. */
  function DigitsValue(s: string): nat
    requires AllDigits(s)
  {
    if |s| == 0 then 0 else 10 * DigitsValue(s[..|s| - 1]) + ((s[|s| - 1] as int) - ('0' as int))
  }

  function Pow10(n: nat): (p: nat)
    ensures p >= 1
  {
    if n == 0 then 1 else 10 * Pow10(n - 1)
  }

  /** After white space and an optional sign, `s` starts with a digit or
      with a point followed by a digit. */
  predicate HasNumericPrefix(s: string) {
    var t := TrimStart(s);
    var u := Unsigned(t);
    (|u| > 0 && IsDigit(u[0])) || (|u| > 1 && u[0] == '.' && IsDigit(u[1]))
  }

  /** `t` without its leading sign character, if it has one. */
  function Unsigned(t: string): (u: string)
    ensures |u| <= |t|
  {
    if |t| > 0 && (t[0] == '+' || t[0] == '-') then t[1..] else t
  }

  /** The digits after the decimal point, when the text after the integer
      digits starts with one. */
  function FractionDigits(rest: string): (f: string)
    ensures AllDigits(f)
    ensures |f| > 0 <==> |rest| > 1 && rest[0] == '.' && IsDigit(rest[1])
    ensures |rest| > 0 && rest[0] == '.' ==> |f| < |rest|
  {
    if |rest| > 0 && rest[0] == '.' then rest[1..][..DigitRun(rest[1..])] else ""
  }

  /** The value of the literal `integer.fraction`. */
  function Magnitude(integer: string, fraction: string): (m: real)
    requires AllDigits(integer) && AllDigits(fraction)
    ensures fraction == "" ==> m == DigitsValue(integer) as real
  {
    DigitsValue(integer) as real + DigitsValue(fraction) as real / Pow10(|fraction|) as real
  }

  /** The exponent `e[sign]digits` that `rest` starts with, if it starts
      with a complete one. */
  function Exponent(rest: string): (e: Option<int>)
    ensures e.Some? ==> |rest| > 1 && (rest[0] == 'e' || rest[0] == 'E')
    ensures |rest| > 1 && (rest[0] == 'e' || rest[0] == 'E') && IsDigit(rest[1]) ==> e.Some? && e.value >= 0
  {
    if |rest| > 0 && (rest[0] == 'e' || rest[0] == 'E') then
      var v := rest[1..];
      var w := Unsigned(v);
      var n := DigitRun(w);
      if n == 0 then None
      else
        var k := DigitsValue(w[..n]) as int;
        Some(if |v| > 0 && v[0] == '-' then -k else k)
    else None
  }

  /** `m` times ten to the power `e`. */
  function Scale(m: real, e: int): real {
    if e >= 0 then m * Pow10(e) as real else m / Pow10(-e) as real
  }

  /** The value of the longest number `u` starts with, once white space and
      sign are gone. */
  function UnsignedValue(u: string): (r: Option<real>)
    ensures r.Some? <==> (|u| > 0 && IsDigit(u[0])) || (|u| > 1 && u[0] == '.' && IsDigit(u[1]))
  {
    var n := DigitRun(u);
    var fraction := FractionDigits(u[n..]);
    if n == 0 && |fraction| == 0 then None
    else
      // the digits, then the point and the fraction digits if a point follows
      var mantissaEnd := if n < |u| && u[n] == '.' then n + 1 + |fraction| else n;
      var magnitude := Magnitude(u[..n], fraction);
      var value := match Exponent(u[mantissaEnd..])
                   case Some(e) => Scale(magnitude, e)
                   case None => magnitude;
      Some(value)
  }

  function ParseFloat(s: string): (r: Option<real>)
    ensures r.Some? <==> HasNumericPrefix(s)
  {
    var t := TrimStart(s);
    match UnsignedValue(Unsigned(t))
    case None => None
    case Some(value) => Some(if |t| > 0 && t[0] == '-' then -value else value)
  }

  lemma DigitIsNotSpace(c: char)
    requires IsDigit(c)
    ensures !IsJsSpace(c)
  {
  }

  /** The digit run of `s` ends exactly where its first non-digit is. */
  lemma DigitRunIs(s: string, k: nat)
    requires k <= |s|
    requires forall i :: 0 <= i < k ==> IsDigit(s[i])
    requires k < |s| ==> !IsDigit(s[k])
    ensures DigitRun(s) == k
  {
  }

  /** A run of digits followed by text that cannot continue a number parses
      to the value of the digits: "12" parses to 12 and "12abc" like "12". */
  lemma ParseFloatOfDigits(digits: string, suffix: string)
    requires |digits| > 0 && AllDigits(digits)
    requires |suffix| == 0 || (!IsDigit(suffix[0]) && suffix[0] != '.' && suffix[0] != 'e' && suffix[0] != 'E')
    ensures ParseFloat(digits + suffix) == Some(DigitsValue(digits) as real)
  {
    var s := digits + suffix;
    assert s[0] == digits[0];
    DigitIsNotSpace(s[0]);
    assert TrimStart(s) == s;
    assert Unsigned(s) == s;
    UnsignedValueOfDigits(digits, suffix);
  }

  lemma UnsignedValueOfDigits(digits: string, suffix: string)
    requires |digits| > 0 && AllDigits(digits)
    requires |suffix| == 0 || (!IsDigit(suffix[0]) && suffix[0] != '.' && suffix[0] != 'e' && suffix[0] != 'E')
    ensures UnsignedValue(digits + suffix) == Some(DigitsValue(digits) as real)
  {
    var s := digits + suffix;
    assert forall i :: 0 <= i < |digits| ==> s[i] == digits[i];
    DigitRunIs(s, |digits|);
    assert s[..|digits|] == digits && s[|digits|..] == suffix;
    assert FractionDigits(suffix) == "";
    assert Exponent(suffix).None?;
  }

  /** A decimal literal `digits.frac` followed by text that cannot continue
      it parses to its value: "1234.56" to 1234.56, ".5x" to 0.5. */
  lemma ParseFloatOfDecimal(digits: string, frac: string, suffix: string)
    requires AllDigits(digits) && |frac| > 0 && AllDigits(frac)
    requires |suffix| == 0 || (!IsDigit(suffix[0]) && suffix[0] != 'e' && suffix[0] != 'E')
    ensures ParseFloat(digits + "." + frac + suffix)
            == Some(Magnitude(digits, frac))
  {
    var s := digits + "." + frac + suffix;
    assert s[0] == if |digits| > 0 then digits[0] else '.';
    UnsignedValueOfDecimal(digits, frac, suffix);
    ParseFloatOfBare(s, Magnitude(digits, frac));
  }

  /** Text starting with a digit or a point parses to its unsigned value. */
  lemma ParseFloatOfBare(s: string, v: real)
    requires |s| > 0 && (IsDigit(s[0]) || s[0] == '.') && UnsignedValue(s) == Some(v)
    ensures ParseFloat(s) == Some(v)
  {
    NumericStartIsBare(s);
  }

  /** Text starting with a digit or a point has no white space or sign to skip. */
  lemma NumericStartIsBare(s: string)
    requires |s| > 0 && (IsDigit(s[0]) || s[0] == '.')
    ensures TrimStart(s) == s && Unsigned(s) == s
  {
  }

  lemma UnsignedValueOfDecimal(digits: string, frac: string, suffix: string)
    requires AllDigits(digits) && |frac| > 0 && AllDigits(frac)
    requires |suffix| == 0 || (!IsDigit(suffix[0]) && suffix[0] != 'e' && suffix[0] != 'E')
    ensures UnsignedValue(digits + "." + frac + suffix) == Some(Magnitude(digits, frac))
  {
    var s := digits + "." + frac + suffix;
    var n := |digits|;
    assert forall i :: 0 <= i < n ==> s[i] == digits[i];
    assert s[n] == '.';
    DigitRunIs(s, n);
    assert s[..n] == digits;
    var rest := s[n..];
    assert rest[1..] == frac + suffix;
    assert forall i :: 0 <= i < |frac| ==> rest[1..][i] == frac[i];
    DigitRunIs(rest[1..], |frac|);
    assert rest[1..][..|frac|] == frac;
    assert FractionDigits(rest) == frac;
    assert s[n + 1 + |frac|..] == suffix;
    assert Exponent(suffix).None?;
  }

  /** An ideographic space (U+3000) before a number is skipped like any
      other white space. */
  lemma ParseFloatSkipsIdeographicSpace()
    ensures ParseFloat("\U{3000}5") == Some(5.0)
  {
    var s := "\U{3000}5";
    assert SpaceRun(s[1..]) == 0;
    assert TrimStart(s) == "5" && Unsigned("5") == "5";
    assert "5" + "" == "5";
    UnsignedValueOfDigits("5", "");
    assert DigitsValue("5") == 5;
  }

  /** An exponent scales the digits before it. */
  lemma ParseFloatReadsExponent()
    ensures ParseFloat("12e3") == Some(12000.0)
  {
    var u := "12e3";
    assert TrimStart(u) == u && Unsigned(u) == u;
    assert DigitRun(u[2..]) == 0;
    assert DigitRun(u) == 2;
    assert u[..2] == "12" && u[2..] == "e3";
    assert DigitsValue("12") == 12;
    assert Exponent("e3") == Some(3);
    assert Pow10(3) == 1000;
    assert Magnitude("12", "") == 12.0;
    assert Scale(12.0, 3) == 12000.0;
  }

  /** The decimal digit for `d`. */
  function DigitChar(d: nat): (c: char)
    requires d < 10
    ensures IsDigit(c) && (c as int) - ('0' as int) == d
  {
    (('0' as int) + d) as char
  }

  /** A natural number in a template literal (`${n}`): its decimal digits. */
  function NatToString(n: nat): (s: string)
    ensures |s| > 0 && AllDigits(s)
    decreases n
  {
    if n < 10 then [DigitChar(n)] else NatToString(n / 10) + [DigitChar(n % 10)]
  }

  /** Printing a number and reading its digits back gives the number. */
  lemma {:induction false} NatToStringRoundTrip(n: nat)
    ensures DigitsValue(NatToString(n)) == n
    decreases n
  {
    var s := NatToString(n);
    if n >= 10 {
      assert s[..|s| - 1] == NatToString(n / 10);
      NatToStringRoundTrip(n / 10);
    }
  }

  /** `parseFloat` reads a printed natural number back exactly. */
  lemma ParseFloatOfNatToString(n: nat)
    ensures ParseFloat(NatToString(n)) == Some(n as real)
  {
    NatToStringRoundTrip(n);
    assert NatToString(n) + "" == NatToString(n);
    ParseFloatOfDigits(NatToString(n), "");
  }
}
