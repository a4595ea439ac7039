/**
 * Number text as the dashboard reads and writes it: the prefix grammar of JavaScript's
 * `parseFloat` (sign, digits, fraction, exponent) and the decimal rendering of an integer.
 */
module Numbers {
  import opened Options

  predicate IsDigit(c: char)
  {
    '0' <= c <= '9'
  }

  predicate AllDigits(s: string)
  {
    forall k :: 0 <= k < |s| ==> IsDigit(s[k])
  }

  function DigitValue(c: char): nat
    requires IsDigit(c)
  {
    c as int - '0' as int
  }

  function DigitChar(d: nat): (c: char)
    requires d < 10
    ensures IsDigit(c) && DigitValue(c) == d
  {
    ('0' as int + d) as char
  }

  /** Length of the run of decimal digits that starts `s`. */
  function DigitRun(s: string): (n: nat)
    ensures n <= |s| && AllDigits(s[..n])
    ensures n < |s| ==> !IsDigit(s[n])
  {
    if |s| > 0 && IsDigit(s[0]) then
      var n := 1 + DigitRun(s[1..]);
      assert forall k :: 1 <= k < n ==> s[..n][k] == s[1..][..n - 1][k - 1];
      n
    else 0
  }

  /** The natural number a string of decimal digits denotes, most significant digit first. */
  function DigitsValue(d: string): nat
    requires AllDigits(d)
  {
    if |d| == 0 then 0 else DigitsValue(d[..|d| - 1]) * 10 + DigitValue(d[|d| - 1])
  }

  function Pow10(n: nat): (r: nat)
    ensures r >= 1
  {
    if n == 0 then 1 else 10 * Pow10(n - 1)
  }

  /** `m` times ten to the power `e`. */
  function Scale(m: real, e: int): real
  {
    if e >= 0 then m * Pow10(e) as real else m / Pow10(-e) as real
  }

  /** The exponent an `e` or `E` suffix adds; a suffix without digits is not part of the number. */
  function ExponentOf(s: string): int
  {
    if |s| > 0 && (s[0] == 'e' || s[0] == 'E') then SignedDigitsValue(s[1..]) else 0
  }

  /** The value of an optional sign followed by the leading run of digits; 0 when there are none. */
  function SignedDigitsValue(t: string): int
  {
    var u := if |t| > 0 && (t[0] == '-' || t[0] == '+') then t[1..] else t;
    var n := DigitRun(u);
    if |t| > 0 && t[0] == '-' then 0 - DigitsValue(u[..n]) else DigitsValue(u[..n])
  }

  /**
   * `parseFloat(s)` on text with no leading whitespace: the longest prefix of the form
   * [+-] digits [. digits] [(e|E) [+-] digits] or [+-] . digits [...]; `None` stands for NaN.
   */
  function ParseFloat(s: string): Option<real>
  {
    if |s| > 0 && s[0] == '-' then
      match ParseUnsigned(s[1..])
      case None => None
      case Some(magnitude) => Some(-magnitude)
    else if |s| > 0 && s[0] == '+' then ParseUnsigned(s[1..])
    else ParseUnsigned(s)
  }

  /** The unsigned part of `parseFloat`: digits, an optional fraction and an optional exponent. */
  function ParseUnsigned(body: string): Option<real>
  {
    var whole := DigitRun(body);
    var afterWhole := body[whole..];
    var hasPoint := |afterWhole| > 0 && afterWhole[0] == '.';
    var fractionText := if hasPoint then afterWhole[1..][..DigitRun(afterWhole[1..])] else [];
    var afterMantissa := if hasPoint then afterWhole[1 + |fractionText|..] else afterWhole;
    if whole == 0 && |fractionText| == 0 then None
    else
      var mantissa := DigitsValue(body[..whole]) as real
                      + DigitsValue(fractionText) as real / Pow10(|fractionText|) as real;
      Some(Scale(mantissa, ExponentOf(afterMantissa)))
  }

  /** A number is only read when the text holds at least one digit. */
  lemma ParseFloatNeedsDigit(s: string)
    requires ParseFloat(s).Some?
    ensures exists k :: 0 <= k < |s| && IsDigit(s[k])
  {
    var body := if |s| > 0 && (s[0] == '-' || s[0] == '+') then s[1..] else s;
    assert ParseUnsigned(body).Some?;
    var whole := DigitRun(body);
    var off := |s| - |body|;
    if whole > 0 {
      assert IsDigit(s[off]) by { assert body[..whole][0] == body[0] == s[off]; }
    } else {
      var afterWhole := body[whole..];
      var f := DigitRun(afterWhole[1..]);
      assert f > 0;
      assert afterWhole[1..][..f][0] == s[off + 1];
    }
  }

  /** Decimal text of a natural number, as `String(n)` prints it below 10^21. */
  function NatText(n: nat): (r: string)
    ensures |r| > 0 && AllDigits(r)
    ensures DigitsValue(r) == n
    ensures r[0] == '0' ==> n == 0
  {
    if n < 10 then [DigitChar(n)]
    else
      var r := NatText(n / 10) + [DigitChar(n % 10)];
      assert r[..|r| - 1] == NatText(n / 10);
      r
  }

  /** Decimal text of an integer, with a leading minus sign when it is negative. */
  function IntText(i: int): (r: string)
    ensures |r| > 0
  {
    if i < 0 then "-" + NatText(-i) else NatText(i)
  }

  /** A string of digits is one run of digits. */
  lemma DigitRunOfDigits(t: string)
    requires AllDigits(t)
    ensures DigitRun(t) == |t|
  {
  }

  /** Digits with nothing after them read as the number they denote. */
  lemma ParseUnsignedOfDigits(t: string)
    requires |t| > 0 && AllDigits(t)
    ensures ParseUnsigned(t) == Some(DigitsValue(t) as real)
  {
    DigitRunOfDigits(t);
    assert t[..|t|] == t;
    var afterWhole := t[|t|..];
    assert afterWhole == [];
    var mantissa := DigitsValue(t) as real + DigitsValue([]) as real / Pow10(0) as real;
    assert mantissa == DigitsValue(t) as real;
    assert ExponentOf([]) == 0;
    assert Scale(mantissa, 0) == DigitsValue(t) as real;
  }

  /** Unsigned digits with nothing after them read as the number they denote. */
  lemma ParseFloatOfDigits(t: string)
    requires |t| > 0 && AllDigits(t)
    ensures ParseFloat(t) == Some(DigitsValue(t) as real)
  {
    assert IsDigit(t[0]);
    ParseUnsignedOfDigits(t);
  }

  /** A minus sign and digits with nothing after them read as the negated number. */
  lemma ParseFloatOfNegatedDigits(t: string)
    requires |t| > 0 && AllDigits(t)
    ensures ParseFloat("-" + t) == Some(-(DigitsValue(t) as real))
  {
    var s := "-" + t;
    assert s[0] == '-' && s[1..] == t;
    ParseUnsignedOfDigits(t);
  }

  /** Reading back the decimal text of an integer gives that integer. */
  lemma ParseFloatIntText(i: int)
    ensures ParseFloat(IntText(i)) == Some(i as real)
  {
    if i < 0 {
      ParseFloatOfNegatedDigits(NatText(-i));
    } else {
      ParseFloatOfDigits(NatText(i));
    }
  }

  /** Worked case: an exponent scales the mantissa, and a trailing stray character is ignored. */
  lemma ParseFloatReadsExponent()
    ensures ParseFloat("12.5e1x") == Some(125.0)
  {
    var s := "12.5e1x";
    assert DigitRun(s) == 2;
    assert s[..2] == "12" && s[2..] == ".5e1x";
    assert ".5e1x"[1..] == "5e1x";
    assert DigitRun("5e1x") == 1;
    assert "5e1x"[..1] == "5";
    assert ".5e1x"[2..] == "e1x";
    assert "e1x"[1..] == "1x";
    assert DigitRun("1x") == 1;
    assert "1x"[..1] == "1";
    assert DigitsValue("1") == 1 by { assert "1"[..0] == ""; }
    assert ExponentOf("e1x") == 1;
    assert DigitsValue("12") == 12 by { assert "12"[..1] == "1"; }
    assert DigitsValue("5") == 5;
  }

  /** Worked cases: a number may start at its decimal point, and text without digits is NaN. */
  lemma ParseFloatFractionAndNaN()
    ensures ParseFloat("-.5") == Some(-0.5)
    ensures ParseFloat("abc") == None
    ensures ParseFloat("") == None
  {
    var t := "-.5";
    assert t[1..] == ".5";
    assert DigitRun(".5") == 0;
    assert ".5"[1..] == "5";
    assert DigitRun("5") == 1;
    assert "5"[..1] == "5";
    assert DigitsValue("5") == 5;
    assert DigitRun("abc") == 0;
  }
}
