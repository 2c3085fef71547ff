/** The numbers the solver works with: values, the five arithmetic operations
    of the reducer, and the decimal parsing that stands for std::stof. */
module Numbers {
  import opened Results

  /** A value on the operand stack. The source stores single-precision floats;
      the model uses exact reals, plus the one non-finite value the evaluator
      can actually produce: fmod with a zero divisor yields NaN, and NaN then
      spreads through every later operation. */
  datatype Num = Real(v: real) | NaN

  function Abs(x: real): real { if x < 0.0 then -x else x }

  predicate IsWhole(x: real) { x.Floor as real == x }

  function Add(a: Num, b: Num): (r: Num)
    ensures r.Real? <==> a.Real? && b.Real?
    ensures r.Real? ==> r.v - b.v == a.v
  {
    if a.Real? && b.Real? then Real(a.v + b.v) else NaN
  }

  function Sub(a: Num, b: Num): (r: Num)
    ensures r.Real? <==> a.Real? && b.Real?
    ensures r.Real? ==> r.v + b.v == a.v
  {
    if a.Real? && b.Real? then Real(a.v - b.v) else NaN
  }

  function Mul(a: Num, b: Num): (r: Num)
    ensures r.Real? <==> a.Real? && b.Real?
    ensures r.Real? && b.v != 0.0 ==> r.v / b.v == a.v
  {
    if a.Real? && b.Real? then Real(a.v * b.v) else NaN
  }

  /** A zero right operand, which the contract of Mul leaves open, gives a
      zero product (or NaN from a NaN left operand). */
  lemma MulByZero(a: Num, b: Num)
    requires b == Real(0.0)
    ensures Mul(a, b) == (if a.Real? then Real(0.0) else NaN)
  {
  }

  /** Division; the caller has already rejected a zero divisor. */
  function Div(a: Num, b: Num): (r: Num)
    requires b != Real(0.0)
    ensures r.Real? <==> a.Real? && b.Real?
    ensures r.Real? ==> r.v * b.v == a.v
  {
    if a.Real? && b.Real? then Real(a.v / b.v) else NaN
  }

  /** The integer part of x, rounding toward zero. */
  function Trunc(x: real): (t: int)
    ensures x >= 0.0 ==> 0.0 <= x - t as real < 1.0
    ensures x < 0.0 ==> -1.0 < x - t as real <= 0.0
  {
    if x >= 0.0 then x.Floor else -((-x).Floor)
  }

  /** C's fmod: the remainder of a / b whose quotient is rounded toward zero.
      A zero divisor gives NaN (the source does not check it). */
  function Fmod(a: Num, b: Num): (r: Num)
    ensures r.Real? <==> a.Real? && b.Real? && b.v != 0.0
  {
    if a.Real? && b.Real? && b.v != 0.0 then Real(a.v - b.v * Trunc(a.v / b.v) as real) else NaN
  }

  /** What C promises of fmod(a, b) for b != 0: a - r is a whole multiple of b,
      r has the sign of a (or is zero), and r is smaller than b in magnitude. */
  lemma FmodRemainder(a: real, b: real)
    requires b != 0.0
    ensures Fmod(Real(a), Real(b)).Real?
    ensures var r := Fmod(Real(a), Real(b)).v;
      IsWhole((a - r) / b) && Abs(r) < Abs(b) && r * a >= 0.0
  {
    var q := a / b;
    var t := Trunc(q);
    var f := q - t as real;
    var r := a - b * t as real;
    assert r == b * f by { assert a == b * q; }
    assert (a - r) / b == t as real;
    assert Fmod(Real(a), Real(b)).v == r;
    assert IsWhole(t as real);
    ScaledFraction(b, f);
    SameSign(b, q, f);
  }

  /** Scaling b by a fraction strictly between -1 and 1 makes it smaller. */
  lemma ScaledFraction(b: real, f: real)
    requires b != 0.0 && -1.0 < f < 1.0
    ensures Abs(b * f) < Abs(b)
  {
    if f >= 0.0 {
      if b > 0.0 { assert b * f < b * 1.0; } else { assert b * f > b * 1.0; }
    } else {
      if b > 0.0 { assert b * f > b * -1.0; } else { assert b * f < b * -1.0; }
    }
  }

  /** b * f has the sign of b * q when f has the sign of q. */
  lemma SameSign(b: real, q: real, f: real)
    requires (q >= 0.0 && f >= 0.0) || (q <= 0.0 && f <= 0.0)
    ensures (b * f) * (b * q) >= 0.0
  {
    assert (b * f) * (b * q) == (b * b) * (f * q);
    assert b * b >= 0.0;
    assert f * q >= 0.0;
  }

  // ---------------------------------------------------------------------
  // Decimal literals

  predicate IsDigit(c: char) { '0' <= c <= '9' }

  predicate AllDigits(s: string) { forall i :: 0 <= i < |s| ==> IsDigit(s[i]) }

  function DigitValue(c: char): (d: nat)
    requires IsDigit(c)
    ensures d < 10
  {
    c as int - '0' as int
  }

  function DigitChar(d: nat): (c: char)
    requires d < 10
    ensures IsDigit(c) && DigitValue(c) == d
  {
    ('0' as int + d) as char
  }

  function Pow10(n: nat): (p: nat)
    ensures p > 0
  {
    if n == 0 then 1 else 10 * Pow10(n - 1)
  }

  /** How many digits s starts with. */
  function LeadingDigits(s: string): (n: nat)
    ensures n <= |s| && AllDigits(s[..n])
    ensures n < |s| ==> !IsDigit(s[n])
  {
    if |s| == 0 || !IsDigit(s[0]) then 0
    else
      var k := LeadingDigits(s[1..]);
      assert s[..k + 1] == [s[0]] + s[1..][..k];
      1 + k
  }

  /** The value of a string of decimal digits, most significant first. */
  function DigitsValue(d: string): (n: nat)
    requires AllDigits(d)
    ensures n < Pow10(|d|)
  {
    if |d| == 0 then 0 else DigitsValue(d[..|d| - 1]) * 10 + DigitValue(d[|d| - 1])
  }

  /** The number std::stof reads from the front of s: the longest prefix made of
      digits, optionally followed by a point and more digits, with at least one
      digit in all; None when s does not start that way (stof throws). What
      follows the number is ignored, as stof ignores it. */
  function ParseNumber(s: string): (r: Option<real>)
    ensures r.None? <==> !(|s| > 0 && IsDigit(s[0])) && !(|s| > 1 && s[0] == '.' && IsDigit(s[1]))
    ensures r.Some? ==> r.value >= 0.0
  {
    var k := LeadingDigits(s);
    var whole := DigitsValue(s[..k]) as real;
    if k < |s| && s[k] == '.' then
      var rest := s[k + 1..];
      var f := LeadingDigits(rest);
      if k == 0 && f == 0 then None
      else Some(whole + DigitsValue(rest[..f]) as real / Pow10(f) as real)
    else if k == 0 then None
    else Some(whole)
  }

  /** The decimal text of n, without leading zeros. */
  function Decimal(n: nat): (s: string)
    ensures |s| > 0 && AllDigits(s)
  {
    if n < 10 then [DigitChar(n)] else Decimal(n / 10) + [DigitChar(n % 10)]
  }

  lemma {:induction false} DecimalValue(n: nat)
    ensures DigitsValue(Decimal(n)) == n
  {
    if n >= 10 {
      DecimalValue(n / 10);
      var s := Decimal(n);
      assert s[..|s| - 1] == Decimal(n / 10);
    }
  }

  /** Parsing the decimal text of a natural number gives that number back. */
  lemma ParseDecimal(n: nat)
    ensures ParseNumber(Decimal(n)) == Some(n as real)
  {
    var s := Decimal(n);
    var k := LeadingDigits(s);
    assert k == |s|;
    assert s[..k] == s;
    DecimalValue(n);
  }

  /** The digits s starts with end at the first character that is not one. */
  lemma LeadingDigitsEnd(s: string, k: nat)
    requires k < |s| && AllDigits(s[..k]) && !IsDigit(s[k])
    ensures LeadingDigits(s) == k
  {
  }

  /** "2.5" reads as 2.5. */
  lemma ParseTwoAndAHalf()
    ensures ParseNumber("2.5") == Some(2.5)
  {
    var s := "2.5";
    LeadingDigitsEnd(s, 1);
    assert s[..1] == "2" && s[2..] == "5";
    assert LeadingDigits("5") == 1 && "5"[..1] == "5";
  }

  /** "1.2.3" reads as 1.2: reading stops at the second point. */
  lemma ParseStopsAtSecondPoint()
    ensures ParseNumber("1.2.3") == Some(1.2)
  {
    var s := "1.2.3";
    LeadingDigitsEnd(s, 1);
    assert s[..1] == "1" && s[2..] == "2.3";
    LeadingDigitsEnd("2.3", 1);
    assert "2.3"[..1] == "2";
  }
}
