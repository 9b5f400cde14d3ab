/**
 * Java's fixed-width integers as the value layer uses them: 32-bit `int` and
 * 64-bit `long` arithmetic with two's-complement wrap-around, division that
 * truncates toward zero, and the decimal conversions `Integer.parseInt`,
 * `Long.parseLong`, `Integer.toString` and `Long.toString`.
 */
module JavaInt {
  import opened Wrappers

  const IntMin: int := -0x8000_0000
  const IntMax: int := 0x7fff_ffff
  const LongMin: int := -0x8000_0000_0000_0000
  const LongMax: int := 0x7fff_ffff_ffff_ffff

  predicate IsInt(x: int)
  {
    IntMin <= x <= IntMax
  }

  predicate IsLong(x: int)
  {
    LongMin <= x <= LongMax
  }

  /** The values of a Java `int`. */
  type Int32 = x: int | IsInt(x)

  /** The values of a Java `long`. */
  type Int64 = x: int | IsLong(x)

  /** The 32-bit two's-complement value of `x`: `x` itself when it fits, otherwise `x` wrapped modulo 2^32. */
  function Wrap32(x: int): (r: int)
    ensures IsInt(r)
    ensures (r - x) % 0x1_0000_0000 == 0
    ensures IsInt(x) ==> r == x
  {
    (x + 0x8000_0000) % 0x1_0000_0000 - 0x8000_0000
  }

  /** The 64-bit two's-complement value of `x`. */
  function Wrap64(x: int): (r: int)
    ensures IsLong(r)
    ensures (r - x) % 0x1_0000_0000_0000_0000 == 0
    ensures IsLong(x) ==> r == x
  {
    (x + 0x8000_0000_0000_0000) % 0x1_0000_0000_0000_0000 - 0x8000_0000_0000_0000
  }

  function Abs(x: int): nat
  {
    if x < 0 then -x else x
  }

  /** Java's `/` before wrap-around: the quotient truncated toward zero. */
  function Quot(a: int, b: int): (q: int)
    requires b != 0
    ensures Abs(b * q) <= Abs(a) < Abs(b * q) + Abs(b)
    ensures q == 0 || (q < 0 <==> (a < 0) != (b < 0))
  {
    var q := Abs(a) / Abs(b);
    DivMod(Abs(a), Abs(b));
    Negations(Abs(b), q);
    if (a < 0) != (b < 0) then -q else q
  }

  /** Java's `%`: what `Quot` leaves over, smaller than the divisor and with the dividend's sign. */
  function Rem(a: int, b: int): (r: int)
    requires b != 0
    ensures Abs(r) < Abs(b)
    ensures r == 0 || (r < 0 <==> a < 0)
  {
    DivMod(Abs(a), Abs(b));
    QuotProduct(a, b);
    a - b * Quot(a, b)
  }

  /**
   * Truncating division: the quotient and remainder rebuild the dividend, the
   * remainder is smaller than the divisor and has the dividend's sign, and the
   * quotient never overshoots the dividend.
   */
  lemma QuotRem(a: int, b: int)
    requires b != 0
    ensures a == b * Quot(a, b) + Rem(a, b)
    ensures Abs(Rem(a, b)) < Abs(b)
    ensures Rem(a, b) == 0 || (Rem(a, b) < 0 <==> a < 0)
    ensures Abs(b * Quot(a, b)) <= Abs(a)
  {
    DivMod(Abs(a), Abs(b));
    QuotProduct(a, b);
  }

  lemma DivMod(x: nat, y: nat)
    requires y > 0
    ensures x == y * (x / y) + x % y && 0 <= x % y < y && y * (x / y) >= 0
  {
  }

  /** The product of the divisor and the truncated quotient, by the signs. */
  lemma QuotProduct(a: int, b: int)
    requires b != 0
    ensures b * Quot(a, b) == if a < 0 then -(Abs(b) * (Abs(a) / Abs(b))) else Abs(b) * (Abs(a) / Abs(b))
  {
    var q := Abs(a) / Abs(b);
    Negations(Abs(b), q);
  }

  lemma Negations(x: int, y: int)
    ensures x * -y == -(x * y) && (-x) * y == -(x * y) && (-x) * (-y) == x * y
  {
  }

  /** Truncation and Euclidean division agree on non-negative operands. */
  lemma QuotOfNatural(a: nat, b: int)
    requires b > 0
    ensures Quot(a, b) == a / b && Rem(a, b) == a % b
  {
  }

  /** The only 32-bit quotient that needs wrapping is the most negative int divided by -1. */
  lemma QuotOverflow(a: int, b: int)
    requires IsInt(a) && IsInt(b) && b != 0
    ensures !IsInt(Quot(a, b)) <==> a == IntMin && b == -1
  {
    if Abs(b) >= 2 {
      DivHalves(Abs(a), Abs(b));
    }
  }

  /** Dividing by at least two at least halves. */
  lemma DivHalves(x: nat, y: nat)
    requires y >= 2
    ensures 2 * (x / y) <= x
  {
    DivMod(x, y);
    var q := x / y;
    assert y * q == 2 * q + (y - 2) * q;
    assert (y - 2) * q >= 0;
  }

  /** A character of "0123456789". */
  predicate IsDigit(c: char)
  {
    '0' <= c <= '9'
  }

  predicate AllDigits(s: string)
  {
    forall k :: 0 <= k < |s| ==> IsDigit(s[k])
  }

  /** The number a string of decimal digits denotes, most significant digit first. */
  function DigitsValue(s: string): (n: nat)
    requires AllDigits(s)
  {
    if s == [] then 0 else DigitsValue(s[..|s| - 1]) * 10 + (s[|s| - 1] as int - '0' as int)
  }

  /** The decimal digits of `n` without leading zeros ("0" for zero). */
  function Digits(n: nat): (s: string)
    ensures |s| > 0 && AllDigits(s)
    ensures n >= 10 <==> |s| > 1
    ensures s[0] != '0' || n == 0
  {
    if n < 10 then [('0' as int + n) as char] else Digits(n / 10) + [('0' as int + n % 10) as char]
  }

  /** `Integer.toString` and `Long.toString`: an optional '-' and the digits. */
  function DecimalText(x: int): (s: string)
    ensures |s| > 0
  {
    if x < 0 then "-" + Digits(-x) else Digits(x)
  }

  /**
   * `Integer.parseInt` (with `IntMin`, `IntMax`) and `Long.parseLong` (with
   * `LongMin`, `LongMax`): an optional sign and at least one digit, denoting a
   * number within the bounds; anything else is a NumberFormatException, None here.
   */
  function ParseDecimal(s: string, lo: int, hi: int): (r: Option<int>)
    ensures r.Some? ==> lo <= r.value <= hi
  {
    if |s| == 0 then None
    else
      var negative := s[0] == '-';
      var body := if s[0] == '-' || s[0] == '+' then s[1..] else s;
      if |body| == 0 || !AllDigits(body) then None
      else
        var n: int := if negative then -(DigitsValue(body) as int) else DigitsValue(body);
        if lo <= n <= hi then Some(n) else None
  }

  function ParseInt(s: string): (r: Option<int>)
    ensures r.Some? ==> IsInt(r.value)
  {
    ParseDecimal(s, IntMin, IntMax)
  }

  function ParseLong(s: string): (r: Option<int>)
    ensures r.Some? ==> IsLong(r.value)
  {
    ParseDecimal(s, LongMin, LongMax)
  }

  lemma {:induction false} DigitsRoundTrip(n: nat)
    ensures DigitsValue(Digits(n)) == n
  {
    var s := Digits(n);
    if n >= 10 {
      DigitsRoundTrip(n / 10);
      assert s[..|s| - 1] == Digits(n / 10);
    }
  }

  /** A string of digits without a leading zero (other than "0" itself) is the rendering of its value. */
  lemma {:induction false} CanonicalDigits(s: string)
    requires AllDigits(s) && |s| > 0 && (s[0] != '0' || |s| == 1)
    ensures Digits(DigitsValue(s)) == s
  {
    if |s| > 1 {
      var init := s[..|s| - 1];
      CanonicalDigits(init);
      NoLeadingZeroIsLarge(init);
      var n := DigitsValue(s);
      assert n / 10 == DigitsValue(init);
      assert Digits(n) == Digits(n / 10) + [s[|s| - 1]];
    }
  }

  /** A digit string without a leading zero, longer than one digit, denotes at least 10. */
  lemma {:induction false} NoLeadingZeroIsLarge(s: string)
    requires AllDigits(s) && |s| > 0 && (s[0] != '0' || |s| == 1)
    ensures s[0] != '0' ==> DigitsValue(s) >= 1
    ensures |s| > 1 ==> DigitsValue(s) >= 10
  {
    if |s| > 1 {
      NoLeadingZeroIsLarge(s[..|s| - 1]);
    }
  }

  /** Parsing the rendering of a number in range gives the number back. */
  lemma ParseRendering(x: int, lo: int, hi: int)
    requires lo <= x <= hi
    ensures ParseDecimal(DecimalText(x), lo, hi) == Some(x)
  {
    var s := DecimalText(x);
    if x < 0 {
      var d := Digits(-x);
      DigitsRoundTrip(-x);
      assert s[0] == '-' && s[1..] == d;
      assert ParseDecimal(s, lo, hi) == (if lo <= -(DigitsValue(d) as int) <= hi then Some(-(DigitsValue(d) as int)) else None);
    } else {
      var d := Digits(x);
      DigitsRoundTrip(x);
      assert s == d && IsDigit(d[0]);
      assert ParseDecimal(s, lo, hi) == (if lo <= DigitsValue(d) <= hi then Some(DigitsValue(d)) else None);
    }
  }

  lemma IntRoundTrip(x: int)
    requires IsInt(x)
    ensures ParseInt(DecimalText(x)) == Some(x)
  {
    ParseRendering(x, IntMin, IntMax);
  }

  /** A canonical decimal: digits without a leading zero, optionally after '-' when not zero. */
  predicate Canonical(s: string)
  {
    if |s| > 0 && s[0] == '-' then
      |s| > 1 && AllDigits(s[1..]) && s[1] != '0'
    else
      |s| > 0 && AllDigits(s) && (s[0] != '0' || |s| == 1)
  }

  /** A canonical decimal within the bounds parses to a number whose rendering is the text itself. */
  lemma RenderingOfParse(s: string, lo: int, hi: int)
    requires Canonical(s) && ParseDecimal(s, lo, hi).Some?
    ensures DecimalText(ParseDecimal(s, lo, hi).value) == s
  {
    if s[0] == '-' {
      var body := s[1..];
      CanonicalDigits(body);
      NoLeadingZeroIsLarge(body);
      assert "-" + body == s;
    } else {
      CanonicalDigits(s);
    }
  }
}
