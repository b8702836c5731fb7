/** Two-decimal rounding as Python does it: `round(x, 2)` and the `:.2f` format both round
    the exact value of their argument to the nearest hundredth, ties to even. The model works
    on exact reals, so what it rounds is the value a float only approximates. */
module Decimal {
  import opened Text

  /** Nearest integer to `x`, ties to the even neighbour. */
  function RoundHalfEven(x: real): (n: int)
    ensures x - 0.5 <= n as real <= x + 0.5
    ensures (n as real - x == 0.5 || x - n as real == 0.5) ==> n % 2 == 0
  {
    var f := x.Floor;
    var frac := x - f as real;
    if frac < 0.5 then f
    else if frac > 0.5 then f + 1
    else if f % 2 == 0 then f
    else f + 1
  }

  /** The two properties above pin the rounded value down: no other integer has them. */
  lemma RoundHalfEvenUnique(x: real, m: int)
    requires x - 0.5 <= m as real <= x + 0.5
    requires (m as real - x == 0.5 || x - m as real == 0.5) ==> m % 2 == 0
    ensures m == RoundHalfEven(x)
  {
  }

  /** Rounding commutes with negation (ties go to the even neighbour on both sides). */
  lemma RoundHalfEvenNegate(x: real)
    ensures RoundHalfEven(-x) == -RoundHalfEven(x)
  {
    var n := RoundHalfEven(x);
    assert (-n) % 2 == 0 <==> n % 2 == 0;
    RoundHalfEvenUnique(-x, -n);
  }

  lemma RoundHalfEvenMonotone(x: real, y: real)
    requires x <= y
    ensures RoundHalfEven(x) <= RoundHalfEven(y)
  {
  }

  /** Python's `round(x, 2)`. */
  function Round2(x: real): real
  {
    RoundHalfEven(x * 100.0) as real / 100.0
  }

  /** `x` is a whole number of hundredths. */
  predicate IsHundredths(x: real)
  {
    (x * 100.0).Floor as real == x * 100.0
  }

  /** The rounded value is a whole number of hundredths, at most half a hundredth away. */
  lemma Round2Close(x: real)
    ensures IsHundredths(Round2(x))
    ensures x - 0.005 <= Round2(x) <= x + 0.005
  {
    var n := RoundHalfEven(x * 100.0);
    assert Round2(x) * 100.0 == n as real;
  }

  lemma Round2Monotone(x: real, y: real)
    requires x <= y
    ensures Round2(x) <= Round2(y)
  {
    RoundHalfEvenMonotone(x * 100.0, y * 100.0);
  }

  /** A whole number of hundredths is left as it is. */
  lemma Round2Exact(x: real)
    requires IsHundredths(x)
    ensures Round2(x) == x
  {
    var k := (x * 100.0).Floor;
    RoundHalfEvenUnique(x * 100.0, k);
  }

  function DigitChar(d: nat): char
    requires d < 10
  {
    ('0' as int + d) as char
  }

  function DigitValue(c: char): nat
  {
    if IsAsciiDigit(c) then c as int - '0' as int else 0
  }

  /** Decimal digits of `n`, without leading zeros (Python's `str(n)`). */
  function NatToString(n: nat): (s: string)
    ensures |s| >= 1
    ensures forall k :: 0 <= k < |s| ==> IsAsciiDigit(s[k])
  {
    if n < 10 then [DigitChar(n)] else NatToString(n / 10) + [DigitChar(n % 10)]
  }

  function ParseNat(s: string): nat
  {
    if s == [] then 0
    else ParseNat(s[..|s| - 1]) * 10 + DigitValue(s[|s| - 1])
  }

  lemma {:induction false} ParseNatToString(n: nat)
    ensures ParseNat(NatToString(n)) == n
  {
    if n >= 10 {
      var s := NatToString(n);
      assert s[..|s| - 1] == NatToString(n / 10);
      ParseNatToString(n / 10);
    }
  }

  /** Python's `f"{x:.2f}"`: a sign when `x` is negative (kept even when the value rounds
      to zero, giving "-0.00"), the whole part, a point and exactly two decimals. */
  function Format2(x: real): string
  {
    var n := RoundHalfEven(if x < 0.0 then -x * 100.0 else x * 100.0);
    (if x < 0.0 then "-" else "")
      + NatToString(n / 100) + "." + [DigitChar(n % 100 / 10), DigitChar(n % 10)]
  }

  /** Reads back a string of the shape `Format2` writes. */
  function ParseFixed2(s: string): real
  {
    if s != [] && s[0] == '-' then -ParseUnsigned2(s[1..]) else ParseUnsigned2(s)
  }

  function ParseUnsigned2(t: string): real
  {
    if |t| < 3 then 0.0
    else ParseNat(t[..|t| - 3]) as real + ParseNat(t[|t| - 2..]) as real / 100.0
  }

  lemma ParseUnsignedFormat(n: nat)
    ensures ParseUnsigned2(NatToString(n / 100) + "." + [DigitChar(n % 100 / 10), DigitChar(n % 10)])
            == n as real / 100.0
  {
    var w := NatToString(n / 100);
    var t := w + "." + [DigitChar(n % 100 / 10), DigitChar(n % 10)];
    assert t[..|t| - 3] == w;
    ParseNatToString(n / 100);
    var f := t[|t| - 2..];
    assert f == [DigitChar(n % 100 / 10), DigitChar(n % 10)];
    assert f[..1] == [DigitChar(n % 100 / 10)];
    assert ParseNat(f[..1]) == n % 100 / 10;
    assert ParseNat(f) == n % 100;
    assert n == (n / 100) * 100 + n % 100;
  }

  /** The formatted text reads back as `round(x, 2)`: the two printing routes agree. */
  lemma ParseFormat2(x: real)
    ensures ParseFixed2(Format2(x)) == Round2(x)
  {
    var n := RoundHalfEven(if x < 0.0 then -x * 100.0 else x * 100.0);
    var body := NatToString(n / 100) + "." + [DigitChar(n % 100 / 10), DigitChar(n % 10)];
    ParseUnsignedFormat(n);
    if x < 0.0 {
      RoundHalfEvenNegate(x * 100.0);
      assert -x * 100.0 == -(x * 100.0);
      assert n == -RoundHalfEven(x * 100.0);
      assert Format2(x) == "-" + body;
      assert ("-" + body)[1..] == body;
      assert ParseFixed2(Format2(x)) == -(n as real / 100.0);
    } else {
      assert Format2(x) == body;
      assert body[0] == NatToString(n / 100)[0];
    }
  }
}
