/** The pieces of `java.lang` the controller relies on: 32-bit `int` addition and `Integer.toString`. */
module JavaLang {

  const IntMinValue: int := -0x8000_0000
  const IntMaxValue: int := 0x7fff_ffff

  predicate IsInt32(x: int) {
    IntMinValue <= x <= IntMaxValue
  }

  /** Java's `a + b` on `int`: two's-complement, wrapping modulo 2^32. */
  function AddInt32(a: int, b: int): (r: int)
    requires IsInt32(a) && IsInt32(b)
    ensures IsInt32(r)
    ensures (a + b - r) % 0x1_0000_0000 == 0
    ensures IsInt32(a + b) ==> r == a + b
  {
    var s := a + b;
    if s > IntMaxValue then s - 0x1_0000_0000
    else if s < IntMinValue then s + 0x1_0000_0000
    else s
  }

  predicate IsDigit(c: char) {
    '0' <= c <= '9'
  }

  predicate IsDigits(s: string) {
    forall i :: 0 <= i < |s| ==> IsDigit(s[i])
  }

  function DigitChar(d: nat): (c: char)
    requires d < 10
    ensures IsDigit(c) && c as int - '0' as int == d
  {
    ('0' as int + d) as char
  }

  function DigitValue(c: char): (d: nat)
    requires IsDigit(c)
    ensures d < 10
  {
    c as int - '0' as int
  }

  /** The value of a string of decimal digits, most significant first (the reading side of `Integer.toString`). */
  function DecimalValue(s: string): nat
    requires IsDigits(s)
  {
    if s == [] then 0 else 10 * DecimalValue(s[..|s| - 1]) + DigitValue(s[|s| - 1])
  }

  /** The canonical decimal digits of `n`: at least one digit, and no leading zero unless `n` is 0. */
  function NatToDecimal(n: nat): (s: string)
    ensures |s| >= 1 && IsDigits(s)
    ensures s[0] == '0' <==> n == 0
    ensures n == 0 ==> s == "0"
  {
    if n < 10 then [DigitChar(n)] else NatToDecimal(n / 10) + [DigitChar(n % 10)]
  }

  lemma {:induction false} DecimalRoundTrip(n: nat)
    ensures DecimalValue(NatToDecimal(n)) == n
  {
    var s := NatToDecimal(n);
    if n >= 10 {
      DecimalRoundTrip(n / 10);
      assert s[..|s| - 1] == NatToDecimal(n / 10);
    }
  }

  /** Java's `Integer.toString(x)`: a minus sign for negative values, then the digits of |x|. */
  function IntToString(x: int): (s: string)
    requires IsInt32(x)
    ensures |s| >= 1
    ensures s[0] == '-' <==> x < 0
    ensures x >= 0 ==> IsDigits(s) && DecimalValue(s) == x
    ensures x < 0 ==> |s| >= 2 && IsDigits(s[1..]) && DecimalValue(s[1..]) == -x
    ensures x > 0 ==> s[0] != '0'
    ensures x == 0 ==> s == "0"
    ensures x < 0 ==> s[1] != '0'
  {
    if x < 0 then
      DecimalRoundTrip(-x);
      "-" + NatToDecimal(-x)
    else
      DecimalRoundTrip(x);
      NatToDecimal(x)
  }
}
