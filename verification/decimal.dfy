/** Decimal rendering of integers, as `toString` produces it, and its inverse. */
module Decimal {
  import opened Text

  function Pow10(k: nat): (p: nat)
    ensures p >= 1
  {
    if k == 0 then 1 else 10 * Pow10(k - 1)
  }

  /** The ASCII digit for `d`. */
  function DigitChar(d: int): (c: char)
    requires 0 <= d < 10
    ensures IsDigit(c)
  {
    ('0' as int + d) as char
  }

  /** The value of an ASCII digit. */
  function DigitValue(c: char): (d: int)
    requires IsDigit(c)
    ensures 0 <= d < 10 && DigitChar(d) == c
  {
    c as int - '0' as int
  }

  /** `n.toString()` for a natural number: its digits, most significant first, without leading zeros. */
  function NatToDecimal(n: nat): (s: string)
    ensures AllDigits(s) && |s| >= 1
    ensures |s| > 1 ==> s[0] != '0'
  {
    if n < 10 then [DigitChar(n)]
    else
      var s := NatToDecimal(n / 10) + [DigitChar(n % 10)];
      assert s[0] == NatToDecimal(n / 10)[0];
      s
  }

  /** The number a string of ASCII digits denotes. */
  function DecimalValue(s: string): (n: nat)
    requires AllDigits(s)
  {
    if s == [] then 0 else 10 * DecimalValue(s[..|s| - 1]) + DigitValue(s[|s| - 1])
  }

  /** Reading back a rendered number gives the number. */
  lemma {:induction false} DecimalRoundTrip(n: nat)
    ensures DecimalValue(NatToDecimal(n)) == n
  {
    var s := NatToDecimal(n);
    if n >= 10 {
      DecimalRoundTrip(n / 10);
      assert s[..|s| - 1] == NatToDecimal(n / 10);
    }
  }

  /** A number of `k` digits renders as exactly `k` characters. */
  lemma {:induction false} DecimalLength(n: nat, k: nat)
    requires k >= 1 && Pow10(k - 1) <= n < Pow10(k)
    ensures |NatToDecimal(n)| == k
  {
    if n >= 10 {
      assert k >= 2;
      DecimalLength(n / 10, k - 1);
    }
  }

  /** Six-digit numbers lie between these powers of ten. */
  lemma SixDigitPowers()
    ensures Pow10(5) == 100000 && Pow10(6) == 1000000
  {
    assert Pow10(1) == 10;
    assert Pow10(2) == 100;
    assert Pow10(3) == 1000;
    assert Pow10(4) == 10000;
  }

  /** A `k`-digit string denotes less than `10^k`, and at least `10^(k-1)` without a leading zero. */
  lemma {:induction false} DecimalBounds(s: string)
    requires AllDigits(s) && |s| >= 1
    ensures DecimalValue(s) < Pow10(|s|)
    ensures s[0] != '0' ==> DecimalValue(s) >= Pow10(|s| - 1)
  {
    var p := s[..|s| - 1];
    if |p| >= 1 {
      DecimalBounds(p);
      assert p[0] == s[0];
    }
  }

  /** Appending digit `d` to `x` is undone by division and remainder by ten. */
  lemma LastDigit(x: nat, d: int)
    requires 0 <= d < 10
    ensures (10 * x + d) / 10 == x && (10 * x + d) % 10 == d
  {
  }

  /** Two digit strings of the same length and value are the same string. */
  lemma {:induction false} DecimalInjective(a: string, b: string)
    requires AllDigits(a) && AllDigits(b) && |a| == |b|
    requires DecimalValue(a) == DecimalValue(b)
    ensures a == b
  {
    if a != [] {
      var a', b' := a[..|a| - 1], b[..|b| - 1];
      var x, y := DecimalValue(a'), DecimalValue(b');
      var da, db := DigitValue(a[|a| - 1]), DigitValue(b[|b| - 1]);
      assert DecimalValue(a) == 10 * x + da && DecimalValue(b) == 10 * y + db;
      LastDigit(x, da);
      LastDigit(y, db);
      assert x == y && da == db;
      DecimalInjective(a', b');
      assert a[|a| - 1] == DigitChar(da) == b[|b| - 1];
      assert a == a' + [a[|a| - 1]] && b == b' + [b[|b| - 1]];
    }
  }

  /** `n.toString()` for any integer: a minus sign before the magnitude of a negative number. */
  function IntToDecimal(n: int): (s: string)
    ensures |s| >= 1
  {
    if n < 0 then "-" + NatToDecimal(-n) else NatToDecimal(n)
  }
}
