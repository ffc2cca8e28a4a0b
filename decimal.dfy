/**
 * Decimal rendering of numbers the way Python's `str(int)` and the
 * `.1f` / `.0f` format specifications write them, together with the
 * parsers that read such text back.
 */
module Decimal {

  predicate IsDigit(c: char)
  {
    '0' <= c <= '9'
  }

  predicate AllDigits(s: string)
  {
    forall i :: 0 <= i < |s| ==> IsDigit(s[i])
  }

  function DigitChar(d: nat): (c: char)
    requires d < 10
    ensures IsDigit(c) && DigitValue(c) == d
  {
    (48 + d) as char
  }

  function DigitValue(c: char): (d: nat)
    requires IsDigit(c)
    ensures d < 10
  {
    c as int - 48
  }

  /** `str(n)` for a natural number: shortest decimal digits, no leading zero. */
  function NatToString(n: nat): (s: string)
    ensures |s| >= 1 && AllDigits(s)
    ensures |s| > 1 ==> s[0] != '0'
    ensures n > 0 ==> s[0] != '0'
    decreases n
  {
    if n < 10 then [DigitChar(n)] else NatToString(n / 10) + [DigitChar(n % 10)]
  }

  /** The number a string of decimal digits denotes. */
  function ParseNat(s: string): nat
    requires AllDigits(s)
  {
    if s == [] then 0 else 10 * ParseNat(s[..|s| - 1]) + DigitValue(s[|s| - 1])
  }

  lemma {:induction false} ParseNatToString(n: nat)
    ensures ParseNat(NatToString(n)) == n
    decreases n
  {
    var s := NatToString(n);
    if n >= 10 {
      assert s[..|s| - 1] == NatToString(n / 10);
      ParseNatToString(n / 10);
    }
  }

  /** Distinct numbers are written differently. */
  lemma NatToStringInjective(a: nat, b: nat)
    requires NatToString(a) == NatToString(b)
    ensures a == b
  {
    ParseNatToString(a);
    ParseNatToString(b);
  }

  /** `str(i)` for any integer: a minus sign in front of the magnitude's digits. */
  function IntToString(i: int): (s: string)
    ensures i >= 0 ==> AllDigits(s)
    ensures i < 0 ==> |s| >= 2 && s[0] == '-' && AllDigits(s[1..])
    ensures i >= 0 && |s| > 1 ==> s[0] != '0'
    ensures i < 0 ==> s[1] != '0'
  {
    if i < 0 then "-" + NatToString(-i) else NatToString(i)
  }

  /** Reads back what `IntToString` writes. */
  function ParseInt(s: string): int
    requires AllDigits(s) || (|s| >= 1 && s[0] == '-' && AllDigits(s[1..]))
  {
    if AllDigits(s) then ParseNat(s) else 0 - ParseNat(s[1..])
  }

  lemma ParseIntToString(i: int)
    ensures ParseInt(IntToString(i)) == i
  {
    var s := IntToString(i);
    if i < 0 {
      assert !IsDigit(s[0]);
      assert s[1..] == NatToString(-i);
      ParseNatToString(-i);
    } else {
      ParseNatToString(i);
    }
  }

  /**
   * The integer nearest to x / d, an exact tie going to the even neighbour:
   * the rounding Python applies when it formats a float to a fixed number of
   * decimals, and IEEE 754 applies when it converts an integer to a double.
   */
  function RoundHalfEven(x: nat, d: nat): (r: nat)
    requires d > 0
    ensures 2 * Dist(x, r * d) <= d
    ensures 2 * Dist(x, r * d) == d ==> r % 2 == 0
  {
    var q, m := x / d, x % d;
    DivMod(x, d, q, m);
    if 2 * m > d || (2 * m == d && q % 2 == 1) then q + 1 else q
  }

  function Dist(a: int, b: int): nat
  {
    if a < b then b - a else a - b
  }

  lemma DivMod(x: nat, d: nat, q: nat, m: nat)
    requires d > 0 && q == x / d && m == x % d
    ensures x == q * d + m && m < d
    ensures (q + 1) * d == q * d + d
  {
  }

  /** The two conditions of `RoundHalfEven` single out its result. */
  lemma RoundHalfEvenUnique(x: nat, d: nat, r: nat)
    requires d > 0
    requires 2 * Dist(x, r * d) <= d
    requires 2 * Dist(x, r * d) == d ==> r % 2 == 0
    ensures r == RoundHalfEven(x, d)
  {
    var s := RoundHalfEven(x, d);
    if r < s {
      NeighbourGap(x, d, r, s);
    } else if s < r {
      NeighbourGap(x, d, s, r);
    }
  }

  /** Two different multiples of d that both lie within d/2 of x are neighbours at a tie. */
  lemma NeighbourGap(x: nat, d: nat, r: nat, s: nat)
    requires d > 0 && r < s
    requires 2 * Dist(x, r * d) <= d && 2 * Dist(x, s * d) <= d
    ensures s == r + 1 && 2 * Dist(x, r * d) == d && 2 * Dist(x, s * d) == d
  {
    var k := s - r;
    MulSplit(r, k, d);
    assert k * d <= d;
    if k >= 2 {
      MulSplit(2, k - 2, d);
      assert false;
    }
  }

  lemma MulSplit(a: nat, k: nat, d: nat)
    ensures (a + k) * d == a * d + k * d
    ensures k * d >= 0
    ensures 2 * d == d + d && 1 * d == d
  {
  }

  /** Rounding x / d never decreases as x grows. */
  lemma RoundHalfEvenMonotone(x: nat, y: nat, d: nat)
    requires d > 0 && x <= y
    ensures RoundHalfEven(x, d) <= RoundHalfEven(y, d)
  {
    var qx, mx := x / d, x % d;
    var qy, my := y / d, y % d;
    DivMod(x, d, qx, mx);
    DivMod(y, d, qy, my);
    if qy < qx {
      MulSplit(qy + 1, qx - qy - 1, d);
      assert false;
    }
  }

  /** A count of tenths as `.1f` writes it: the whole part, a point, one digit. */
  function TenthsToString(t: nat): (s: string)
    ensures |s| >= 3 && s[|s| - 2] == '.' && IsDigit(s[|s| - 1])
    ensures s[..|s| - 2] == NatToString(t / 10) && DigitValue(s[|s| - 1]) == t % 10
  {
    NatToString(t / 10) + "." + [DigitChar(t % 10)]
  }

  /** Reads `TenthsToString`'s output back: the point is the second-last character. */
  lemma TenthsRoundTrip(t: nat)
    ensures var s := TenthsToString(t);
      |s| >= 3 && s[|s| - 2] == '.' && AllDigits(s[..|s| - 2]) && IsDigit(s[|s| - 1]) &&
      (|s| > 3 ==> s[0] != '0') &&
      10 * ParseNat(s[..|s| - 2]) + DigitValue(s[|s| - 1]) == t
  {
    var s := TenthsToString(t);
    assert s[..|s| - 2] == NatToString(t / 10);
    ParseNatToString(t / 10);
  }
}
