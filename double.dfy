/**
 * The conversion Python performs when an integer meets floating point
 * (`float(n)`, and `n / 1024**k`, whose quotient by a power of two is then
 * exact): the nearest IEEE 754 double, written here as the natural number it
 * equals. A double carries 53 significant bits, so integers below 2^53 are
 * kept exactly and larger ones are rounded to a multiple of a power of two,
 * ties to an even significand.
 */
module Double {
  import opened Decimal

  /** 2^53: the first integer past which not every integer is a double. */
  const Exact: nat := 0x20_0000_0000_0000

  function Pow2(e: nat): (p: nat)
    ensures p >= 1
  {
    if e == 0 then 1 else 2 * Pow2(e - 1)
  }

  lemma {:induction false} Pow2Add(a: nat, b: nat)
    ensures Pow2(a + b) == Pow2(a) * Pow2(b)
    decreases a
  {
    if a > 0 {
      Pow2Add(a - 1, b);
      assert Pow2(a + b) == 2 * Pow2(a - 1 + b);
    }
  }

  lemma Pow2Of53()
    ensures Pow2(53) == Exact
  {
    assert Pow2(1) == 2;
    Pow2Add(1, 1);
    Pow2Add(2, 2);
    Pow2Add(4, 4);
    Pow2Add(8, 8);
    Pow2Add(16, 16);
    Pow2Add(32, 16);
    Pow2Add(48, 4);
    Pow2Add(52, 1);
  }

  /** The number of binary digits of n. */
  function BitLength(n: nat): (b: nat)
    ensures n > 0 ==> b >= 1 && Pow2(b - 1) <= n < Pow2(b)
    ensures n == 0 ==> b == 0
    decreases n
  {
    if n == 0 then 0 else 1 + BitLength(n / 2)
  }

  /**
   * The spacing of the doubles around n: 1 below 2^53, and from there on
   * 2^(b - 53) for an n of b bits, so that n / Ulp(n) has 53 significant bits.
   */
  function Ulp(n: nat): (u: nat)
    ensures u >= 1
    ensures n < Exact ==> u == 1
    ensures n >= Exact ==> BitLength(n) >= 54 && u == Pow2(BitLength(n) - 53)
  {
    if n < Exact then 1
    else
      BitsOfLarge(n);
      Pow2(BitLength(n) - 53)
  }

  /** The double nearest to the integer n, as a natural number. */
  function NearestDouble(n: nat): (r: nat)
    ensures n < Exact ==> r == n
    ensures Exact * Dist(n, r) <= n
  {
    if n < Exact then n
    else
      var e := BitLength(n) - 53;
      BitsOfLarge(n);
      var u := Pow2(e);
      var q := RoundHalfEven(n, u);
      RelativeError(n, e, q);
      q * u
  }

  /**
   * `NearestDouble(n)` is a double and the nearest one: a multiple of the
   * spacing with a significand of at most 53 bits, within half a spacing of
   * n, an exact tie taking the even significand.
   */
  lemma NearestDoubleRounds(n: nat)
    ensures var r, u := NearestDouble(n), Ulp(n);
      r % u == 0 && r / u <= Exact && 2 * Dist(n, r) <= u &&
      (2 * Dist(n, r) == u ==> (r / u) % 2 == 0)
  {
    if n >= Exact {
      BitsOfLarge(n);
      var e := BitLength(n) - 53;
      var q := RoundHalfEven(n, Pow2(e));
      Significand(n, e, q);
    }
  }

  /** Rounding a number of e + 53 bits to a multiple of 2^e leaves at most 2^53 of them. */
  lemma Significand(n: nat, e: nat, q: nat)
    requires n > 0 && BitLength(n) == e + 53
    requires 2 * Dist(n, q * Pow2(e)) <= Pow2(e)
    ensures (q * Pow2(e)) % Pow2(e) == 0 && (q * Pow2(e)) / Pow2(e) == q
    ensures q <= Exact
  {
    var u := Pow2(e);
    MulDiv(q, u);
    Pow2Add(53, e);
    Pow2Of53();
    assert n < Exact * u;
    MultipleBelow(n, u, Exact, q);
  }

  /** A multiple of u within u / 2 of some n < b * u is at most b * u. */
  lemma MultipleBelow(n: nat, u: nat, b: nat, q: nat)
    requires u > 0 && n < b * u && 2 * Dist(n, q * u) <= u
    ensures q <= b
  {
    if q > b {
      MulSplit(b + 1, q - b - 1, u);
      assert false;
    }
  }

  /** Dividing q * u by u gives back q, with nothing left over. */
  lemma MulDiv(q: nat, u: nat)
    requires u > 0
    ensures (q * u) % u == 0 && (q * u) / u == q
  {
    var a := q * u;
    var k, m := a / u, a % u;
    DivMod(a, u, k, m);
    if k < q {
      MulSplit(k, q - k, u);
      MulSplit(1, q - k - 1, u);
      assert false;
    } else if k > q {
      MulSplit(q, k - q, u);
      MulSplit(1, k - q - 1, u);
      assert false;
    }
  }

  lemma BitsOfLarge(n: nat)
    requires n >= Exact
    ensures BitLength(n) >= 54
  {
    Pow2Of53();
    if BitLength(n) < 54 {
      Pow2Monotone(BitLength(n), 53);
    }
  }

  lemma {:induction false} Pow2Monotone(a: nat, b: nat)
    requires a <= b
    ensures Pow2(a) <= Pow2(b)
    decreases b
  {
    if a < b {
      Pow2Monotone(a, b - 1);
    }
  }

  /** Rounding to a multiple of 2^e, with n at least 2^(e+52), errs by at most n / 2^53. */
  lemma RelativeError(n: nat, e: nat, q: nat)
    requires n > 0 && BitLength(n) == e + 53
    requires 2 * Dist(n, q * Pow2(e)) <= Pow2(e)
    ensures Exact * Dist(n, q * Pow2(e)) <= n
  {
    var u := Pow2(e);
    var h := Pow2(52);
    var dist := Dist(n, q * u);
    Pow2Add(52, e);
    Pow2Add(52, 1);
    Pow2Of53();
    assert Exact == 2 * h;
    ScaleBound(h, dist, u);
  }

  lemma ScaleBound(h: nat, dist: nat, u: nat)
    requires 2 * dist <= u
    ensures (2 * h) * dist <= h * u
  {
    assert (2 * h) * dist == h * (2 * dist);
    MulMono(h, 2 * dist, u);
  }

  lemma MulMono(h: nat, a: nat, b: nat)
    requires a <= b
    ensures h * a <= h * b
  {
  }
}
