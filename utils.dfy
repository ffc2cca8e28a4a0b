/**
 * `format_bytes` and `format_speed` of utils.py: a byte count or a speed in
 * bytes per second written with the largest binary unit (1024-based) it
 * reaches, up to GB.
 */
module Utils {
  import opened Decimal
  import opened Double
  import opened Text

  const KiB: nat := 1024
  const MiB: nat := 1024 * 1024
  const GiB: nat := 1024 * 1024 * 1024

  datatype Unit = B | KB | MB | GB

  function UnitName(u: Unit): string
  {
    match u
    case B => "B"
    case KB => "KB"
    case MB => "MB"
    case GB => "GB"
  }

  /** The amount one unit stands for, and the number the value is divided by. */
  function Divisor(u: Unit): (d: nat)
    ensures d >= 1
  {
    match u
    case B => 1
    case KB => KiB
    case MB => MiB
    case GB => GiB
  }

  /** Reference definition of the tiers: from one unit up to 1024 of it; GB has no top. */
  predicate InTier(n: int, u: Unit)
  {
    (u == B || Divisor(u) <= n) && (u == GB || n < KiB * Divisor(u))
  }

  /** The unit the if/elif chain of both helpers selects. */
  function TierOf(n: int): (u: Unit)
    ensures InTier(n, u)
  {
    if n < KiB then B else if n < MiB then KB else if n < GiB then MB else GB
  }

  /** The tiers are disjoint and cover every integer: the chain picks the only fitting unit. */
  lemma TiersPartition(n: int, u: Unit)
    ensures InTier(n, u) <==> u == TierOf(n)
  {
  }

  /** `x:.1f` of x = n / d for an integer n and a power-of-two d, as tenths. */
  function Tenths(n: nat, d: nat): (t: nat)
    requires d > 0
    ensures 2 * Dist(10 * NearestDouble(n), t * d) <= d
    ensures 2 * Dist(10 * NearestDouble(n), t * d) == d ==> t % 2 == 0
  {
    RoundHalfEven(10 * NearestDouble(n), d)
  }

  /** `f"{n:.0f}"` for an integer n: `float(n)` written without a fraction. */
  function WholeFloatToString(n: int): (s: string)
    ensures 0 <= n < Exact ==> s == IntToString(n)
    ensures n < 0 && n + Exact > 0 ==> s == IntToString(n)
  {
    var r := NearestDouble(if n < 0 then 0 - n else n);
    if n < 0 then "-" + NatToString(r) else NatToString(r)
  }

  /** utils.py `format_bytes`. */
  function FormatBytes(n: int): (s: string)
    ensures EndsWith(s, " " + UnitName(TierOf(n)))
  {
    if n < KiB then IntToString(n) + " B"
    else if n < MiB then TenthsToString(Tenths(n, KiB)) + " KB"
    else if n < GiB then TenthsToString(Tenths(n, MiB)) + " MB"
    else TenthsToString(Tenths(n, GiB)) + " GB"
  }

  /** utils.py `format_speed`, for integer speeds. */
  function FormatSpeed(n: int): (s: string)
    ensures EndsWith(s, " " + UnitName(TierOf(n)) + "/s")
  {
    var numeral :=
      if n < KiB then WholeFloatToString(n)
      else if n < MiB then TenthsToString(Tenths(n, KiB))
      else if n < GiB then TenthsToString(Tenths(n, MiB))
      else TenthsToString(Tenths(n, GiB));
    EndsWithAppend(numeral, " " + UnitName(TierOf(n)) + "/s");
    numeral + " " + UnitName(TierOf(n)) + "/s"
  }

  /** The number in front of the unit and the unit itself. */
  function BytesNumeral(n: int): string
  {
    if n < KiB then IntToString(n) else TenthsToString(Tenths(n, Divisor(TierOf(n))))
  }

  lemma FormatBytesParts(n: int)
    ensures FormatBytes(n) == BytesNumeral(n) + " " + UnitName(TierOf(n))
  {
  }

  /**
   * Exactly one unit suffix is written, and it is the one whose tier holds n:
   * `FormatBytes(n)` ends in " " + u exactly when n lies in u's tier.
   */
  lemma FormatBytesUnit(n: int, u: Unit)
    ensures EndsWith(FormatBytes(n), " " + UnitName(u)) <==> InTier(n, u)
  {
    FormatBytesParts(n);
    UnitSuffix(BytesNumeral(n), TierOf(n), u);
    TiersPartition(n, u);
  }

  /** Whatever precedes it, a unit suffix tells which unit it is. */
  lemma UnitSuffix(w: string, t: Unit, u: Unit)
    ensures EndsWith(w + " " + UnitName(t), " " + UnitName(u)) <==> u == t
  {
    var s := w + " " + UnitName(t);
    assert s[|s| - 1] == 'B';
    assert s[|s| - 2] == (match t case B => ' ' case KB => 'K' case MB => 'M' case GB => 'G');
    if t != B {
      assert s[|s| - 3] == ' ';
    }
  }

  /**
   * Below 1024 the number is written in full, as `str` writes it: the text
   * before " B" is the digits of n without leading zeros, after a minus sign
   * when n is negative, and reads back as n.
   */
  lemma FormatBytesSmall(n: int)
    requires n < KiB
    ensures var s := FormatBytes(n);
      var w := s[..|s| - 2];
      EndsWith(s, " B") &&
      (n >= 0 ==> AllDigits(w) && (|w| > 1 ==> w[0] != '0')) &&
      (n < 0 ==> |w| >= 2 && w[0] == '-' && AllDigits(w[1..]) && w[1] != '0') &&
      ParseInt(w) == n
  {
    var s := FormatBytes(n);
    assert s[..|s| - 2] == IntToString(n);
    ParseIntToString(n);
  }

  /**
   * From 1024 on, the number before the unit is n divided by the unit,
   * rounded to the nearest tenth with ties to even: it reads back as t tenths,
   * t * d lies within d / 2 of 10 * m, a tie having t even, where m is the
   * double nearest n (n itself below 2^53). The whole part has no leading zero.
   */
  lemma FormatBytesScaled(n: int)
    requires n >= KiB
    ensures var s := FormatBytes(n);
      var d := Divisor(TierOf(n));
      var m := NearestDouble(n);
      var w := s[..|s| - |UnitName(TierOf(n))| - 1];
      EndsWith(s, " " + UnitName(TierOf(n))) &&
      |w| >= 3 && w[|w| - 2] == '.' && AllDigits(w[..|w| - 2]) && IsDigit(w[|w| - 1]) &&
      (|w| > 3 ==> w[0] != '0') &&
      m % Ulp(n) == 0 && m / Ulp(n) <= Exact && 2 * Dist(n, m) <= Ulp(n) &&
      (2 * Dist(n, m) == Ulp(n) ==> (m / Ulp(n)) % 2 == 0) &&
      var t := 10 * ParseNat(w[..|w| - 2]) + DigitValue(w[|w| - 1]);
      2 * Dist(10 * m, t * d) <= d &&
      (2 * Dist(10 * m, t * d) == d ==> t % 2 == 0) &&
      (n < Exact ==> m == n)
  {
    var s := FormatBytes(n);
    var u := TierOf(n);
    FormatBytesParts(n);
    var w := s[..|s| - |UnitName(u)| - 1];
    assert w == BytesNumeral(n);
    TenthsRoundTrip(Tenths(n, Divisor(u)));
    NearestDoubleRounds(n);
  }

  /** Within one tier below 2^53, a larger count never shows a smaller number. */
  lemma FormatBytesMonotone(a: nat, b: nat)
    requires KiB <= a <= b < Exact && TierOf(a) == TierOf(b)
    ensures Tenths(a, Divisor(TierOf(a))) <= Tenths(b, Divisor(TierOf(b)))
  {
    RoundHalfEvenMonotone(10 * a, 10 * b, Divisor(TierOf(a)));
  }

  /**
   * `format_speed` writes what `format_bytes` writes, with "/s" after the unit:
   * the tiers and the one-decimal numbers coincide, and below 1024 the float
   * rendering of an integer under 2^53 in magnitude is its plain digits.
   */
  lemma SpeedIsBytesPerSecond(n: int)
    requires n + Exact > 0
    ensures FormatSpeed(n) == FormatBytes(n) + "/s"
  {
  }

  lemma BytesOf1023()
    ensures FormatBytes(1023) == "1023 B"
  {
  }

  lemma BytesOf1024()
    ensures FormatBytes(1024) == "1.0 KB"
  {
  }

  lemma BytesOf1280()
    ensures FormatBytes(1280) == "1.2 KB"
  {
  }

  lemma BytesOf1048575()
    ensures FormatBytes(1048575) == "1024.0 KB"
  {
    assert RoundHalfEven(10485750, KiB) == 10240;
    assert NatToString(1024) == "1024";
  }

  lemma BytesOf1048576()
    ensures FormatBytes(1048576) == "1.0 MB"
  {
  }

  lemma BytesOfTebibyte()
    ensures FormatBytes(1099511627776) == "1024.0 GB"
  {
    assert RoundHalfEven(10995116277760, GiB) == 10240;
    assert NatToString(1024) == "1024";
  }

  lemma BytesOf2048()
    ensures FormatBytes(2048) == "2.0 KB"
  {
  }

  lemma SpeedOf512()
    ensures FormatSpeed(512) == "512 B/s"
  {
  }

  lemma SpeedOf2048()
    ensures FormatSpeed(2048) == "2.0 KB/s"
  {
  }

  /** Neither helper writes a slash except the one in the "/s" of a speed. */
  lemma BytesHaveNoSlash(n: int)
    ensures Count(FormatBytes(n), '/') == 0
  {
    FormatBytesParts(n);
    var w, u := BytesNumeral(n), " " + UnitName(TierOf(n));
    assert FormatBytes(n) == w + u;
    NumeralHasNoSlash(n);
    UnitHasNoSlash(TierOf(n));
    CountConcat(w, u, '/');
  }

  lemma UnitHasNoSlash(t: Unit)
    ensures Count(" " + UnitName(t), '/') == 0
  {
    CountAbsent(" " + UnitName(t), '/');
  }

  lemma NumeralHasNoSlash(n: int)
    ensures Count(BytesNumeral(n), '/') == 0
  {
    if n < KiB {
      CountAbsent(IntToString(n), '/');
    } else {
      var t := Tenths(n, Divisor(TierOf(n)));
      CountAbsent(TenthsToString(t), '/');
    }
  }

  lemma SpeedHasOneSlash(n: int)
    ensures Count(FormatSpeed(n), '/') == 1
  {
    var w := if n < KiB then WholeFloatToString(n) else BytesNumeral(n);
    var u := " " + UnitName(TierOf(n));
    assert FormatSpeed(n) == (w + u) + "/s";
    if n < KiB && n < 0 {
      CountAbsent(NatToString(NearestDouble(-n)), '/');
      CountConcat("-", NatToString(NearestDouble(-n)), '/');
    } else if n < KiB {
      CountAbsent(w, '/');
    } else {
      NumeralHasNoSlash(n);
    }
    UnitHasNoSlash(TierOf(n));
    CountConcat(w, u, '/');
    CountConcat(w + u, "/s", '/');
    assert "/s"[..1] == "/";
  }
}
