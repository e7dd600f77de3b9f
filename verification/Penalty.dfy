/** The late-payment penalty: integer arithmetic on a decimal rate string. */
module Penalty {
  import opened Common

  /** Six decimal places of rate precision. */
  const PENALTY_PRECISION: nat := 1_000_000

  predicate IsDigit(c: char) {
    '0' <= c <= '9'
  }

  predicate AllDigits(s: string) {
    forall i :: 0 <= i < |s| ==> IsDigit(s[i])
  }

  function DigitValue(c: char): nat
    requires IsDigit(c)
  {
    c as int - '0' as int
  }

  function NatOf(s: string): nat
    requires AllDigits(s)
  {
    if s == [] then 0 else 10 * NatOf(s[..|s| - 1]) + DigitValue(s[|s| - 1])
  }

  /** `BigInt(s)` on digit strings; the empty string reads as zero, anything else here throws. */
  function BigIntOf(s: string): Option<nat> {
    if AllDigits(s) then Some(NatOf(s)) else None
  }

  /** `s.padEnd(6, '0').slice(0, 6)` */
  function SixPlaces(s: string): (r: string)
    ensures |r| == 6
  {
    (s + "000000")[..6]
  }

  /** The rate scaled by the precision and truncated to an integer. */
  function ScaledRate(rate: string): Option<nat> {
    var parts := Split(rate, '.');
    var whole := BigIntOf(parts[0]);
    var frac := BigIntOf(SixPlaces(if |parts| > 1 then parts[1] else ""));
    if whole.Some? && frac.Some? then Some(whole.value * PENALTY_PRECISION + frac.value) else None
  }

  /** face_value x rate x days, truncated; no value when the rate does not parse. */
  function CalculatePenalty(face: nat, days: nat, rate: string): Option<nat> {
    match ScaledRate(rate)
    case None => None
    case Some(r) => Some(face * r * days / PENALTY_PRECISION)
  }

  // ---------------------------------------------------------------------
  // What a rate string denotes
  // ---------------------------------------------------------------------

  /** Digits, optionally followed by a point and more digits. */
  predicate WellFormed(rate: string) {
    var parts := Split(rate, '.');
    |parts| <= 2 && AllDigits(parts[0]) && (|parts| == 2 ==> AllDigits(parts[1]))
  }

  function FractionDigits(rate: string): string {
    var parts := Split(rate, '.');
    if |parts| > 1 then parts[1] else ""
  }

  /** The number 0.s written after a decimal point. */
  function FractionOf(s: string): real
    requires AllDigits(s)
  {
    if s == [] then 0.0 else (DigitValue(s[0]) as real + FractionOf(s[1..])) / 10.0
  }

  function RateValue(rate: string): real
    requires WellFormed(rate)
  {
    NatOf(Split(rate, '.')[0]) as real + FractionOf(FractionDigits(rate))
  }

  /** `x` multiplied by ten, k times. */
  function Up(x: real, k: nat): real {
    if k == 0 then x else 10.0 * Up(x, k - 1)
  }

  lemma {:induction false} FractionRange(s: string)
    requires AllDigits(s)
    ensures 0.0 <= FractionOf(s) < 1.0
  {
    if s != [] {
      FractionRange(s[1..]);
    }
  }

  /** Moving the point past the digits `a` turns them into an integer. */
  lemma {:induction false} MovePoint(a: string, b: string)
    requires AllDigits(a) && AllDigits(b)
    ensures AllDigits(a + b) && Up(FractionOf(a + b), |a|) == NatOf(a) as real + FractionOf(b)
  {
    if a == [] {
      assert a + b == b;
    } else {
      var t, c := a[..|a| - 1], a[|a| - 1..];
      assert a + b == t + (c + b) && (c + b)[1..] == b;
      MovePoint(t, c + b);
    }
  }

  lemma {:induction false} TrailingZeros(s: string, zeros: string)
    requires AllDigits(s) && forall i :: 0 <= i < |zeros| ==> zeros[i] == '0'
    ensures AllDigits(s + zeros) && FractionOf(s + zeros) == FractionOf(s)
    decreases |s|, |zeros|
  {
    if s != [] {
      assert (s + zeros)[1..] == s[1..] + zeros;
      TrailingZeros(s[1..], zeros);
    } else if zeros != [] {
      assert (s + zeros)[1..] == s + zeros[1..];
      TrailingZeros(s, zeros[1..]);
    }
  }

  lemma UpSix(x: real)
    ensures Up(x, 6) == 1000000.0 * x
  {
    assert Up(x, 1) == 10.0 * x;
    assert Up(x, 3) == 1000.0 * x;
    assert Up(x, 5) == 100000.0 * x;
  }

  /** The scaled rate is the floor of the rate times 10^6, exact when six places suffice. */
  lemma ScaledRateIsFloor(rate: string)
    requires WellFormed(rate)
    ensures ScaledRate(rate).Some?
    ensures 0.0 <= RateValue(rate) * 1000000.0 - ScaledRate(rate).value as real < 1.0
    ensures |FractionDigits(rate)| <= 6 ==> RateValue(rate) * 1000000.0 == ScaledRate(rate).value as real
  {
    var f := FractionDigits(rate);
    var padded := f + "000000";
    TrailingZeros(f, "000000");
    MovePoint(padded[..6], padded[6..]);
    assert padded == padded[..6] + padded[6..];
    UpSix(FractionOf(padded));
    FractionRange(padded[6..]);
    if |f| <= 6 {
      TrailingZeros("", padded[6..]);
      assert "" + padded[6..] == padded[6..];
    }
  }

  // ---------------------------------------------------------------------
  // The guarantees
  // ---------------------------------------------------------------------

  /** The penalty never exceeds the exact product, and undershoots it by less than one unit
      of currency plus what truncating the rate to six places can cost. */
  lemma PenaltyWithinBound(face: nat, days: nat, rate: string)
    requires WellFormed(rate)
    ensures CalculatePenalty(face, days, rate).Some?
    ensures Undershoots(face * days, RateValue(rate), CalculatePenalty(face, days, rate).value,
                        |FractionDigits(rate)| <= 6)
  {
    ScaledRateIsFloor(rate);
    PenaltyAsProduct(face, days, rate);
    FloorOfProduct(face * days, ScaledRate(rate).value, RateValue(rate));
  }

  /** `p` is below m x v by less than 1 + m / 10^6, and by less than 1 when `exact`. */
  ghost predicate Undershoots(m: nat, v: real, p: nat, exact: bool) {
    && 0.0 <= m as real * v - p as real < 1.0 + m as real / 1000000.0
    && (exact ==> m as real * v - p as real < 1.0)
  }

  lemma PenaltyAsProduct(face: nat, days: nat, rate: string)
    requires ScaledRate(rate).Some?
    ensures var m := face * days;
            CalculatePenalty(face, days, rate) == Some(m * ScaledRate(rate).value / PENALTY_PRECISION)
  {
    var q := ScaledRate(rate).value;
    assert face * q * days == face * days * q;
  }

  /** Truncating first the factor and then the product. */
  lemma FloorOfProduct(m: nat, q: nat, v: real)
    requires 0.0 <= v * 1000000.0 - q as real < 1.0
    ensures Undershoots(m, v, m * q / PENALTY_PRECISION, v * 1000000.0 == q as real)
  {
    var me := ScaleParts(m, q, v);
    var t := m * q;
    assert PENALTY_PRECISION * (t / PENALTY_PRECISION) + t % PENALTY_PRECISION == t;
  }

  lemma ScaleParts(m: nat, q: nat, v: real) returns (me: real)
    requires 0.0 <= v * 1000000.0 - q as real < 1.0
    ensures 0.0 <= me <= m as real && (v * 1000000.0 == q as real ==> me == 0.0)
    ensures m as real * v * 1000000.0 == (m * q) as real + me
  {
    var e := v * 1000000.0 - q as real;
    me := m as real * e;
    NonNegative(m as real, e);
    NonNegative(m as real, 1.0 - e);
  }

  lemma NonNegative(a: real, b: real)
    requires a >= 0.0 && b >= 0.0
    ensures a * b >= 0.0
  {
  }

  lemma ScaledMonotone(a: nat, b: nat, c: nat, d: nat)
    requires a <= c && b <= d
    ensures a * b <= c * d
  {
    assert a * b <= c * b <= c * d;
  }

  /** A larger face value, more days or a larger rate never lowers the penalty. */
  lemma PenaltyMonotone(face: nat, days: nat, rate: string, face': nat, days': nat, rate': string)
    requires WellFormed(rate) && WellFormed(rate')
    requires face <= face' && days <= days' && RateValue(rate) <= RateValue(rate')
    ensures CalculatePenalty(face, days, rate).Some? && CalculatePenalty(face', days', rate').Some?
    ensures CalculatePenalty(face, days, rate).value <= CalculatePenalty(face', days', rate').value
  {
    ScaledRateIsFloor(rate);
    ScaledRateIsFloor(rate');
    var q, q' := ScaledRate(rate).value, ScaledRate(rate').value;
    assert q <= q';
    FloorMonotone(face, q, days, face', q', days');
  }

  lemma FloorMonotone(face: nat, q: nat, days: nat, face': nat, q': nat, days': nat)
    requires face <= face' && q <= q' && days <= days'
    ensures face * q * days / PENALTY_PRECISION <= face' * q' * days' / PENALTY_PRECISION
  {
    ScaledMonotone(face, q, face', q');
    ScaledMonotone(face * q, days, face' * q', days');
    QuotientMonotone(face * q * days, face' * q' * days');
  }

  lemma QuotientMonotone(m: nat, n: nat)
    requires m <= n
    ensures m / PENALTY_PRECISION <= n / PENALTY_PRECISION
  {
  }

  /** No rate, no penalty. */
  lemma RateZero(face: nat, days: nat)
    ensures CalculatePenalty(face, days, "0") == Some(0)
  {
    SplitWhole("0", '.');
    NoDigits("0");
    NoDigits("000000");
    assert SixPlaces("") == "000000";
  }

  lemma {:induction false} NoDigits(s: string)
    requires forall i :: 0 <= i < |s| ==> s[i] == '0'
    ensures AllDigits(s) && NatOf(s) == 0
  {
    if s != [] {
      NoDigits(s[..|s| - 1]);
    }
  }

  /** Charging two periods separately loses at most one unit against charging them together. */
  lemma PenaltySplitsOverDays(face: nat, a: nat, b: nat, rate: string)
    requires WellFormed(rate)
    ensures CalculatePenalty(face, a + b, rate).Some?
    ensures var pa, pb := CalculatePenalty(face, a, rate).value, CalculatePenalty(face, b, rate).value;
            pa + pb <= CalculatePenalty(face, a + b, rate).value <= pa + pb + 1
  {
    ScaledRateIsFloor(rate);
    var m := face * ScaledRate(rate).value;
    assert m * (a + b) == m * a + m * b;
  }
}
