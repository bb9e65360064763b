/** The static rounding helper of a disc, `Disc.round(value, places)`, and
    what it guarantees. */
module Rounding {
  import opened JavaMath

  /** The one exception the rounding helper throws. */
  datatype Exception = IllegalArgumentException

  datatype Result<T> = Success(value: T) | Failure(error: Exception)

  /** The rounding helper: a negative number of places is refused with an
      `IllegalArgumentException`; otherwise the value is rounded. */
  function Round(value: Double, places: int): (r: Result<real>)
    ensures r.Failure? <==> places < 0
    ensures places >= 0 ==> r == Success(RoundHalfUp(value, places))
  {
    if places < 0 then Failure(IllegalArgumentException)
    else Success(RoundHalfUp(value, places))
  }

  /** The arithmetic of the helper: scale by the factor, `Math.round`, then
      divide the `long` by the factor. */
  function RoundHalfUp(value: Double, places: nat): (r: real)
    ensures r * PowerOfTenFactor(places) as real
            == MathRound(Scale(value, PowerOfTenFactor(places) as real)) as real
  {
    var factor := PowerOfTenFactor(places) as real;
    DivideLong(MathRound(Scale(value, factor)), factor)
  }

  /** `Math.round(NaN)` is 0, so NaN rounds to 0 for every number of places. */
  lemma RoundNaN(places: nat)
    ensures RoundHalfUp(NaN, places) == 0.0
  {
  }

  // The properties below are stated for two places, the only number of
  // places a disc rounds its rating to; the factor is then 100.

  lemma HundredFactor()
    ensures PowerOfTenFactor(2) == 100
  {
  }

  /** Scaled back up by 100, a value rounded to two places is the `long` that
      `Math.round` gave for the input scaled by 100. */
  lemma RoundScaledBack(value: Double)
    ensures RoundHalfUp(value, 2) * 100.0 == MathRound(Scale(value, 100.0)) as real
  {
    HundredFactor();
  }

  /** When `100 * v` lies within the range of a `long`, `v` rounded to two
      places, times 100, is the integer closest to `100 * v`, ties going up. */
  lemma RoundNearest(v: real)
    requires LONG_MIN as real <= v * 100.0 < LONG_MAX as real
    ensures var k := RoundHalfUp(Finite(v), 2) * 100.0;
            k.Floor as real == k && v * 100.0 - 0.5 < k <= v * 100.0 + 0.5
  {
    RoundScaledBack(Finite(v));
  }

  /** Rounding a value that is already rounded changes nothing. */
  lemma RoundIdempotent(value: Double)
    ensures RoundHalfUp(Finite(RoundHalfUp(value, 2)), 2) == RoundHalfUp(value, 2)
  {
    var k := MathRound(Scale(value, 100.0));
    RoundScaledBack(value);
    RoundScaledBack(Finite(RoundHalfUp(value, 2)));
    MathRoundLong(k);
  }

  /** Rounding keeps the order of its arguments. */
  lemma RoundMonotone(v: real, w: real)
    requires v <= w
    ensures RoundHalfUp(Finite(v), 2) <= RoundHalfUp(Finite(w), 2)
  {
    RoundScaledBack(Finite(v));
    RoundScaledBack(Finite(w));
    assert (v * 100.0 + 0.5).Floor <= (w * 100.0 + 0.5).Floor;
  }

  /** A whole number `n` with `100 * n` within the range of a `long` is its
      own rounding. */
  lemma RoundWhole(n: int)
    requires LONG_MIN <= n * 100 <= LONG_MAX
    ensures RoundHalfUp(Finite(n as real), 2) == n as real
  {
    RoundScaledBack(Finite(n as real));
    MathRoundLong(n * 100);
  }

  /** Ties go towards positive infinity, not away from zero: 0.125 rounds
      up to 0.13 and -0.125 rounds up to -0.12. */
  lemma RoundTiesUp()
    ensures RoundHalfUp(Finite(0.125), 2) == 0.13
    ensures RoundHalfUp(Finite(-0.125), 2) == -0.12
  {
    RoundScaledBack(Finite(0.125));
    RoundScaledBack(Finite(-0.125));
  }
}
