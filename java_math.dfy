/** The few pieces of Java's `double` and `long` arithmetic that the rating
    computation of a disc relies on. A finite `double` is an exact real here;
    NaN and the two infinities are kept as values of their own, because
    `0.0 / 0` and `Math.round(NaN)` decide what a disc without comments shows. */
module JavaMath {

  const LONG_MIN: int := -0x8000_0000_0000_0000
  const LONG_MAX: int := 0x7FFF_FFFF_FFFF_FFFF

  /** A Java `double`: a finite value (as an exact real), an infinity or NaN. */
  datatype Double = Finite(v: real) | PosInf | NegInf | NaN

  /** `x / n` for a double `x` and an int count `n`: a division by zero gives
      an infinity of the sign of `x`, or NaN for `0.0 / 0`. */
  function Divide(x: real, n: nat): (d: Double)
    ensures d.Finite? <==> n > 0
    ensures d.Finite? ==> d.v * n as real == x
    ensures d == NaN <==> n == 0 && x == 0.0
    ensures d == PosInf <==> n == 0 && x > 0.0
  {
    if n > 0 then Finite(x / n as real)
    else if x > 0.0 then PosInf
    else if x < 0.0 then NegInf
    else NaN
  }

  /** `d * f` for a positive factor `f`: NaN and the infinities are kept. */
  function Scale(d: Double, f: real): (r: Double)
    requires f > 0.0
    ensures r.Finite? <==> d.Finite?
    ensures r.NaN? <==> d.NaN?
    ensures d.Finite? ==> r == Finite(d.v * f)
    ensures !d.Finite? ==> r == d
  {
    match d
    case Finite(v) => Finite(v * f)
    case _ => d
  }

  /** `(double) k / f` for a positive factor `f`. */
  function DivideLong(k: int, f: real): (q: real)
    requires f > 0.0
    ensures q * f == k as real
  {
    k as real / f
  }

  /** Saturates `k` to the range of a Java `long`. */
  function ClampToLong(k: int): (r: int)
    ensures LONG_MIN <= r <= LONG_MAX
    ensures LONG_MIN <= k <= LONG_MAX ==> r == k
    ensures k < LONG_MIN ==> r == LONG_MIN
    ensures k > LONG_MAX ==> r == LONG_MAX
  {
    if k < LONG_MIN then LONG_MIN else if k > LONG_MAX then LONG_MAX else k
  }

  /** `Math.round(double)`: the closest `long`, ties going towards positive
      infinity; NaN gives 0 and values beyond the range of a `long`, the
      infinities included, saturate at its bounds. */
  function MathRound(d: Double): (k: int)
    ensures LONG_MIN <= k <= LONG_MAX
    ensures d.NaN? ==> k == 0
    ensures d.PosInf? ==> k == LONG_MAX
    ensures d.NegInf? ==> k == LONG_MIN
    ensures d.Finite? && LONG_MIN as real <= d.v < LONG_MAX as real ==>
              d.v - 0.5 < k as real <= d.v + 0.5
    ensures d.Finite? && d.v >= LONG_MAX as real ==> k == LONG_MAX
    ensures d.Finite? && d.v <= LONG_MIN as real ==> k == LONG_MIN
  {
    match d
    case NaN => 0
    case PosInf => LONG_MAX
    case NegInf => LONG_MIN
    case Finite(v) => ClampToLong((v + 0.5).Floor)
  }

  /** 10 to the power `n`. */
  function Pow10(n: nat): (r: nat)
    ensures r >= 1
  {
    if n == 0 then 1 else 10 * Pow10(n - 1)
  }

  /** The double value of `(long) Math.pow(10, places)` as it enters the
      double arithmetic `value * factor` and `tmp / factor`: `10^places` is
      exact up to 18 places; from 19 places on the cast saturates at
      `Long.MAX_VALUE`, which converts back to the double `2^63`. */
  function PowerOfTenFactor(places: nat): (f: nat)
    ensures f >= 1
    ensures places <= 18 ==> f == Pow10(places)
    ensures places > 18 ==> f == LONG_MAX + 1
  {
    if places <= 18 then Pow10(places) else LONG_MAX + 1
  }

  /** `Math.round` of a `long` converted to double is that `long`. */
  lemma MathRoundLong(k: int)
    requires LONG_MIN <= k <= LONG_MAX
    ensures MathRound(Finite(k as real)) == k
  {
    assert (k as real + 0.5).Floor == k;
  }
}
