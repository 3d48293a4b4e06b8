/**
 * Rounding of a coordinate to three decimal places, as `Math.round(x * 1000) / 1000`.
 *
 * Degrees are exact reals here; a rounded coordinate is identified by its whole
 * number of milli-degrees, which is the deduplication key of a point.
 */
module Rounding {

  function AbsReal(x: real): real {
    if x < 0.0 then -x else x
  }

  /** JavaScript's `Math.round` on an exact value: the nearest integer, a half rounds up. */
  function MathRound(x: real): (r: int)
    ensures r as real - 0.5 <= x < r as real + 0.5
  {
    (x + 0.5).Floor
  }

  /** `Math.round(x * 1000)`: a degree value as a whole number of milli-degrees. */
  function ToMilli(x: real): (m: int)
    ensures m as real - 0.5 <= x * 1000.0 < m as real + 0.5
  {
    MathRound(x * 1000.0)
  }

  /** A whole number of milli-degrees as degrees (the division by 1000). */
  function Degrees(m: int): real {
    m as real / 1000.0
  }

  /** The rounded coordinate `Math.round(x * 1000) / 1000`. */
  function RoundCoordinate(x: real): real {
    Degrees(ToMilli(x))
  }

  /** The rounded value is a nearest milli-degree, and of two equally near ones it is the upper. */
  lemma NearestMilli(x: real, k: int)
    ensures AbsReal(x * 1000.0 - ToMilli(x) as real) <= AbsReal(x * 1000.0 - k as real)
    ensures AbsReal(x * 1000.0 - ToMilli(x) as real) == AbsReal(x * 1000.0 - k as real) ==> k <= ToMilli(x)
  {
  }

  /** The rounded coordinate is within half a milli-degree of the input (a tie sits exactly on the bound). */
  lemma WithinHalfMilli(x: real)
    ensures -0.0005 < RoundCoordinate(x) - x <= 0.0005
  {
  }

  /** A value that is already a whole number of milli-degrees rounds to itself. */
  lemma ToMilliOfDegrees(m: int)
    ensures ToMilli(Degrees(m)) == m
  {
  }

  /** Rounding is idempotent. */
  lemma RoundCoordinateIdempotent(x: real)
    ensures RoundCoordinate(RoundCoordinate(x)) == RoundCoordinate(x)
  {
    ToMilliOfDegrees(ToMilli(x));
  }

  /** Two rounded coordinates are equal exactly when their milli-degree keys are. */
  lemma RoundedEqualIffSameMilli(x: real, y: real)
    requires RoundCoordinate(x) == x && RoundCoordinate(y) == y
    ensures x == y <==> ToMilli(x) == ToMilli(y)
  {
  }
}
