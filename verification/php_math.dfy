/**
 * Integer counterparts of the PHP numeric built-ins the paginator applies to
 * halves of integers. PHP computes `floor(n / 2)` and `round(n / 2.0)` on
 * doubles; while |n| <= 2^53 those doubles are exact, so within that range the
 * results below are the same numbers without any floating point.
 */
module PhpMath {

  /** PHP `floor(n / 2)`: the largest integer not above n / 2. */
  function FloorHalf(n: int): (r: int)
    ensures 2 * r <= n < 2 * r + 2
  {
    n / 2
  }

  /**
   * PHP `round(n / 2.0)`: the integer nearest to n / 2; a tie (odd n) is
   * rounded away from zero, so round(0.5) = 1 but round(-0.5) = -1.
   */
  function RoundHalf(n: int): (r: int)
    ensures n - 1 <= 2 * r <= n + 1
    ensures n % 2 == 1 ==> (2 * r == n + 1 <==> n > 0)
  {
    if n >= 0 then (n + 1) / 2 else n / 2
  }

  /**
   * The integer nearest to n / 2 with a tie rounded up, so that both 0.5
   * and -0.5 go to the integer above. Not a PHP built-in: the corrected
   * right trigger of the layout uses it (see PageLayout.IntendedLayout).
   */
  function RoundHalfUp(n: int): (r: int)
    ensures n - 1 <= 2 * r <= n + 1
    ensures n % 2 == 1 ==> 2 * r == n + 1
  {
    (n + 1) / 2
  }

  /** PHP `min` on two integers. */
  function Min(a: int, b: int): (m: int)
  {
    if a <= b then a else b
  }

  /** PHP `max` on two integers. */
  function Max(a: int, b: int): (m: int)
  {
    if a >= b then a else b
  }

  /** The two roundings differ exactly on the negative ties. */
  lemma RoundingsDifferOnlyOnNegativeTies(n: int)
    ensures RoundHalf(n) != RoundHalfUp(n) <==> n < 0 && n % 2 == 1
  {
  }
}
