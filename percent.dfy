/**
 * The percentages the application computes as `(part / whole) * 100` on
 * JavaScript numbers, kept exact: a ratio with a positive denominator, or
 * one of the three non-finite results a division by zero gives. Every
 * comparison against a threshold is decided by cross-multiplication.
 */
module Percentages {

  datatype Percent = Ratio(num: int, den: int) | PosInfinity | NegInfinity | NotANumber

  /** Ratios have a positive denominator. */
  predicate Valid(p: Percent) {
    p.Ratio? ==> p.den > 0
  }

  /** `(part / whole) * 100`. */
  function PercentOf(part: int, whole: int): (p: Percent)
    ensures Valid(p)
    ensures p.Ratio? <==> whole != 0
    ensures p.Ratio? ==> p.num * whole == 100 * part * p.den
    ensures p.PosInfinity? <==> whole == 0 && part > 0
    ensures p.NegInfinity? <==> whole == 0 && part < 0
    ensures p.NotANumber? <==> whole == 0 && part == 0
  {
    if whole > 0 then Ratio(100 * part, whole)
    else if whole < 0 then Ratio(-100 * part, -whole)
    else if part > 0 then PosInfinity
    else if part < 0 then NegInfinity
    else NotANumber
  }

  /** `p >= k` on numbers: false for `NaN`, true for `Infinity`. */
  predicate AtLeast(p: Percent, k: int) {
    match p
    case Ratio(n, d) => n >= k * d
    case PosInfinity => true
    case NegInfinity => false
    case NotANumber => false
  }

  /** `p <= k` on numbers: false for `NaN`, true for `-Infinity`. */
  predicate AtMost(p: Percent, k: int) {
    match p
    case Ratio(n, d) => n <= k * d
    case PosInfinity => false
    case NegInfinity => true
    case NotANumber => false
  }

  /** With a positive whole, a threshold comparison is cross-multiplication. */
  lemma AtLeastCrossMultiply(part: int, whole: int, k: int)
    requires whole > 0
    ensures AtLeast(PercentOf(part, whole), k) <==> 100 * part >= k * whole
  {
  }

  lemma AtMostCrossMultiply(part: int, whole: int, k: int)
    requires whole > 0
    ensures AtMost(PercentOf(part, whole), k) <==> 100 * part <= k * whole
  {
  }

  /** A valid percentage that is not at most `k` is at least `k`: one of the two holds unless it is `NaN`. */
  lemma AtLeastOrAtMost(p: Percent, k: int)
    requires Valid(p) && !p.NotANumber?
    ensures AtLeast(p, k) || AtMost(p, k)
  {
  }

  /** Comparisons are monotone in the threshold. */
  lemma AtLeastWeaken(p: Percent, k: int, j: int)
    requires Valid(p) && j <= k && AtLeast(p, k)
    ensures AtLeast(p, j)
  {
    if p.Ratio? {
      assert j * p.den <= k * p.den by {
        MulLe(j, k, p.den);
      }
    }
  }

  lemma AtMostWeaken(p: Percent, k: int, j: int)
    requires Valid(p) && k <= j && AtMost(p, k)
    ensures AtMost(p, j)
  {
    if p.Ratio? {
      assert k * p.den <= j * p.den by {
        MulLe(k, j, p.den);
      }
    }
  }

  lemma MulLe(a: int, b: int, c: int)
    requires a <= b && c > 0
    ensures a * c <= b * c
  {
  }

  /** For a non-negative whole, a larger part never gives a smaller percentage. */
  lemma AtLeastMonotone(part1: int, part2: int, whole: int, k: int)
    requires part1 <= part2 && whole >= 0
    requires AtLeast(PercentOf(part1, whole), k)
    ensures AtLeast(PercentOf(part2, whole), k)
  {
    if whole > 0 {
      assert 100 * part1 <= 100 * part2;
    }
  }

  /** `Math.min(p, 100)`: `NaN` stays `NaN`. */
  function CapAt100(p: Percent): (r: Percent)
    requires Valid(p)
    ensures Valid(r)
    ensures r.NotANumber? <==> p.NotANumber?
    ensures !p.NotANumber? ==> AtMost(r, 100)
    ensures AtMost(p, 100) ==> r == p
    ensures !p.NotANumber? && !AtMost(p, 100) ==> r == Ratio(100, 1)
  {
    if AtMost(p, 100) || p.NotANumber? then p else Ratio(100, 1)
  }
}
