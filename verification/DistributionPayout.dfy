/**
 * The payout formula of a distribution market: the ratio of two Gaussian densities, in floating point
 * (app/src/services/distribution.rs). The exponential is the one function left open.
 */
module DistributionPayout {
  function MinReal(a: real, b: real): real { if a <= b then a else b }

  /** What the payout formula can yield in floating point. */
  datatype Gross = Finite(amount: real) | Infinity | MinusInfinity | NotANumber

  const MIN_SIGMA: real := 0.000_001
  const MIN_DENSITY: real := 0.000_000_000_000_001
  const MAX_PAYOUT_RATIO: real := 10.0
  const ROOT_TWO_PI: real := 2.506_628_274_631

  /** What an exponential or a density can be in floating point: never negative, but infinite or no number. */
  type Density = d: Gross | d.Infinity? || d.NotANumber? || (d.Finite? && d.amount >= 0.0) witness Finite(0.0)

  /** A non-negative factor times a density. */
  function Scaled(factor: real, d: Density): (r: Density)
    requires factor >= 0.0
  {
    match d
    case Finite(x) => ScaledNonNegative(factor, x); Finite(factor * x)
    case Infinity => if factor == 0.0 then NotANumber else Infinity
    case NotANumber => NotANumber
  }

  lemma ScaledNonNegative(factor: real, x: real)
    requires factor >= 0.0 && x >= 0.0
    ensures factor * x >= 0.0
  {
  }

  /** The density of a Gaussian at `x`. */
  function Pdf(x: real, mu: real, sigma: real, exp: real -> Density): Density
  {
    if sigma < MIN_SIGMA then Finite(0.0)
    else
      var z := (x - mu) / sigma;
      assert sigma * ROOT_TWO_PI > 0.0;
      Scaled(1.0 / (sigma * ROOT_TWO_PI), exp(-0.5 * z * z))
  }

  predicate Vanishes(d: Density) { d.Finite? && d.amount < MIN_DENSITY }

  /** The quotient of two densities of which the second does not vanish. */
  function Quotient(a: Density, b: Density): Density
    requires !Vanishes(b)
  {
    if a.NotANumber? || b.NotANumber? || (a.Infinity? && b.Infinity?) then NotANumber
    else if a.Infinity? then Infinity
    else if b.Infinity? then Finite(0.0)
    else QuotientNonNegative(a.amount, b.amount); Finite(a.amount / b.amount)
  }

  lemma QuotientNonNegative(a: real, b: real)
    requires a >= 0.0 && b > 0.0
    ensures a / b >= 0.0
  {
  }

  /** `f64::min`, which takes the other operand for one that is no number. */
  function Limited(d: Density): real { if d.Finite? then MinReal(d.amount, MAX_PAYOUT_RATIO) else MAX_PAYOUT_RATIO }

  function Ratio(position: Density, market: Density): real
  {
    if Vanishes(market) then if Vanishes(position) then 1.0 else MAX_PAYOUT_RATIO
    else Limited(Quotient(position, market))
  }

  lemma RatioToItself(d: Density)
    requires d.Finite?
    ensures Ratio(d, d) == 1.0
  {
    if !Vanishes(d) {
      assert d.amount / d.amount == 1.0;
    }
  }

  /** A Gaussian curve. */
  datatype Curve = Curve(mu: real, sigma: real)

  function DensityAt(x: real, c: Curve, exp: real -> Density): Density { Pdf(x, c.mu, c.sigma, exp) }

  /** What a position of this size and curve is owed before the cap and the fee at the resolved value. */
  function GrossPayout(size: real, position: Curve, market: Curve, value: real, exp: real -> Density): Gross
  {
    Finite(size * Ratio(DensityAt(value, position, exp), DensityAt(value, market, exp)))
  }

  /**
   * Whatever the curves, the outcome and the exponential, the formula owes a finite amount between nothing and ten
   * times the size, and exactly the size to a position on the market's own curve where that density is a number.
   */
  lemma PayoutBounds(size: real, position: Curve, market: Curve, value: real, exp: real -> Density)
    requires size >= 0.0
    ensures
      var gross := GrossPayout(size, position, market, value, exp);
      && gross.Finite? && 0.0 <= gross.amount <= MAX_PAYOUT_RATIO * size
      && (position == market && DensityAt(value, market, exp).Finite? ==> gross == Finite(size))
  {
    hide Pdf;
    var ratio := Ratio(DensityAt(value, position, exp), DensityAt(value, market, exp));
    ScaledNonNegative(size, ratio);
    ScaledNonNegative(size, MAX_PAYOUT_RATIO - ratio);
    if position == market && DensityAt(value, market, exp).Finite? {
      RatioToItself(DensityAt(value, market, exp));
    }
  }
}
