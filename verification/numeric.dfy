/** The two numeric building blocks the schedule's stage functions are made
    of: two-point clamped interpolation (numpy.interp) and exponential
    relaxation toward a floor. Floating point is modelled by `real`. */
module Numeric {

  /** r lies in the closed interval spanned by a and b, in either order. */
  predicate Between(r: real, a: real, b: real) {
    (a <= r <= b) || (b <= r <= a)
  }

  /** numpy.interp(x, [x0, x1], [y0, y1]): below the first sample point the
      left value, above the last the right value, linear in between. The
      branches follow numpy's own: out-of-range tests first, then the exact
      right end, then `slope * (x - x0) + y0`. */
  function Interp(x: real, x0: real, x1: real, y0: real, y1: real): (r: real)
    requires x0 < x1
    ensures x <= x0 ==> r == y0
    ensures x1 <= x ==> r == y1
    ensures x0 <= x <= x1 ==> (r - y0) * (x1 - x0) == (y1 - y0) * (x - x0)
    ensures Between(r, y0, y1)
  {
    if x < x0 then y0
    else if x1 < x then y1
    else if x == x1 then y1
    else
      var slope := (y1 - y0) / (x1 - x0);
      SlopeStep(x, x0, x1, y0, y1);
      slope * (x - x0) + y0
  }

  /** The interior branch of Interp stays between the two end values and
      satisfies the two-point line equation. */
  lemma SlopeStep(x: real, x0: real, x1: real, y0: real, y1: real)
    requires x0 <= x < x1
    ensures var r := (y1 - y0) / (x1 - x0) * (x - x0) + y0;
      && (r - y0) * (x1 - x0) == (y1 - y0) * (x - x0)
      && Between(r, y0, y1)
  {
    var w := x1 - x0;
    var t := (x - x0) / w;
    FractionBounds(x - x0, w);
    assert (y1 - y0) / w * (x - x0) == (y1 - y0) * t;
    var r := (y1 - y0) * t + y0;
    assert (r - y0) * w == (y1 - y0) * (t * w);
    if y0 <= y1 {
      MulBelow(y1 - y0, t);
    } else {
      MulBelow(y0 - y1, t);
    }
  }

  /** A fraction whose numerator lies in [0, d) lies in [0, 1). */
  lemma FractionBounds(n: real, d: real)
    requires 0.0 <= n < d
    ensures 0.0 <= n / d < 1.0
    ensures n / d * d == n
  {
  }

  /** Scaling a non-negative number by a factor in [0, 1] keeps it in [0, a]. */
  lemma MulBelow(a: real, t: real)
    requires 0.0 <= a && 0.0 <= t <= 1.0
    ensures 0.0 <= a * t <= a
  {
    assert a * (1.0 - t) >= 0.0;
  }

  /** The product of two non-negative numbers is non-negative, and of two
      positive numbers positive. */
  lemma MulSign(a: real, b: real)
    requires 0.0 <= a && 0.0 <= b
    ensures 0.0 <= a * b
    ensures 0.0 < a && 0.0 < b ==> 0.0 < a * b
  {
  }

  /** Multiplying by a positive number preserves strict order. */
  lemma MulStrict(a: real, b: real, c: real)
    requires 0.0 < a && b < c
    ensures a * b < a * c
  {
    assert a * (c - b) > 0.0;
  }

  /** Interpolation at the midpoint of the domain gives the mean of the two
      end values. */
  lemma InterpMidpoint(x0: real, x1: real, y0: real, y1: real)
    requires x0 < x1
    ensures Interp((x0 + x1) / 2.0, x0, x1, y0, y1) == (y0 + y1) / 2.0
  {
    var m := (x0 + x1) / 2.0;
    var r := Interp(m, x0, x1, y0, y1);
    assert (r - y0) * (x1 - x0) == (y1 - y0) * ((x1 - x0) / 2.0);
    assert (r - y0) * (x1 - x0) == ((y1 - y0) / 2.0) * (x1 - x0);
    CancelPositive(r - y0, (y1 - y0) / 2.0, x1 - x0);
  }

  /** Interpolation between a lower and a higher value never decreases. */
  lemma InterpMonotone(x: real, x': real, x0: real, x1: real, y0: real, y1: real)
    requires x0 < x1 && y0 <= y1 && x <= x'
    ensures Interp(x, x0, x1, y0, y1) <= Interp(x', x0, x1, y0, y1)
  {
    var r, r' := Interp(x, x0, x1, y0, y1), Interp(x', x0, x1, y0, y1);
    if x0 <= x && x' <= x1 {
      var w := x1 - x0;
      assert (r' - r) * w == (y1 - y0) * (x' - x);
      MulSign(y1 - y0, x' - x);
      NonNegFactor(r' - r, w);
    }
  }

  /** A product with a positive factor is non-negative only if the other
      factor is. */
  lemma NonNegFactor(a: real, w: real)
    requires 0.0 < w && 0.0 <= a * w
    ensures 0.0 <= a
  {
    if a < 0.0 {
      MulStrict(w, a, 0.0);
    }
  }

  lemma CancelPositive(a: real, b: real, c: real)
    requires c > 0.0 && a * c == b * c
    ensures a == b
  {
    assert (a - b) * c == 0.0;
  }

  /** What the schedule needs of the exponential function: exp(0) = 1, it is
      positive and strictly increasing. Nothing else about exp is assumed. */
  ghost predicate ExpLike(exp: real -> real) {
    && exp(0.0) == 1.0
    && (forall y :: exp(y) > 0.0)
    && (forall y, z :: y < z ==> exp(y) < exp(z))
  }

  /** Exponential relaxation from `rate` at `start` toward `floor`:
      (rate - floor) * exp(-(decayRate * (x - start))) + floor. */
  function Relax(x: real, start: real, decayRate: real, floor: real, rate: real, exp: real -> real): real
  {
    (rate - floor) * exp(-(decayRate * (x - start))) + floor
  }

  lemma ExpFacts(exp: real -> real, y: real, z: real)
    requires ExpLike(exp)
    ensures exp(y) > 0.0
    ensures y < z ==> exp(y) < exp(z)
  {
  }

  /** Relaxation starts at `rate`, stays strictly above a lower floor, and
      from its start on never exceeds its starting rate. */
  lemma RelaxBounds(x: real, start: real, decayRate: real, floor: real, rate: real, exp: real -> real)
    requires ExpLike(exp)
    ensures Relax(start, start, decayRate, floor, rate, exp) == rate
    ensures floor < rate ==> floor < Relax(x, start, decayRate, floor, rate, exp)
    ensures 0.0 <= decayRate && start <= x && floor <= rate
      ==> Relax(x, start, decayRate, floor, rate, exp) <= rate
  {
    assert -(decayRate * (start - start)) == 0.0;
    var y := -(decayRate * (x - start));
    assert Relax(x, start, decayRate, floor, rate, exp) == (rate - floor) * exp(y) + floor;
    ExpFacts(exp, y, 0.0);
    if floor < rate {
      MulSign(rate - floor, exp(y));
    }
    if 0.0 <= decayRate && start <= x && floor <= rate {
      MulSign(decayRate, x - start);
      assert exp(y) <= 1.0;
      var a, t := rate - floor, exp(y);
      MulBelow(a, t);
      assert a * t + floor <= rate;
    }
  }

  /** With a positive decay rate and a start above the floor, relaxation is
      strictly decreasing. */
  lemma RelaxDecreasing(x: real, x': real, start: real, decayRate: real, floor: real, rate: real, exp: real -> real)
    requires ExpLike(exp) && 0.0 < decayRate && floor < rate && x < x'
    ensures Relax(x', start, decayRate, floor, rate, exp) < Relax(x, start, decayRate, floor, rate, exp)
  {
    var y, y' := -(decayRate * (x - start)), -(decayRate * (x' - start));
    assert y' - y == decayRate * (x - x');
    MulStrict(decayRate, x - x', 0.0);
    assert y' < y;
    ExpFacts(exp, y', y);
    var a, e', e := rate - floor, exp(y'), exp(y);
    assert 0.0 < a && e' < e;
    MulStrict(a, e', e);
    assert Relax(x', start, decayRate, floor, rate, exp) == a * e' + floor;
    assert Relax(x, start, decayRate, floor, rate, exp) == a * e + floor;
  }
}
