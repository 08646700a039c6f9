/** Morse's two-stage hyperexponential variate `hyperx(x, s)`, the same function in
    G-M-1/gm1.py and M-G-1/mg1.py: mean x, standard deviation s > x. It mixes two
    exponentials, choosing the first (scale x / (1 - p)) when a uniform exceeds
    p = (1 - sqrt((z - 1) / (z + 1))) / 2, z = (s / x)^2, and the second (scale x / p)
    otherwise, and returns half the scale times a unit exponential.

    The random numbers are parameters: `u` is the uniform that picks the phase and
    `e` = -ln U is the unit exponential. `math.sqrt` is supplied as `root`, a non-negative
    number whose square is the argument. */
module Variates {
  import opened Outcomes
  import opened RealArith

  datatype HyperDraw = HyperDraw(u: real, e: real)

  /** The unit exponentials -ln U of the draws are non-negative. */
  ghost predicate UnitDraws(draws: seq<HyperDraw>)
  {
    forall i :: 0 <= i < |draws| ==> 0.0 <= draws[i].e
  }

  /** z = (s / x)^2, the squared coefficient of variation. */
  function CvSquared(x: real, s: real): real
    requires x != 0.0
  {
    (s / x) * (s / x)
  }

  /** (z - 1) / (z + 1), the argument of the square root. */
  function RootArgument(x: real, s: real): real
    requires x != 0.0
  {
    CvSquaredNonNegative(x, s);
    (CvSquared(x, s) - 1.0) / (CvSquared(x, s) + 1.0)
  }

  ghost predicate IsSqrt(root: real, a: real)
  {
    0.0 <= root && root * root == a
  }

  /** The square root hyperx takes is supplied whenever hyperx gets as far as taking it. */
  ghost predicate RootSupplied(x: real, s: real, root: real)
  {
    s > x && x != 0.0 && RootArgument(x, s) >= 0.0 ==> IsSqrt(root, RootArgument(x, s))
  }

  /** p, the probability of the second phase. */
  function PhaseProbability(root: real): real
  {
    0.5 * (1.0 - root)
  }

  /** The scale of the phase the uniform u selects. */
  function PhaseScale(x: real, p: real, u: real): real
    requires 0.0 < p < 1.0
  {
    if u > p then x / (1.0 - p) else x / p
  }

  /** hyperx(x, s). The guard fails before anything is drawn when s <= x; x = 0 divides by
      zero in s / x; a negative square-root argument (0 < -s < -x is impossible, but a negative
      mean with s < -x gives z < 1) is a math domain error. */
  function Hyperx(x: real, s: real, root: real, d: HyperDraw): (r: Result<real>)
    requires RootSupplied(x, s, root)
    ensures s <= x ==> r == Err(InvalidDistribution)
    ensures r.Ok? <==> s > x && x != 0.0 && s + x >= 0.0
    ensures r.Ok? && 0.0 < x && 0.0 <= d.e ==> 0.0 <= r.value
  {
    if s <= x then Err(InvalidDistribution)
    else if x == 0.0 then Err(ZeroDivision)
    else if RootArgument(x, s) < 0.0 then
      RootArgumentSign(x, s);
      Err(MathDomain)
    else
      RootArgumentSign(x, s);
      RootArgumentBelowOne(x, s);
      PhaseProbabilityBounds(root);
      var p := PhaseProbability(root);
      var scale := PhaseScale(x, p, d.u);
      assert 0.0 < x ==> 0.0 < scale;
      assert 0.0 < x && 0.0 <= d.e ==> 0.0 <= 0.5 * scale * d.e by {
        if 0.0 < x && 0.0 <= d.e {
          MulNonNegative(0.5 * scale, d.e);
        }
      }
      Ok(0.5 * scale * d.e)
  }

  lemma CvSquaredNonNegative(x: real, s: real)
    requires x != 0.0
    ensures 0.0 <= CvSquared(x, s)
  {
    var c := s / x;
    if c < 0.0 {
      assert c * c == (-c) * (-c);
      MulNonNegative(-c, -c);
    } else {
      MulNonNegative(c, c);
    }
  }

  /** The square-root argument is non-negative exactly when |s| >= |x|; under the guard
      s > x that is s + x >= 0. */
  lemma RootArgumentSign(x: real, s: real)
    requires x != 0.0 && s > x
    ensures RootArgument(x, s) >= 0.0 <==> s + x >= 0.0
  {
    CvSquaredNonNegative(x, s);
    var z := CvSquared(x, s);
    var c := s / x;
    assert c * x == s;
    assert z >= 1.0 <==> RootArgument(x, s) >= 0.0 by {
      assert (z - 1.0) / (z + 1.0) * (z + 1.0) == z - 1.0;
      SignOfQuotient(z - 1.0, z + 1.0);
    }
    // z - 1 = (s - x)(s + x) / x^2
    assert (s - x) * (s + x) == s * s - x * x;
    assert s * s == z * (x * x);
    SquarePositive(x);
    assert z >= 1.0 <==> s * s >= x * x by {
      ScaleCompare(z, 1.0, x * x);
    }
    ProductSign(s - x, s + x);
  }

  lemma RootArgumentBelowOne(x: real, s: real)
    requires x != 0.0
    ensures RootArgument(x, s) < 1.0
  {
    CvSquaredNonNegative(x, s);
    var w := CvSquared(x, s) + 1.0;
    assert (w - 2.0) / w == 1.0 - 2.0 / w;
    assert 2.0 / w > 0.0;
  }

  /** With root the square root of a number in [0, 1), p lies in (0, 1/2], so neither
      phase divides by zero. */
  lemma PhaseProbabilityBounds(root: real)
    requires 0.0 <= root && root * root < 1.0
    ensures 0.0 < PhaseProbability(root) <= 0.5
  {
    assert (1.0 + root) * (1.0 - root) == 1.0 - root * root;
    ProductSign(1.0 + root, 1.0 - root);
  }

  /** Mean of -0.5 * z * ln U, U uniform on (0, 1]: half the scale. */
  function ExpMean(scale: real): real
  {
    0.5 * scale
  }

  /** Second moment of -0.5 * z * ln U: twice the squared mean. */
  function ExpSecondMoment(scale: real): real
  {
    2.0 * ExpMean(scale) * ExpMean(scale)
  }

  /** Whatever the phase probability p (q = 1 - p), the mixture of the two phases that
      PhaseScale selects, the first (any u1 > p) taken with probability q and the second
      (any u2 <= p) with probability p, has mean exactly x. */
  lemma MixtureMean(x: real, p: real, q: real, u1: real, u2: real)
    requires 0.0 < p < 1.0 && q == 1.0 - p && u1 > p && u2 <= p
    ensures q * ExpMean(PhaseScale(x, p, u1)) + p * ExpMean(PhaseScale(x, p, u2)) == x
  {
    assert PhaseScale(x, p, u1) == x / q && PhaseScale(x, p, u2) == x / p;
    assert q * (x / q) == x;
    assert p * (x / p) == x;
  }

  /** With p computed from the supplied square root, the mixture's second moment over the
      two phases PhaseScale selects (u1 > p, u2 <= p) is x^2 + s^2: the variate has mean x
      and standard deviation s as documented. (0 < p < 1 already follows from the other
      requirements, by PhaseProbabilityBounds; it is repeated so that PhaseScale applies.) */
  lemma MixtureSecondMoment(x: real, s: real, root: real, p: real, q: real, u1: real, u2: real)
    requires s > x && x != 0.0 && s + x >= 0.0
    requires IsSqrt(root, RootArgument(x, s))
    requires p == PhaseProbability(root) && q == 1.0 - p && 0.0 < p < 1.0
    requires u1 > p && u2 <= p
    ensures q * ExpSecondMoment(PhaseScale(x, p, u1)) + p * ExpSecondMoment(PhaseScale(x, p, u2))
         == x * x + s * s
  {
    assert PhaseScale(x, p, u1) == x / q && PhaseScale(x, p, u2) == x / p;
    RootArgumentBelowOne(x, s);
    PhaseProbabilityBounds(root);
    CvSquaredNonNegative(x, s);
    var z := CvSquared(x, s);
    var c := 0.5 * (x * x);
    PhaseSecondMoment(x, p, q, c);
    PhaseProduct(x, s, root, p, q);
    assert s * s == z * (x * x) by {
      assert (s / x) * x == s;
    }
    InverseProduct(x, p, q, z, c);
  }

  /** p q = (1 - root^2) / 4 = (1 - a) / 4 = 1 / (2 (z + 1)), a the root argument. */
  lemma PhaseProduct(x: real, s: real, root: real, p: real, q: real)
    requires x != 0.0 && IsSqrt(root, RootArgument(x, s))
    requires p == PhaseProbability(root) && q == 1.0 - p
    ensures p * q * (2.0 * (CvSquared(x, s) + 1.0)) == 1.0
  {
    CvSquaredNonNegative(x, s);
    var z := CvSquared(x, s);
    var a := RootArgument(x, s);
    assert p * q == 0.25 * (1.0 - a);
    assert a * (z + 1.0) == z - 1.0;
    assert (1.0 - a) * (z + 1.0) == 2.0;
  }

  lemma PhaseSecondMoment(x: real, p: real, q: real, c: real)
    requires 0.0 < p < 1.0 && q == 1.0 - p && c == 0.5 * (x * x)
    ensures q * ExpSecondMoment(x / q) + p * ExpSecondMoment(x / p) == c / (p * q)
  {
    WeightedSecondMoment(x, q);
    WeightedSecondMoment(x, p);
    AddFractions(c, p, q);
  }

  /** w * ExpSecondMoment(x / w) == x^2 / (2 w). */
  lemma WeightedSecondMoment(x: real, w: real)
    requires 0.0 < w
    ensures w * ExpSecondMoment(x / w) == 0.5 * (x * x) / w
  {
    var y := x / w;
    assert x == y * w;
    assert ExpSecondMoment(y) == 0.5 * (y * y);
    assert x * x == (y * y) * (w * w);
    assert 0.5 * (x * x) / w == 0.5 * (y * y) * w;
  }

  lemma AddFractions(c: real, p: real, q: real)
    requires 0.0 < p && 0.0 < q && p + q == 1.0
    ensures c / q + c / p == c / (p * q)
  {
    var k := p * q;
    assert (c / q) * k == c * p;
    assert (c / p) * k == c * q;
    assert (c / q + c / p) * k == c;
    assert (c / k) * k == c;
    Cancel(c / q + c / p, c / k, k);
  }

  lemma InverseProduct(x: real, p: real, q: real, z: real, c: real)
    requires 0.0 < p && 0.0 < q && 0.0 <= z && c == 0.5 * (x * x)
    requires p * q * (2.0 * (z + 1.0)) == 1.0
    ensures c / (p * q) == x * x + z * (x * x)
  {
    var k := p * q;
    assert (c / k) * k == c;
    assert (x * x + z * (x * x)) * k == c by {
      assert (x * x + z * (x * x)) == (x * x) * (z + 1.0);
      assert k * (z + 1.0) == 0.5;
    }
    Cancel(c / k, x * x + z * (x * x), k);
  }
}
