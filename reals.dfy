/** Facts about real arithmetic that the solver does not find on its own
    once products and quotients of variables are involved. Each is stated on
    plain reals so that a caller passes exactly the terms it needs. */
module Reals {

  lemma SquareNonNegative(v: real)
    ensures v * v >= 0.0
  {
    if v < 0.0 {
      assert (-v) * (-v) > 0.0;
      assert v * v == (-v) * (-v);
    }
  }

  lemma ProductNonNegative(a: real, b: real)
    requires a >= 0.0 && b >= 0.0
    ensures a * b >= 0.0
  {
  }

  lemma ProductPositive(a: real, b: real)
    requires a > 0.0 && b > 0.0
    ensures a * b > 0.0
  {
  }

  /** Squaring preserves the order of non-negative reals, both ways. */
  lemma SquareMonotone(u: real, w: real)
    requires u >= 0.0 && w >= 0.0
    ensures u <= w <==> u * u <= w * w
  {
    if u <= w {
      ProductNonNegative(w - u, w + u);
      assert (w - u) * (w + u) == w * w - u * u;
    } else {
      ProductPositive(u - w, u + w);
      assert (u - w) * (u + w) == u * u - w * w;
    }
  }

  lemma DivMulCancel(x: real, y: real)
    requires y != 0.0
    ensures (x / y) * y == x
    ensures x * y / y == x
  {
  }

  lemma MulCancel(a: real, b: real, c: real)
    requires c != 0.0 && a * c == b * c
    ensures a == b
  {
    assert (a - b) * c == 0.0;
  }

  lemma DivCongruence(x: real, y: real, z: real)
    requires z != 0.0 && x == y
    ensures x / z == y / z
  {
  }

  lemma SumOfQuotients(x: real, y: real, p: real, q: real)
    requires p != 0.0 && q != 0.0
    ensures x / p + y / q == (x * q + y * p) / (p * q)
  {
    var l := x / p + y / q;
    assert l * (p * q) == x * q + y * p by {
      assert (x / p) * p == x;
      assert (y / q) * q == y;
      assert l * (p * q) == ((x / p) * p) * q + ((y / q) * q) * p;
    }
  }

  /** Sums of quotients by the same non-zero divisors agree when their
      cross-multiplied numerators agree. */
  lemma QuotientSumsAgree(x: real, y: real, x': real, y': real, p: real, q: real)
    requires p != 0.0 && q != 0.0 && x * q + y * p == x' * q + y' * p
    ensures x / p + y / q == x' / p + y' / q
  {
    SumOfQuotients(x, y, p, q);
    SumOfQuotients(x', y', p, q);
    assert p * q != 0.0;
    DivCongruence(x * q + y * p, x' * q + y' * p, p * q);
  }

  /** Scaling by the reciprocal of a positive length keeps the sign. */
  lemma ReciprocalScaleSign(len: real, x: real)
    requires len > 0.0
    ensures (1.0 / len) * x > 0.0 <==> x > 0.0
  {
    assert 1.0 / len > 0.0;
    if x > 0.0 {
      ProductPositive(1.0 / len, x);
    } else {
      ProductNonNegative(1.0 / len, -x);
      assert (1.0 / len) * (-x) == -((1.0 / len) * x);
    }
  }

  /** The impulse scale along the unit normal d/len (alongNormal = x/len for
      x the relative velocity along d), divided once more by len, is the
      square-root-free coefficient k over len*len = |d|^2. */
  lemma NormalCoefficient(e: real, x: real, alongNormal: real, len: real, nd: real, ims: real, k: real)
    requires len > 0.0 && ims != 0.0 && nd == len * len
    requires alongNormal == (1.0 / len) * x
    requires nd * ims != 0.0 && k == -(1.0 + e) * x / (nd * ims)
    ensures (1.0 / len) * (-(1.0 + e) * alongNormal / ims) == k
  {
    var j := -(1.0 + e) * alongNormal / ims;
    DivMulCancel(-(1.0 + e) * x, nd * ims);
    DivMulCancel(-(1.0 + e) * alongNormal, ims);
    assert j * ims == -(1.0 + e) * ((1.0 / len) * x);
    assert len * (1.0 / len) == 1.0;
    assert ((1.0 / len) * j) * (nd * ims) == (j * ims) * len * (len * (1.0 / len));
    assert ((1.0 / len) * j) * (nd * ims) == -(1.0 + e) * x;
    assert k * (nd * ims) == -(1.0 + e) * x;
    MulCancel((1.0 / len) * j, k, nd * ims);
  }

  /** The coefficient times the denominator it was divided by. */
  lemma CoefficientCancels(k: real, c: real, nd: real, ims: real)
    requires nd != 0.0 && ims != 0.0 && k == c / (nd * ims)
    ensures (k * ims) * nd == c
  {
    assert nd * ims != 0.0;
    DivMulCancel(c, nd * ims);
    assert k * (nd * ims) == c;
  }

  /** One component of momentum (v / invMass) across an impulse exchange. */
  lemma MomentumComponent(va: real, vb: real, p: real, ia: real, ib: real)
    requires ia != 0.0 && ib != 0.0
    ensures (va - p * ia) * (1.0 / ia) + (vb + p * ib) * (1.0 / ib)
            == va * (1.0 / ia) + vb * (1.0 / ib)
  {
    ReciprocalCancel(p, ia);
    ReciprocalCancel(p, ib);
    assert (va - p * ia) * (1.0 / ia) == va * (1.0 / ia) - (p * ia) * (1.0 / ia);
    assert (vb + p * ib) * (1.0 / ib) == vb * (1.0 / ib) + (p * ib) * (1.0 / ib);
  }

  lemma ReciprocalCancel(p: real, i: real)
    requires i != 0.0
    ensures (p * i) * (1.0 / i) == p
  {
    assert (p * i) * (1.0 / i) == p * (i * (1.0 / i));
    assert i * (1.0 / i) == 1.0;
  }

  /** The impulse J = k d meets 2 (vrel . J) + ims |J|^2 == 0 when
      k ims |d|^2 == -(1 + e) (vrel . d) and e == 1. */
  lemma ElasticCondition(e: real, qa: real, qb: real, p: real, da: real, db: real, nd: real, k: real, ims: real)
    requires e == 1.0
    requires qa == k * da && qb == k * db && p == k * k * nd
    requires (k * ims) * nd == -(1.0 + e) * (db - da)
    ensures 2.0 * (qb - qa) + ims * p == 0.0
  {
    assert ims * p == k * ((k * ims) * nd);
  }

  /** The energy balance of an impulse exchange: with the squared speeds
      expanded, the mass-weighted sum is unchanged when the impulse meets the
      elastic condition. */
  lemma EnergyBalance(na: real, nb: real, qa: real, qb: real, p: real, ia: real, ib: real)
    requires ia != 0.0 && ib != 0.0
    requires 2.0 * (qb - qa) + (ia + ib) * p == 0.0
    ensures (na - 2.0 * ia * qa + ia * ia * p) / ia + (nb + 2.0 * ib * qb + ib * ib * p) / ib
            == na / ia + nb / ib
  {
    var na', nb' := na - 2.0 * ia * qa + ia * ia * p, nb + 2.0 * ib * qb + ib * ib * p;
    assert na' * ib + nb' * ia == na * ib + nb * ia + ia * ib * (2.0 * (qb - qa) + (ia + ib) * p);
    QuotientSumsAgree(na', nb', na, nb, ia, ib);
  }

  /** Non-negative reals with equal squares are equal. */
  lemma SquareInjective(d: real, e: real)
    requires d >= 0.0 && e >= 0.0 && d * d == e * e
    ensures d == e
  {
    SquareMonotone(d, e);
    SquareMonotone(e, d);
  }

  /** One more half step: r + v/2 + v (c/2) == r + v ((c + 1)/2). */
  lemma HalfSteps(r: real, v: real, c: real)
    ensures r + v / 2.0 + v * (c / 2.0) == r + v * ((c + 1.0) / 2.0)
  {
    assert v * ((c + 1.0) / 2.0) == v * (c / 2.0) + v * (1.0 / 2.0);
  }

  /** The gravitational pull m G / d t is positive for positive factors. */
  lemma PullPositive(m: real, g: real, d: real, t: real)
    requires m > 0.0 && g > 0.0 && d > 0.0 && t > 0.0
    ensures m * g / d * t > 0.0
  {
    ProductPositive(m, g);
    assert m * g / d > 0.0;
    ProductPositive(m * g / d, t);
  }

  /** For d the square root of r, d < s exactly when s is positive and r is
      below s squared. */
  lemma RootBelow(r: real, d: real, s: real)
    requires d >= 0.0 && d * d == r
    ensures (s > 0.0 && r < s * s) <==> d < s
  {
    if s > 0.0 {
      SquareMonotone(s, d);
    }
  }

  lemma QuotientPositive(a: real, b: real)
    requires a > 0.0 && b > 0.0
    ensures a / b > 0.0
  {
  }
}
