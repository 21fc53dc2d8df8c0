/** Three-component vectors over the reals, standing in for glm::vec3 and the
    (x, y, z) double triples of the planets. Float rounding is not modelled. */
module Vectors {
  import opened Reals

  datatype Vec3 = Vec3(x: real, y: real, z: real)

  const Zero: Vec3 := Vec3(0.0, 0.0, 0.0)

  function Add(a: Vec3, b: Vec3): Vec3 {
    Vec3(a.x + b.x, a.y + b.y, a.z + b.z)
  }

  function Sub(a: Vec3, b: Vec3): Vec3 {
    Vec3(a.x - b.x, a.y - b.y, a.z - b.z)
  }

  /** glm's `v * s` and `s * v` for a scalar s. */
  function Scale(a: Vec3, s: real): Vec3 {
    Vec3(a.x * s, a.y * s, a.z * s)
  }

  function Dot(a: Vec3, b: Vec3): real {
    a.x * b.x + a.y * b.y + a.z * b.z
  }

  /** The squared Euclidean length, the radicand of glm::length. */
  function Norm2(a: Vec3): (r: real)
    ensures r >= 0.0
  {
    SquareNonNegative(a.x);
    SquareNonNegative(a.y);
    SquareNonNegative(a.z);
    Dot(a, a)
  }

  /** The squared distance between two points. */
  function SquaredDistance(p: Vec3, q: Vec3): real {
    Norm2(Sub(q, p))
  }

  lemma SquaredDistanceSymmetric(p: Vec3, q: Vec3)
    ensures SquaredDistance(p, q) == SquaredDistance(q, p)
    ensures SquaredDistance(p, p) == 0.0
  {
    Norm2Scale(Sub(q, p), -1.0);
    assert Sub(p, q) == Scale(Sub(q, p), -1.0);
  }

  lemma DotScale(a: Vec3, b: Vec3, s: real)
    ensures Dot(a, Scale(b, s)) == s * Dot(a, b)
    ensures Dot(Scale(a, s), b) == s * Dot(a, b)
  {
  }

  lemma DotSub(a: Vec3, b: Vec3, d: Vec3)
    ensures Dot(Sub(a, b), d) == Dot(a, d) - Dot(b, d)
  {
  }

  lemma Norm2Scale(a: Vec3, s: real)
    ensures Norm2(Scale(a, s)) == s * s * Norm2(a)
  {
    assert (a.x * s) * (a.x * s) == s * s * (a.x * a.x);
    assert (a.y * s) * (a.y * s) == s * s * (a.y * a.y);
    assert (a.z * s) * (a.z * s) == s * s * (a.z * a.z);
  }

  /** |v + c d|^2 = |v|^2 + 2c (v.d) + c^2 |d|^2 */
  lemma Norm2Shift(v: Vec3, d: Vec3, c: real)
    ensures Norm2(Add(v, Scale(d, c))) == Norm2(v) + 2.0 * c * Dot(v, d) + c * c * Norm2(d)
  {
    assert (v.x + d.x * c) * (v.x + d.x * c) == v.x * v.x + 2.0 * c * (v.x * d.x) + c * c * (d.x * d.x);
    assert (v.y + d.y * c) * (v.y + d.y * c) == v.y * v.y + 2.0 * c * (v.y * d.y) + c * c * (d.y * d.y);
    assert (v.z + d.z * c) * (v.z + d.z * c) == v.z * v.z + 2.0 * c * (v.z * d.z) + c * c * (d.z * d.z);
  }

  /** |v - c d|^2 = |v|^2 - 2c (v.d) + c^2 |d|^2 */
  lemma Norm2ShiftSub(v: Vec3, d: Vec3, c: real)
    ensures Norm2(Sub(v, Scale(d, c))) == Norm2(v) - 2.0 * c * Dot(v, d) + c * c * Norm2(d)
  {
    assert (v.x - d.x * c) * (v.x - d.x * c) == v.x * v.x - 2.0 * c * (v.x * d.x) + c * c * (d.x * d.x);
    assert (v.y - d.y * c) * (v.y - d.y * c) == v.y * v.y - 2.0 * c * (v.y * d.y) + c * c * (d.y * d.y);
    assert (v.z - d.z * c) * (v.z - d.z * c) == v.z * v.z - 2.0 * c * (v.z * d.z) + c * c * (d.z * d.z);
  }

  lemma ScaleScale(a: Vec3, s: real, t: real)
    ensures Scale(Scale(a, s), t) == Scale(a, s * t)
  {
  }

  lemma DotAddScale(v: Vec3, d: Vec3, c: real)
    ensures Dot(Add(v, Scale(d, c)), d) == Dot(v, d) + c * Norm2(d)
  {
    assert (v.x + d.x * c) * d.x == v.x * d.x + c * (d.x * d.x);
    assert (v.y + d.y * c) * d.y == v.y * d.y + c * (d.y * d.y);
    assert (v.z + d.z * c) * d.z == v.z * d.z + c * (d.z * d.z);
  }

  lemma ScaleScaleTo(a: Vec3, s: real, t: real, u: real)
    requires s * t == u
    ensures Scale(Scale(a, s), t) == Scale(a, u)
  {
    ScaleScale(a, s, t);
  }

  /** The relative velocity after an impulse exchange. */
  lemma ExchangeRelative(va: Vec3, vb: Vec3, j: Vec3, ia: real, ib: real)
    ensures Sub(Add(vb, Scale(j, ib)), Sub(va, Scale(j, ia))) == Add(Sub(vb, va), Scale(j, ia + ib))
  {
  }

  /** Half a velocity, then c halves more, is c + 1 halves. */
  lemma AddHalfScale(r: Vec3, v: Vec3, c: real)
    ensures Add(Add(r, Vec3(v.x / 2.0, v.y / 2.0, v.z / 2.0)), Scale(v, c / 2.0)) == Add(r, Scale(v, (c + 1.0) / 2.0))
  {
    HalfSteps(r.x, v.x, c);
    HalfSteps(r.y, v.y, c);
    HalfSteps(r.z, v.z, c);
  }

  lemma AddZero(a: Vec3)
    ensures Add(a, Zero) == a
  {
  }
}
