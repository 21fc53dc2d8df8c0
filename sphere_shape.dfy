/** The UV sphere both generators build (after songho.ca's algorithm):
    `stackCount + 1` rings of `sectorCount + 1` vertices, ring i at the
    stack angle pi/2 - i * pi/stackCount and vertex j of a ring at the sector
    angle j * 2pi/sectorCount. Pi, the cosine and the sine are inputs: the
    model does not compute transcendental functions. */
module SphereShape {
  import opened Vectors
  import opened Reals

  /** The value of pi and the trigonometric functions a generator uses. */
  datatype Trig = Trig(pi: real, cos: real -> real, sin: real -> real)

  /** The one identity of the two functions the lemmas rely on. */
  ghost predicate Pythagorean(t: Trig) {
    forall a :: t.cos(a) * t.cos(a) + t.sin(a) * t.sin(a) == 1.0
  }

  /** `angle / count`, the step between two stacks or two sectors; the
      generators are only modelled for positive counts, so the zero case
      is a placeholder. */
  function Step(angle: real, count: nat): real {
    if count == 0 then 0.0 else angle / count as real
  }

  /** `a / b` as a float quotient of two counts (zero for b = 0, see Step). */
  function Ratio(a: nat, b: nat): real {
    if b == 0 then 0.0 else a as real / b as real
  }

  function StackAngle(t: Trig, stacks: nat, i: nat): real {
    t.pi / 2.0 - i as real * Step(t.pi, stacks)
  }

  function SectorAngle(t: Trig, sectors: nat, j: nat): real {
    j as real * Step(2.0 * t.pi, sectors)
  }

  /** The position of vertex j of ring i. */
  function Position(t: Trig, radius: real, sectors: nat, stacks: nat, i: nat, j: nat): Vec3 {
    var xy := radius * t.cos(StackAngle(t, stacks, i));
    Vec3(xy * t.cos(SectorAngle(t, sectors, j)), xy * t.sin(SectorAngle(t, sectors, j)), radius * t.sin(StackAngle(t, stacks, i)))
  }

  /** The three floats a vertex occupies in a flat buffer. */
  function Flat(p: Vec3): seq<real> {
    [p.x, p.y, p.z]
  }

  /** The number of vertices of the sphere. */
  function VertexCount(sectors: nat, stacks: nat): nat {
    (stacks + 1) * (sectors + 1)
  }

  /** The texture coordinates of vertex j of ring i. */
  function TexCoord(sectors: nat, stacks: nat, i: nat, j: nat): seq<real> {
    [Ratio(j, sectors), Ratio(i, stacks)]
  }

  /** With cos^2 + sin^2 = 1, every vertex lies on the sphere of the given
      radius around the origin. */
  lemma OnSphere(t: Trig, radius: real, sectors: nat, stacks: nat, i: nat, j: nat)
    requires Pythagorean(t)
    ensures Norm2(Position(t, radius, sectors, stacks, i, j)) == radius * radius
  {
    var u := StackAngle(t, stacks, i);
    var v := SectorAngle(t, sectors, j);
    var xy := radius * t.cos(u);
    assert t.cos(v) * t.cos(v) + t.sin(v) * t.sin(v) == 1.0;
    assert t.cos(u) * t.cos(u) + t.sin(u) * t.sin(u) == 1.0;
    Circle(xy, t.cos(v), t.sin(v));
    Circle(radius, t.cos(u), t.sin(u));
  }

  lemma Circle(r: real, c: real, s: real)
    requires c * c + s * s == 1.0
    ensures (r * c) * (r * c) + (r * s) * (r * s) == r * r
  {
    assert (r * c) * (r * c) + (r * s) * (r * s) == r * r * (c * c + s * s);
  }

  /** A count divided by a positive count it does not exceed lies in [0, 1]. */
  lemma RatioInUnit(a: nat, b: nat)
    requires a <= b
    ensures 0.0 <= Ratio(a, b) <= 1.0
  {
    if b > 0 {
      var q := a as real / b as real;
      assert q * b as real == a as real;
      if q > 1.0 {
        assert q * b as real > b as real;
      }
    }
  }

  /** Every texture coordinate of every ring and sector lies in [0, 1]. */
  lemma TexCoordInUnit(sectors: nat, stacks: nat, i: nat, j: nat, k: nat)
    requires i <= stacks && j <= sectors && k < 2
    ensures 0.0 <= TexCoord(sectors, stacks, i, j)[k] <= 1.0
  {
    RatioInUnit(j, sectors);
    RatioInUnit(i, stacks);
  }
}
