/** `makeTangents` (src/neutron/planet.h): per-vertex tangents for normal
    mapping, accumulated over the corners of an indexed triangle list. The
    buffers are flat float arrays that the source reads through vec2, vec3
    and vec4 pointer casts; the model keeps the floats and reads vertex v at
    offsets 2v, 3v or 4v. `normalize` and the `acos`-of-lengths angle are
    inputs, since the model does not take square roots. */
module SphereTangents {
  import opened Vectors
  import opened Wrappers

  /** One vec4 of the tangent buffer: direction and handedness. */
  datatype Tangent = Tangent(xyz: Vec3, w: real)

  /** glm's `normalize`, and the angle between two vectors. */
  datatype TangentMath = TangentMath(normalize: Vec3 -> Vec3, angle: (Vec3, Vec3) -> real)

  /** The positions, normals and texture coordinates the corners refer to. */
  datatype Attributes = Attributes(positions: seq<real>, normals: seq<real>, texCoords: seq<real>)

  function Vec3At(s: seq<real>, v: nat): Vec3
    requires 3 * v + 2 < |s|
  {
    Vec3(s[3 * v], s[3 * v + 1], s[3 * v + 2])
  }

  function TangentAt(s: seq<real>, v: nat): Tangent
    requires 4 * v + 3 < |s|
  {
    Tangent(Vec3(s[4 * v], s[4 * v + 1], s[4 * v + 2]), s[4 * v + 3])
  }

  /** Float c of a vec4. */
  function Lane(t: Tangent, c: nat): real
    requires c < 4
  {
    if c == 0 then t.xyz.x else if c == 1 then t.xyz.y else if c == 2 then t.xyz.z else t.w
  }

  /** Every vertex an index names has a position, a normal and texture
      coordinates. */
  ghost predicate Covered(a: Attributes, ix: seq<nat>) {
    forall l :: 0 <= l < |ix| ==>
      3 * ix[l] + 2 < |a.positions| && 3 * ix[l] + 2 < |a.normals| && 2 * ix[l] + 1 < |a.texCoords|
  }

  /** ... and a whole vec4 in a tangent buffer of that many floats. */
  ghost predicate Room(ix: seq<nat>, floats: nat) {
    forall l :: 0 <= l < |ix| ==> 4 * ix[l] + 3 < floats
  }

  /** The position of the corner d steps after corner l within l's triangle. */
  function Corner(l: nat, d: nat): nat {
    (l + d) % 3 + l / 3 * 3
  }

  /** For a list of whole triangles, the two partners of a corner are the
      other two corners of the same triangle: they lie in the list and in
      the same group of three, and the three positions are distinct. */
  lemma CornerSameTriangle(l: nat, n: nat)
    requires n % 3 == 0 && l < n
    ensures Corner(l, 1) < n && Corner(l, 2) < n
    ensures Corner(l, 1) / 3 == l / 3 && Corner(l, 2) / 3 == l / 3
    ensures l != Corner(l, 1) && l != Corner(l, 2) && Corner(l, 1) != Corner(l, 2)
  {
    var t, r := l / 3, l % 3;
    assert l == 3 * t + r && n >= 3 * t + 3;
    if r == 0 {
      assert Corner(l, 1) == 3 * t + 1 && Corner(l, 2) == 3 * t + 2;
    } else if r == 1 {
      assert Corner(l, 1) == 3 * t + 2 && Corner(l, 2) == 3 * t;
    } else {
      assert Corner(l, 1) == 3 * t && Corner(l, 2) == 3 * t + 1;
    }
  }

  /** Twice the signed texture-space area below which a triangle is
      skipped: 0x1p-20, half a pixel at 1024x1024. */
  const MinArea: real := 1.0 / 1048576.0

  function Abs(x: real): real {
    if x < 0.0 then -x else x
  }

  /** What one corner does to its vertex's tangent: the handedness it sets
      and the weighted direction it adds. */
  datatype Contribution = Contribution(w: real, add: Vec3)

  /** The contribution of the corner at vertex i whose partners are j and
      k: none when the triangle's texture area is too small; otherwise
      handedness -flip, flip being the sign of that area, and the normalised
      texture direction of the edges projected onto the tangent plane,
      weighted by the angle between them. */
  function TriangleContribution(a: Attributes, m: TangentMath, i: nat, j: nat, k: nat): Option<Contribution>
    requires 3 * i + 2 < |a.positions| && 3 * j + 2 < |a.positions| && 3 * k + 2 < |a.positions|
    requires 3 * i + 2 < |a.normals|
    requires 2 * i + 1 < |a.texCoords| && 2 * j + 1 < |a.texCoords| && 2 * k + 1 < |a.texCoords|
  {
    var n := Vec3At(a.normals, i);
    var v1 := Sub(Vec3At(a.positions, j), Vec3At(a.positions, i));
    var v2 := Sub(Vec3At(a.positions, k), Vec3At(a.positions, i));
    var t1u := a.texCoords[2 * j] - a.texCoords[2 * i];
    var t1v := a.texCoords[2 * j + 1] - a.texCoords[2 * i + 1];
    var t2u := a.texCoords[2 * k] - a.texCoords[2 * i];
    var t2v := a.texCoords[2 * k + 1] - a.texCoords[2 * i + 1];
    var area := t1u * t2v - t1v * t2u;
    if Abs(area) < MinArea then None
    else
      var flip := if area > 0.0 then 1.0 else -1.0;
      var p1 := Sub(v1, Scale(n, Dot(v1, n)));
      var p2 := Sub(v2, Scale(n, Dot(v2, n)));
      var s := m.normalize(Scale(Sub(Scale(p1, t2v), Scale(p2, t1v)), flip));
      Some(Contribution(-flip, Scale(s, m.angle(p1, p2))))
  }

  function CornerContribution(a: Attributes, ix: seq<nat>, m: TangentMath, l: nat): Option<Contribution>
    requires l < |ix| && |ix| % 3 == 0 && Covered(a, ix)
  {
    CornerSameTriangle(l, |ix|);
    TriangleContribution(a, m, ix[l], ix[Corner(l, 1)], ix[Corner(l, 2)])
  }

  /** The tangent of vertex v after the first l corners of the second
      loop, starting from the zero the first loop writes. */
  function Accumulated(a: Attributes, ix: seq<nat>, m: TangentMath, v: nat, l: nat): Tangent
    requires l <= |ix| && |ix| % 3 == 0 && Covered(a, ix)
    decreases l
  {
    if l == 0 then Tangent(Zero, 0.0)
    else
      var prev := Accumulated(a, ix, m, v, l - 1);
      if ix[l - 1] != v then prev
      else match CornerContribution(a, ix, m, l - 1)
        case None => prev
        case Some(c) => Tangent(Add(prev.xyz, c.add), c.w)
  }

  /** How often v occurs among the first l indices. */
  function Occurrences(ix: seq<nat>, l: nat, v: nat): nat
    requires l <= |ix|
  {
    if l == 0 then 0 else Occurrences(ix, l - 1, v) + (if ix[l - 1] == v then 1 else 0)
  }

  function Iterate(f: Vec3 -> Vec3, n: nat, x: Vec3): Vec3 {
    if n == 0 then x else f(Iterate(f, n - 1, x))
  }

  /** The tangent of v after the third loop has passed the first l
      corners: its direction normalised once per occurrence of v so far. */
  function Normalizing(a: Attributes, ix: seq<nat>, m: TangentMath, v: nat, l: nat): Tangent
    requires l <= |ix| && |ix| % 3 == 0 && Covered(a, ix)
  {
    var acc := Accumulated(a, ix, m, v, |ix|);
    Tangent(Iterate(m.normalize, Occurrences(ix, l, v), acc.xyz), acc.w)
  }

  /** The whole tangent buffer afterwards: the vec4 of every vertex an index
      names is its final tangent, every other float is left as it was. */
  function TangentsResult(init: seq<real>, a: Attributes, ix: seq<nat>, m: TangentMath): (r: seq<real>)
    requires |ix| % 3 == 0 && Covered(a, ix)
    ensures |r| == |init|
  {
    Normalized(init, a, ix, m, |ix|)
  }

  /** The buffer s with the vec4 of vertex v replaced by t. */
  function Put(s: seq<real>, v: nat, t: Tangent): (r: seq<real>)
    ensures |r| == |s|
  {
    seq(|s|, p requires 0 <= p < |s| => if p / 4 == v then Lane(t, p % 4) else s[p])
  }

  /** The buffer after the first l corners of the first loop. */
  function Zeroed(init: seq<real>, ix: seq<nat>, l: nat): (r: seq<real>)
    requires l <= |ix|
    ensures |r| == |init|
  {
    seq(|init|, p requires 0 <= p < |init| => if Occurrences(ix, l, p / 4) > 0 then 0.0 else init[p])
  }

  /** The buffer after the first l corners of the second loop. */
  function Accumulating(init: seq<real>, a: Attributes, ix: seq<nat>, m: TangentMath, l: nat): (r: seq<real>)
    requires l <= |ix| && |ix| % 3 == 0 && Covered(a, ix)
    ensures |r| == |init|
  {
    seq(|init|, p requires 0 <= p < |init| =>
      if Occurrences(ix, |ix|, p / 4) > 0 then Lane(Accumulated(a, ix, m, p / 4, l), p % 4) else init[p])
  }

  /** The buffer after the first l corners of the third loop. */
  function Normalized(init: seq<real>, a: Attributes, ix: seq<nat>, m: TangentMath, l: nat): (r: seq<real>)
    requires l <= |ix| && |ix| % 3 == 0 && Covered(a, ix)
    ensures |r| == |init|
  {
    seq(|init|, p requires 0 <= p < |init| =>
      if Occurrences(ix, |ix|, p / 4) > 0 then Lane(Normalizing(a, ix, m, p / 4, l), p % 4) else init[p])
  }

  /** The floats of vertex v are exactly the positions 4v to 4v + 3. */
  lemma Slot(p: nat, v: nat)
    ensures p / 4 == v <==> 4 * v <= p < 4 * v + 4
    ensures p / 4 == v ==> p % 4 == p - 4 * v
  {
  }

  /** Reading back a vec4 of a buffer laid out vertex by vertex. */
  lemma TangentOfLayout(s: seq<real>, v: nat, t: Tangent)
    requires 4 * v + 3 < |s|
    requires forall c :: 0 <= c < 4 ==> s[4 * v + c] == Lane(t, c)
    ensures TangentAt(s, v) == t
  {
    assert s[4 * v] == Lane(t, 0) && s[4 * v + 1] == Lane(t, 1) && s[4 * v + 2] == Lane(t, 2) && s[4 * v + 3] == Lane(t, 3);
  }

  /** `makeTangents` on the first |ix| indices. */
  method MakeTangents(ix: seq<nat>, a: Attributes, tangents: array<real>, m: TangentMath)
    requires |ix| % 3 == 0 && Covered(a, ix) && Room(ix, tangents.Length)
    modifies tangents
    ensures tangents[..] == TangentsResult(old(tangents[..]), a, ix, m)
  {
    ghost var init := tangents[..];
    assert init == Zeroed(init, ix, 0);
    for l := 0 to |ix|
      invariant tangents[..] == Zeroed(init, ix, l)
    {
      SetTangent(tangents, ix[l], Tangent(Zero, 0.0));
      ZeroStep(init, ix, l);
    }
    ZeroedIsStart(init, a, ix, m);
    for l := 0 to |ix|
      invariant tangents[..] == Accumulating(init, a, ix, m, l)
    {
      AccumulateCorner(ix, a, tangents, m, l, init);
    }
    AccumulatedIsStart(init, a, ix, m);
    for l := 0 to |ix|
      invariant tangents[..] == Normalized(init, a, ix, m, l)
    {
      var v := ix[l];
      OccursAtCorner(ix, l);
      ReadNormalized(init, a, ix, m, l, v);
      var t := TangentAt(tangents[..], v);
      SetTangent(tangents, v, Tangent(m.normalize(t.xyz), t.w));
      NormalizeStep(init, a, ix, m, l);
    }
  }

  /** Writing one vec4 of the buffer. */
  method SetTangent(tangents: array<real>, v: nat, t: Tangent)
    requires 4 * v + 3 < tangents.Length
    modifies tangents
    ensures tangents[..] == Put(old(tangents[..]), v, t)
  {
    tangents[4 * v] := t.xyz.x;
    tangents[4 * v + 1] := t.xyz.y;
    tangents[4 * v + 2] := t.xyz.z;
    tangents[4 * v + 3] := t.w;
    forall p | 0 <= p < tangents.Length
      ensures tangents[p] == Put(old(tangents[..]), v, t)[p]
    {
      Slot(p, v);
    }
  }

  /** One pass of the second loop: corner l sets the handedness of its
      vertex to -flip and adds its weighted direction (the source writes
      `w` and then adds the direction with a zero `w`), unless its triangle
      is too small in texture space. */
  method AccumulateCorner(ix: seq<nat>, a: Attributes, tangents: array<real>, m: TangentMath, l: nat, ghost init: seq<real>)
    requires |ix| % 3 == 0 && Covered(a, ix) && Room(ix, tangents.Length) && l < |ix| && |init| == tangents.Length
    requires tangents[..] == Accumulating(init, a, ix, m, l)
    modifies tangents
    ensures tangents[..] == Accumulating(init, a, ix, m, l + 1)
  {
    var c := CornerContribution(a, ix, m, l);
    if c == None {
      AccumulateSkip(init, a, ix, m, l);
      return;
    }
    var i := ix[l];
    OccursAtCorner(ix, l);
    ReadAccumulating(init, a, ix, m, l, i);
    var t := TangentAt(tangents[..], i);
    SetTangent(tangents, i, Tangent(Add(t.xyz, c.value.add), c.value.w));
    AccumulateStep(init, a, ix, m, l);
  }

  /** The first loop, one corner further. */
  lemma ZeroStep(init: seq<real>, ix: seq<nat>, l: nat)
    requires l < |ix|
    ensures Put(Zeroed(init, ix, l), ix[l], Tangent(Zero, 0.0)) == Zeroed(init, ix, l + 1)
  {
    forall p | 0 <= p < |init|
      ensures Put(Zeroed(init, ix, l), ix[l], Tangent(Zero, 0.0))[p] == Zeroed(init, ix, l + 1)[p]
    {
      Slot(p, ix[l]);
    }
  }

  /** After the first loop every referenced vertex holds the zero vec4 the
      accumulation starts from. */
  lemma ZeroedIsStart(init: seq<real>, a: Attributes, ix: seq<nat>, m: TangentMath)
    requires |ix| % 3 == 0 && Covered(a, ix)
    ensures Zeroed(init, ix, |ix|) == Accumulating(init, a, ix, m, 0)
  {
    forall p | 0 <= p < |init|
      ensures Zeroed(init, ix, |ix|)[p] == Accumulating(init, a, ix, m, 0)[p]
    {
      Slot(p, p / 4);
    }
  }

  /** A buffer whose every float of vertex v is the matching lane of t reads
      back t there. */
  lemma LanesReadBack(s: seq<real>, v: nat, t: Tangent)
    requires 4 * v + 3 < |s|
    requires forall p :: 0 <= p < |s| && p / 4 == v ==> s[p] == Lane(t, p % 4)
    ensures TangentAt(s, v) == t
  {
    forall c | 0 <= c < 4
      ensures s[4 * v + c] == Lane(t, c)
    {
      Slot(4 * v + c, v);
    }
    TangentOfLayout(s, v, t);
  }

  lemma ReadAccumulating(init: seq<real>, a: Attributes, ix: seq<nat>, m: TangentMath, l: nat, v: nat)
    requires l <= |ix| && |ix| % 3 == 0 && Covered(a, ix)
    requires Occurrences(ix, |ix|, v) > 0 && 4 * v + 3 < |init|
    ensures TangentAt(Accumulating(init, a, ix, m, l), v) == Accumulated(a, ix, m, v, l)
  {
    var s, t := Accumulating(init, a, ix, m, l), Accumulated(a, ix, m, v, l);
    forall p | 0 <= p < |s| && p / 4 == v
      ensures s[p] == Lane(t, p % 4)
    {
    }
    LanesReadBack(s, v, t);
  }

  /** The second loop, one contributing corner further. */
  lemma AccumulateStep(init: seq<real>, a: Attributes, ix: seq<nat>, m: TangentMath, l: nat)
    requires l < |ix| && |ix| % 3 == 0 && Covered(a, ix)
    ensures Put(Accumulating(init, a, ix, m, l), ix[l], Accumulated(a, ix, m, ix[l], l + 1)) == Accumulating(init, a, ix, m, l + 1)
  {
    OccursAtCorner(ix, l);
    var v := ix[l];
    var before := Put(Accumulating(init, a, ix, m, l), v, Accumulated(a, ix, m, v, l + 1));
    var after := Accumulating(init, a, ix, m, l + 1);
    forall p | 0 <= p < |init|
      ensures before[p] == after[p]
    {
      Slot(p, v);
    }
  }

  /** A skipped corner changes nothing. */
  lemma AccumulateSkip(init: seq<real>, a: Attributes, ix: seq<nat>, m: TangentMath, l: nat)
    requires l < |ix| && |ix| % 3 == 0 && Covered(a, ix)
    requires CornerContribution(a, ix, m, l).None?
    ensures Accumulating(init, a, ix, m, l) == Accumulating(init, a, ix, m, l + 1)
  {
    var before := Accumulating(init, a, ix, m, l);
    var after := Accumulating(init, a, ix, m, l + 1);
    forall p | 0 <= p < |init|
      ensures before[p] == after[p]
    {
    }
  }

  /** After the second loop the normalisation starts from the sums. */
  lemma AccumulatedIsStart(init: seq<real>, a: Attributes, ix: seq<nat>, m: TangentMath)
    requires |ix| % 3 == 0 && Covered(a, ix)
    ensures Accumulating(init, a, ix, m, |ix|) == Normalized(init, a, ix, m, 0)
  {
    var before := Accumulating(init, a, ix, m, |ix|);
    var after := Normalized(init, a, ix, m, 0);
    forall p | 0 <= p < |init|
      ensures before[p] == after[p]
    {
    }
  }

  lemma ReadNormalized(init: seq<real>, a: Attributes, ix: seq<nat>, m: TangentMath, l: nat, v: nat)
    requires l <= |ix| && |ix| % 3 == 0 && Covered(a, ix)
    requires Occurrences(ix, |ix|, v) > 0 && 4 * v + 3 < |init|
    ensures TangentAt(Normalized(init, a, ix, m, l), v) == Normalizing(a, ix, m, v, l)
  {
    var s, t := Normalized(init, a, ix, m, l), Normalizing(a, ix, m, v, l);
    forall p | 0 <= p < |s| && p / 4 == v
      ensures s[p] == Lane(t, p % 4)
    {
    }
    LanesReadBack(s, v, t);
  }

  /** The third loop, one corner further: the corner's vertex is
      normalised once more, its handedness kept. */
  lemma NormalizeStep(init: seq<real>, a: Attributes, ix: seq<nat>, m: TangentMath, l: nat)
    requires l < |ix| && |ix| % 3 == 0 && Covered(a, ix)
    ensures Normalizing(a, ix, m, ix[l], l + 1) ==
              Tangent(m.normalize(Normalizing(a, ix, m, ix[l], l).xyz), Normalizing(a, ix, m, ix[l], l).w)
    ensures Put(Normalized(init, a, ix, m, l), ix[l], Normalizing(a, ix, m, ix[l], l + 1)) == Normalized(init, a, ix, m, l + 1)
  {
    OccursAtCorner(ix, l);
    var v := ix[l];
    var before := Put(Normalized(init, a, ix, m, l), v, Normalizing(a, ix, m, v, l + 1));
    var after := Normalized(init, a, ix, m, l + 1);
    forall p | 0 <= p < |init|
      ensures before[p] == after[p]
    {
      Slot(p, v);
    }
  }

  /** The vertex of a corner occurs among the indices. */
  lemma {:induction false} OccursAtCorner(ix: seq<nat>, l: nat)
    requires l < |ix|
    ensures Occurrences(ix, |ix|, ix[l]) > 0
  {
    OccurrencesGrow(ix, l + 1, |ix|, ix[l]);
  }

  lemma {:induction false} OccurrencesGrow(ix: seq<nat>, l: nat, l': nat, v: nat)
    requires l <= l' <= |ix|
    ensures Occurrences(ix, l, v) <= Occurrences(ix, l', v)
    decreases l'
  {
    if l < l' {
      OccurrencesGrow(ix, l, l' - 1, v);
    }
  }

  /** When normalising twice is normalising once, the repeated
      normalisation of the third loop leaves every referenced vertex with
      the normalised sum of its contributions. */
  lemma FinalNormalized(a: Attributes, ix: seq<nat>, m: TangentMath, v: nat)
    requires |ix| % 3 == 0 && Covered(a, ix)
    requires forall u :: m.normalize(m.normalize(u)) == m.normalize(u)
    requires Occurrences(ix, |ix|, v) > 0
    ensures Normalizing(a, ix, m, v, |ix|).xyz == m.normalize(Accumulated(a, ix, m, v, |ix|).xyz)
    ensures Normalizing(a, ix, m, v, |ix|).w == Accumulated(a, ix, m, v, |ix|).w
  {
    IterateIdempotent(m.normalize, Occurrences(ix, |ix|, v), Accumulated(a, ix, m, v, |ix|).xyz);
  }

  lemma {:induction false} IterateIdempotent(f: Vec3 -> Vec3, n: nat, x: Vec3)
    requires forall u :: f(f(u)) == f(u)
    requires n > 0
    ensures Iterate(f, n, x) == f(x)
    decreases n
  {
    if n > 1 {
      IterateIdempotent(f, n - 1, x);
      assert f(f(x)) == f(x);
    }
  }

  /** No corner of v contributed among the first l. */
  ghost predicate Untouched(a: Attributes, ix: seq<nat>, m: TangentMath, v: nat, l: nat)
    requires l <= |ix| && |ix| % 3 == 0 && Covered(a, ix)
  {
    forall c :: 0 <= c < l && ix[c] == v ==> CornerContribution(a, ix, m, c).None?
  }

  /** The handedness of a vertex is 1 or -1 once one of its corners has
      contributed, and stays the 0 it was zeroed to exactly when none has. */
  lemma {:induction false} Handedness(a: Attributes, ix: seq<nat>, m: TangentMath, v: nat, l: nat)
    requires l <= |ix| && |ix| % 3 == 0 && Covered(a, ix)
    ensures Accumulated(a, ix, m, v, l).w == 0.0 <==> Untouched(a, ix, m, v, l)
    ensures Accumulated(a, ix, m, v, l).w in {0.0, 1.0, -1.0}
    decreases l
  {
    if l > 0 {
      Handedness(a, ix, m, v, l - 1);
      if ix[l - 1] == v && CornerContribution(a, ix, m, l - 1).Some? {
        assert !Untouched(a, ix, m, v, l);
      }
    }
  }
}
