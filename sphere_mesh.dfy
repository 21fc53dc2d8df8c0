/** `generateSphere` of src/neutron/planet.h: it empties the output vectors,
    appends one position, one unit normal and one texture coordinate pair
    per vertex ring by ring, then the triangle list (two triangles per
    quad, one at the poles), then resizes the tangent buffer and fills it
    with `makeTangents`. */
module SphereMesh {
  import opened Vectors
  import opened Reals
  import opened MeshGrid
  import opened SphereShape
  import opened SphereTangents

  function PositionCell(t: Trig, radius: real, sectors: nat, stacks: nat): (nat, nat) -> seq<real> {
    (i: nat, j: nat) => Flat(Position(t, radius, sectors, stacks, i, j))
  }

  /** The normal is the position times `lengthInv`, 1 / radius. */
  function Normal(t: Trig, radius: real, sectors: nat, stacks: nat, i: nat, j: nat): Vec3
    requires radius != 0.0
  {
    Scale(Position(t, radius, sectors, stacks, i, j), 1.0 / radius)
  }

  function NormalCell(t: Trig, radius: real, sectors: nat, stacks: nat): (nat, nat) -> seq<real>
    requires radius != 0.0
  {
    (i: nat, j: nat) => Flat(Normal(t, radius, sectors, stacks, i, j))
  }

  function TexCell(sectors: nat, stacks: nat): (nat, nat) -> seq<real> {
    (i: nat, j: nat) => TexCoord(sectors, stacks, i, j)
  }

  /** The indices of quad j of stack i: k1 is the vertex at (i, j) and k2
      the one below it; the top stack has no first triangle and the bottom
      stack no second one. */
  function Triangles(sectors: nat, stacks: nat, i: nat, j: nat): seq<nat> {
    var k1 := i * (sectors + 1) + j;
    var k2 := k1 + sectors + 1;
    (if i != 0 then [k1, k2, k1 + 1] else []) + (if i + 1 != stacks then [k1 + 1, k2, k2 + 1] else [])
  }

  function IndexCell(sectors: nat, stacks: nat): (nat, nat) -> seq<nat> {
    (i: nat, j: nat) => Triangles(sectors, stacks, i, j)
  }

  /** The buffers `generateSphere` leaves behind. */
  function Vertices(t: Trig, radius: real, sectors: nat, stacks: nat): seq<real> {
    Grid(PositionCell(t, radius, sectors, stacks), stacks + 1, sectors + 1)
  }

  function Normals(t: Trig, radius: real, sectors: nat, stacks: nat): seq<real>
    requires radius != 0.0
  {
    Grid(NormalCell(t, radius, sectors, stacks), stacks + 1, sectors + 1)
  }

  function TexCoords(sectors: nat, stacks: nat): seq<real> {
    Grid(TexCell(sectors, stacks), stacks + 1, sectors + 1)
  }

  function Indices(sectors: nat, stacks: nat): seq<nat> {
    Grid(IndexCell(sectors, stacks), stacks, sectors)
  }

  /** The (corrected) number of floats of the tangent buffer: one vec4 per
      vertex. */
  function TangentFloats(sectors: nat, stacks: nat): nat {
    4 * VertexCount(sectors, stacks)
  }

  /** vector::resize: the old floats up to the new size, zeros after them. */
  function Resized(s: seq<real>, n: nat): (r: seq<real>)
    ensures |r| == n
  {
    seq(n, p requires 0 <= p < n => if p < |s| then s[p] else 0.0)
  }

  /** Every position and every normal is three floats, every texture
      coordinate two. */
  lemma PositionCellUniform(t: Trig, radius: real, sectors: nat, stacks: nat, rows: nat, cols: nat)
    ensures Uniform(PositionCell(t, radius, sectors, stacks), rows, cols, 3)
  {
    var cell := PositionCell(t, radius, sectors, stacks);
    forall a: nat, b: nat | a < rows && b < cols
      ensures |cell(a, b)| == 3
    {
      assert cell(a, b) == Flat(Position(t, radius, sectors, stacks, a, b));
    }
  }

  lemma NormalCellUniform(t: Trig, radius: real, sectors: nat, stacks: nat, rows: nat, cols: nat)
    requires radius != 0.0
    ensures Uniform(NormalCell(t, radius, sectors, stacks), rows, cols, 3)
  {
    var cell := NormalCell(t, radius, sectors, stacks);
    forall a: nat, b: nat | a < rows && b < cols
      ensures |cell(a, b)| == 3
    {
      assert cell(a, b) == Flat(Normal(t, radius, sectors, stacks, a, b));
    }
  }

  lemma TexCellUniform(sectors: nat, stacks: nat, rows: nat, cols: nat)
    ensures Uniform(TexCell(sectors, stacks), rows, cols, 2)
  {
    var cell := TexCell(sectors, stacks);
    forall a: nat, b: nat | a < rows && b < cols
      ensures |cell(a, b)| == 2
    {
      assert cell(a, b) == TexCoord(sectors, stacks, a, b);
    }
  }

  /** Three floats per vertex for the positions. */
  lemma VerticesSize(t: Trig, radius: real, sectors: nat, stacks: nat)
    ensures |Vertices(t, radius, sectors, stacks)| == 3 * VertexCount(sectors, stacks)
  {
    PositionCellUniform(t, radius, sectors, stacks, stacks + 1, sectors + 1);
    GridSize(PositionCell(t, radius, sectors, stacks), stacks + 1, sectors + 1, 3);
  }

  /** Two floats per vertex for the texture coordinates. */
  lemma TexCoordsSize(sectors: nat, stacks: nat)
    ensures |TexCoords(sectors, stacks)| == 2 * VertexCount(sectors, stacks)
  {
    TexCellUniform(sectors, stacks, stacks + 1, sectors + 1);
    GridSize(TexCell(sectors, stacks), stacks + 1, sectors + 1, 2);
  }

  /** Three floats per vertex for positions and normals and two for
      texture coordinates. */
  lemma BufferSizes(t: Trig, radius: real, sectors: nat, stacks: nat)
    requires radius != 0.0
    ensures |Vertices(t, radius, sectors, stacks)| == 3 * VertexCount(sectors, stacks)
    ensures |Normals(t, radius, sectors, stacks)| == 3 * VertexCount(sectors, stacks)
    ensures |TexCoords(sectors, stacks)| == 2 * VertexCount(sectors, stacks)
  {
    VerticesSize(t, radius, sectors, stacks);
    NormalCellUniform(t, radius, sectors, stacks, stacks + 1, sectors + 1);
    GridSize(NormalCell(t, radius, sectors, stacks), stacks + 1, sectors + 1, 3);
    TexCoordsSize(sectors, stacks);
  }

  function RowTriangles(stacks: nat, i: nat): nat {
    (if i != 0 then 3 else 0) + (if i + 1 != stacks then 3 else 0)
  }

  /** Stack i of the triangle list holds RowTriangles(stacks, i) indices per
      sector. */
  lemma IndexRowSize(sectors: nat, stacks: nat, i: nat)
    ensures |Row(IndexCell(sectors, stacks), i, sectors)| == sectors * RowTriangles(stacks, i)
  {
    var cell := IndexCell(sectors, stacks);
    forall b: nat | b < sectors
      ensures |cell(i, b)| == RowTriangles(stacks, i)
    {
      assert cell(i, b) == Triangles(sectors, stacks, i, b);
    }
    RowLength(cell, i, sectors, RowTriangles(stacks, i));
  }

  lemma AddInnerStack(sectors: nat, i: nat)
    requires i > 1
    ensures sectors * (6 * (i - 1) - 3) + sectors * 6 == sectors * (6 * i - 3)
  {
  }

  lemma AddPolarStack(sectors: nat, stacks: nat)
    requires stacks > 1
    ensures sectors * (6 * (stacks - 1) - 3) + sectors * 3 == 6 * sectors * (stacks - 1)
  {
  }

  lemma WholeTriangles(sectors: nat, stacks: nat)
    requires stacks >= 1
    ensures (6 * sectors * (stacks - 1)) % 3 == 0
  {
    assert 6 * sectors * (stacks - 1) == 3 * (2 * sectors * (stacks - 1));
  }

  lemma {:induction false} IndexRows(sectors: nat, stacks: nat, i: nat)
    requires 1 <= i < stacks
    ensures |Grid(IndexCell(sectors, stacks), i, sectors)| == sectors * (6 * i - 3)
    decreases i
  {
    IndexRowSize(sectors, stacks, i - 1);
    if i > 1 {
      IndexRows(sectors, stacks, i - 1);
      AddInnerStack(sectors, i);
    }
  }

  /** With at least one stack, the triangle list holds 6 * sectors *
      (stacks - 1) indices: 3 per sector in the two polar stacks and 6 in
      each of the others; so it is a whole number of triangles. */
  lemma IndexCount(sectors: nat, stacks: nat)
    requires stacks >= 1
    ensures |Indices(sectors, stacks)| == 6 * sectors * (stacks - 1)
    ensures |Indices(sectors, stacks)| % 3 == 0
  {
    IndexRowSize(sectors, stacks, stacks - 1);
    if stacks > 1 {
      IndexRows(sectors, stacks, stacks - 1);
      AddPolarStack(sectors, stacks);
    }
    WholeTriangles(sectors, stacks);
  }

  lemma QuadBound(sectors: nat, stacks: nat, i: nat, j: nat)
    requires i < stacks && j < sectors
    ensures (i + 1) * (sectors + 1) + j < VertexCount(sectors, stacks)
    ensures i + 1 != stacks ==> (i + 1) * (sectors + 1) + j + 1 < VertexCount(sectors, stacks)
  {
    MulMonotone(i + 2, stacks + 1, sectors + 1);
    assert (i + 2) * (sectors + 1) == (i + 1) * (sectors + 1) + sectors + 1;
    if i + 1 != stacks {
      MulMonotone(i + 2, stacks, sectors + 1);
    }
  }

  /** Every index names one of the (stacks + 1) * (sectors + 1) vertices. */
  lemma IndexBound(sectors: nat, stacks: nat)
    ensures forall k :: 0 <= k < |Indices(sectors, stacks)| ==> Indices(sectors, stacks)[k] < VertexCount(sectors, stacks)
  {
    var n := VertexCount(sectors, stacks);
    var cell := IndexCell(sectors, stacks);
    forall i: nat, j: nat, k: nat | i < stacks && j < sectors && k < |cell(i, j)|
      ensures cell(i, j)[k] < n
    {
      QuadBound(sectors, stacks, i, j);
      assert (i + 1) * (sectors + 1) == i * (sectors + 1) + sectors + 1;
    }
    GridAll(cell, stacks, sectors, (x: nat) => x < n);
  }

  /** The layout is stack-major: vertex j of ring i is vertex
      i * (sectors + 1) + j of each buffer, holding that ring and sector's
      position, normal and texture coordinates. */
  lemma VertexLayout(t: Trig, radius: real, sectors: nat, stacks: nat, i: nat, j: nat)
    requires radius != 0.0 && i <= stacks && j <= sectors
    ensures i * (sectors + 1) + j < VertexCount(sectors, stacks)
    ensures 3 * (i * (sectors + 1) + j) + 2 < |Vertices(t, radius, sectors, stacks)|
    ensures 3 * (i * (sectors + 1) + j) + 2 < |Normals(t, radius, sectors, stacks)|
    ensures 2 * (i * (sectors + 1) + j) + 1 < |TexCoords(sectors, stacks)|
    ensures Vec3At(Vertices(t, radius, sectors, stacks), i * (sectors + 1) + j) == Position(t, radius, sectors, stacks, i, j)
    ensures Vec3At(Normals(t, radius, sectors, stacks), i * (sectors + 1) + j) == Normal(t, radius, sectors, stacks, i, j)
    ensures TexCoords(sectors, stacks)[2 * (i * (sectors + 1) + j)] == Ratio(j, sectors)
    ensures TexCoords(sectors, stacks)[2 * (i * (sectors + 1) + j) + 1] == Ratio(i, stacks)
  {
    VertexLayoutAt(t, radius, sectors, stacks, i, j, i * (sectors + 1) + j);
  }

  /** The same, for vertex number v. */
  lemma VertexLayoutAt(t: Trig, radius: real, sectors: nat, stacks: nat, i: nat, j: nat, v: nat)
    requires radius != 0.0 && i <= stacks && j <= sectors && v == i * (sectors + 1) + j
    ensures v < VertexCount(sectors, stacks)
    ensures 3 * v + 2 < |Vertices(t, radius, sectors, stacks)|
    ensures 3 * v + 2 < |Normals(t, radius, sectors, stacks)|
    ensures 2 * v + 1 < |TexCoords(sectors, stacks)|
    ensures Vec3At(Vertices(t, radius, sectors, stacks), v) == Position(t, radius, sectors, stacks, i, j)
    ensures Vec3At(Normals(t, radius, sectors, stacks), v) == Normal(t, radius, sectors, stacks, i, j)
    ensures TexCoords(sectors, stacks)[2 * v] == Ratio(j, sectors)
    ensures TexCoords(sectors, stacks)[2 * v + 1] == Ratio(i, stacks)
  {
    MulMonotone(i + 1, stacks + 1, sectors + 1);
    assert (i + 1) * (sectors + 1) == v - j + sectors + 1;
    PositionAt(t, radius, sectors, stacks, i, j, v);
    NormalAt(t, radius, sectors, stacks, i, j, v);
    TexCoordAt(sectors, stacks, i, j, v);
  }

  lemma ThreeFloats(cell: (nat, nat) -> seq<real>, rows: nat, cols: nat, i: nat, j: nat, v: nat, p: Vec3)
    requires Uniform(cell, rows, cols, 3) && i < rows && j < cols && v == i * cols + j
    requires cell(i, j) == Flat(p)
    ensures 3 * v + 2 < |Grid(cell, rows, cols)| && Vec3At(Grid(cell, rows, cols), v) == p
  {
    GridIndex(cell, rows, cols, 3, i, j, 0);
    GridIndex(cell, rows, cols, 3, i, j, 1);
    GridIndex(cell, rows, cols, 3, i, j, 2);
    assert (i * cols + j) * 3 == 3 * v;
  }

  lemma PositionAt(t: Trig, radius: real, sectors: nat, stacks: nat, i: nat, j: nat, v: nat)
    requires i <= stacks && j <= sectors && v == i * (sectors + 1) + j
    ensures 3 * v + 2 < |Vertices(t, radius, sectors, stacks)|
    ensures Vec3At(Vertices(t, radius, sectors, stacks), v) == Position(t, radius, sectors, stacks, i, j)
  {
    ThreeFloats(PositionCell(t, radius, sectors, stacks), stacks + 1, sectors + 1, i, j, v, Position(t, radius, sectors, stacks, i, j));
  }

  lemma NormalAt(t: Trig, radius: real, sectors: nat, stacks: nat, i: nat, j: nat, v: nat)
    requires radius != 0.0 && i <= stacks && j <= sectors && v == i * (sectors + 1) + j
    ensures 3 * v + 2 < |Normals(t, radius, sectors, stacks)|
    ensures Vec3At(Normals(t, radius, sectors, stacks), v) == Normal(t, radius, sectors, stacks, i, j)
  {
    ThreeFloats(NormalCell(t, radius, sectors, stacks), stacks + 1, sectors + 1, i, j, v, Normal(t, radius, sectors, stacks, i, j));
  }

  lemma TexCoordAt(sectors: nat, stacks: nat, i: nat, j: nat, v: nat)
    requires i <= stacks && j <= sectors && v == i * (sectors + 1) + j
    ensures 2 * v + 1 < |TexCoords(sectors, stacks)|
    ensures TexCoords(sectors, stacks)[2 * v] == Ratio(j, sectors)
    ensures TexCoords(sectors, stacks)[2 * v + 1] == Ratio(i, stacks)
  {
    var tc := TexCell(sectors, stacks);
    TexCellUniform(sectors, stacks, stacks + 1, sectors + 1);
    assert tc(i, j) == [Ratio(j, sectors), Ratio(i, stacks)];
    TwoFloats(tc, stacks + 1, sectors + 1, i, j, v);
  }

  lemma TwoFloats(cell: (nat, nat) -> seq<real>, rows: nat, cols: nat, i: nat, j: nat, v: nat)
    requires Uniform(cell, rows, cols, 2) && i < rows && j < cols && v == i * cols + j
    ensures 2 * v + 1 < |Grid(cell, rows, cols)|
    ensures Grid(cell, rows, cols)[2 * v] == cell(i, j)[0]
    ensures Grid(cell, rows, cols)[2 * v + 1] == cell(i, j)[1]
  {
    GridIndex(cell, rows, cols, 2, i, j, 0);
    GridIndex(cell, rows, cols, 2, i, j, 1);
    assert (i * cols + j) * 2 == 2 * v;
  }

  /** With cos^2 + sin^2 = 1 every position lies on the sphere of the given
      radius and every normal has unit length. */
  lemma OnSphereMesh(t: Trig, radius: real, sectors: nat, stacks: nat, i: nat, j: nat)
    requires radius != 0.0 && Pythagorean(t)
    ensures Norm2(Position(t, radius, sectors, stacks, i, j)) == radius * radius
    ensures Norm2(Normal(t, radius, sectors, stacks, i, j)) == 1.0
  {
    OnSphere(t, radius, sectors, stacks, i, j);
    UnitNormal(Position(t, radius, sectors, stacks, i, j), radius);
  }

  lemma FlatScale(p: Vec3, k: real)
    ensures Flat(Scale(p, k)) == [p.x * k, p.y * k, p.z * k]
  {
    var q := Scale(p, k);
    assert q.x == p.x * k && q.y == p.y * k && q.z == p.z * k;
    assert Flat(q) == [q.x, q.y, q.z];
  }

  lemma UnitNormal(p: Vec3, radius: real)
    requires radius != 0.0 && Norm2(p) == radius * radius
    ensures Norm2(Scale(p, 1.0 / radius)) == 1.0
  {
    Norm2Scale(p, 1.0 / radius);
    assert (1.0 / radius) * (1.0 / radius) * (radius * radius) == ((1.0 / radius) * radius) * ((1.0 / radius) * radius);
  }

  /** Every texture coordinate in the buffer lies in [0, 1]. */
  lemma TexCoordsInUnit(sectors: nat, stacks: nat)
    ensures forall k :: 0 <= k < |TexCoords(sectors, stacks)| ==> 0.0 <= TexCoords(sectors, stacks)[k] <= 1.0
  {
    var tc := TexCell(sectors, stacks);
    forall i: nat, j: nat, k: nat | i < stacks + 1 && j < sectors + 1 && k < |tc(i, j)|
      ensures 0.0 <= tc(i, j)[k] <= 1.0
    {
      TexCoordInUnit(sectors, stacks, i, j, k);
    }
    GridAll(tc, stacks + 1, sectors + 1, (x: real) => 0.0 <= x <= 1.0);
  }

  /** The corners of a triangle list of this sphere lie within the vertex
      buffers, so the tangent pass may read them. */
  lemma MeshCovered(t: Trig, radius: real, sectors: nat, stacks: nat)
    requires radius != 0.0 && stacks >= 1
    ensures |Indices(sectors, stacks)| % 3 == 0
    ensures Covered(Attributes(Vertices(t, radius, sectors, stacks), Normals(t, radius, sectors, stacks), TexCoords(sectors, stacks)), Indices(sectors, stacks))
    ensures Room(Indices(sectors, stacks), TangentFloats(sectors, stacks))
  {
    IndexCount(sectors, stacks);
    IndexBound(sectors, stacks);
    BufferSizes(t, radius, sectors, stacks);
  }

  /** The buffers of `generateSphere`, passed to it by reference. */
  class SphereBuffers {
    var vertices: seq<real>
    var normals: seq<real>
    var texCoords: seq<real>
    var indices: seq<nat>
    var tangents: array<real>

    constructor()
      ensures vertices == [] && normals == [] && texCoords == [] && indices == [] && tangents.Length == 0
    {
      vertices := [];
      normals := [];
      texCoords := [];
      indices := [];
      tangents := new real[0];
    }

    /** `generateSphere`, with the tangent buffer sized for one vec4 per
        vertex (the source sizes it by the number of indices). */
    method GenerateSphere(radius: real, sectorCount: nat, stackCount: nat, trig: Trig, m: TangentMath)
      requires radius != 0.0 && sectorCount > 0 && stackCount > 0
      modifies this
      ensures vertices == Vertices(trig, radius, sectorCount, stackCount)
      ensures normals == Normals(trig, radius, sectorCount, stackCount)
      ensures texCoords == TexCoords(sectorCount, stackCount)
      ensures indices == Indices(sectorCount, stackCount)
      ensures fresh(tangents) && tangents.Length == TangentFloats(sectorCount, stackCount)
      ensures |indices| % 3 == 0 && Covered(Attributes(vertices, normals, texCoords), indices)
      ensures tangents[..] == TangentsResult(Resized(old(tangents[..]), TangentFloats(sectorCount, stackCount)),
                                             Attributes(vertices, normals, texCoords), indices, m)
    {
      ghost var previous := tangents[..];
      vertices := [];
      normals := [];
      texCoords := [];
      indices := [];
      AppendVertices(radius, sectorCount, stackCount, trig);
      AppendIndices(sectorCount, stackCount);
      MeshCovered(trig, radius, sectorCount, stackCount);
      var floats := 4 * ((stackCount + 1) * (sectorCount + 1));
      var kept := tangents[..];
      tangents := new real[floats](p requires 0 <= p < floats => if p < |kept| then kept[p] else 0.0);
      assert tangents[..] == Resized(previous, floats);
      MakeTangents(indices, Attributes(vertices, normals, texCoords), tangents, m);
    }

    /** The two vertex loops. */
    method AppendVertices(radius: real, sectorCount: nat, stackCount: nat, trig: Trig)
      requires radius != 0.0 && sectorCount > 0 && stackCount > 0
      requires vertices == [] && normals == [] && texCoords == []
      modifies this
      ensures vertices == Vertices(trig, radius, sectorCount, stackCount)
      ensures normals == Normals(trig, radius, sectorCount, stackCount)
      ensures texCoords == TexCoords(sectorCount, stackCount)
      ensures indices == old(indices) && tangents == old(tangents)
    {
      var lengthInv := 1.0 / radius;
      var sectorStep := 2.0 * trig.pi / sectorCount as real;
      var stackStep := trig.pi / stackCount as real;
      ghost var pc := PositionCell(trig, radius, sectorCount, stackCount);
      ghost var nc := NormalCell(trig, radius, sectorCount, stackCount);
      ghost var tc := TexCell(sectorCount, stackCount);
      var i := 0;
      while i <= stackCount
        invariant 0 <= i <= stackCount + 1
        invariant vertices == Grid(pc, i, sectorCount + 1)
        invariant normals == Grid(nc, i, sectorCount + 1)
        invariant texCoords == Grid(tc, i, sectorCount + 1)
        invariant indices == old(indices) && tangents == old(tangents)
        decreases stackCount + 1 - i
      {
        AppendRing(radius, sectorCount, stackCount, trig, i, lengthInv, sectorStep, stackStep);
        GridStep(pc, i, sectorCount + 1, []);
        GridStep(nc, i, sectorCount + 1, []);
        GridStep(tc, i, sectorCount + 1, []);
        i := i + 1;
      }
      assert i == stackCount + 1;
    }

    /** One pass of the outer vertex loop: ring i's stack angle, its
        cos-scaled radius xy and height z, then the inner loop over its
        sectorCount + 1 vertices. */
    method AppendRing(radius: real, sectorCount: nat, stackCount: nat, trig: Trig, i: nat,
                      lengthInv: real, sectorStep: real, stackStep: real)
      requires radius != 0.0 && sectorCount > 0 && stackCount > 0
      requires lengthInv == 1.0 / radius && sectorStep == 2.0 * trig.pi / sectorCount as real
      requires stackStep == trig.pi / stackCount as real
      modifies this
      ensures vertices == old(vertices) + Row(PositionCell(trig, radius, sectorCount, stackCount), i, sectorCount + 1)
      ensures normals == old(normals) + Row(NormalCell(trig, radius, sectorCount, stackCount), i, sectorCount + 1)
      ensures texCoords == old(texCoords) + Row(TexCell(sectorCount, stackCount), i, sectorCount + 1)
      ensures indices == old(indices) && tangents == old(tangents)
    {
      ghost var pc := PositionCell(trig, radius, sectorCount, stackCount);
      ghost var nc := NormalCell(trig, radius, sectorCount, stackCount);
      ghost var tc := TexCell(sectorCount, stackCount);
      var stackAngle := trig.pi / 2.0 - i as real * stackStep;
      var xy := radius * trig.cos(stackAngle);
      var z := radius * trig.sin(stackAngle);
      assert stackAngle == StackAngle(trig, stackCount, i);
      var j := 0;
      while j <= sectorCount
        invariant 0 <= j <= sectorCount + 1
        invariant vertices == old(vertices) + Row(pc, i, j)
        invariant normals == old(normals) + Row(nc, i, j)
        invariant texCoords == old(texCoords) + Row(tc, i, j)
        invariant indices == old(indices) && tangents == old(tangents)
        decreases sectorCount + 1 - j
      {
        AppendSector(radius, sectorCount, stackCount, trig, i, j, lengthInv, sectorStep, stackAngle, xy, z);
        RowStep(pc, i, j, old(vertices));
        RowStep(nc, i, j, old(normals));
        RowStep(tc, i, j, old(texCoords));
        j := j + 1;
      }
      assert j == sectorCount + 1;
    }

    /** One pass of the inner vertex loop: vertex j of ring i, at its sector
        angle, given the ring's xy and z. */
    method AppendSector(radius: real, sectorCount: nat, stackCount: nat, trig: Trig, i: nat, j: nat,
                        lengthInv: real, sectorStep: real,
                        stackAngle: real, xy: real, z: real)
      requires radius != 0.0 && sectorCount > 0 && stackCount > 0
      requires lengthInv == 1.0 / radius && sectorStep == 2.0 * trig.pi / sectorCount as real
      requires stackAngle == StackAngle(trig, stackCount, i)
      requires xy == radius * trig.cos(stackAngle) && z == radius * trig.sin(stackAngle)
      modifies this
      ensures vertices == old(vertices) + PositionCell(trig, radius, sectorCount, stackCount)(i, j)
      ensures normals == old(normals) + NormalCell(trig, radius, sectorCount, stackCount)(i, j)
      ensures texCoords == old(texCoords) + TexCell(sectorCount, stackCount)(i, j)
      ensures indices == old(indices) && tangents == old(tangents)
    {
      var sectorAngle := j as real * sectorStep;
      var x := xy * trig.cos(sectorAngle);
      var y := xy * trig.sin(sectorAngle);
      assert sectorAngle == SectorAngle(trig, sectorCount, j);
      ghost var p := Position(trig, radius, sectorCount, stackCount, i, j);
      assert Vec3(x, y, z) == p;
      AppendVertex(Vec3(x, y, z), lengthInv, j as real / sectorCount as real, i as real / stackCount as real);
      assert PositionCell(trig, radius, sectorCount, stackCount)(i, j) == Flat(p);
      assert NormalCell(trig, radius, sectorCount, stackCount)(i, j) == Flat(Scale(p, lengthInv));
      assert TexCell(sectorCount, stackCount)(i, j) == [j as real / sectorCount as real, i as real / stackCount as real];
    }

    /** The body of the inner vertex loop: three position floats, three
        normal floats, two texture coordinates. */
    method AppendVertex(p: Vec3, lengthInv: real, s: real, t: real)
      modifies this
      ensures vertices == old(vertices) + Flat(p)
      ensures normals == old(normals) + Flat(Scale(p, lengthInv))
      ensures texCoords == old(texCoords) + [s, t]
      ensures indices == old(indices) && tangents == old(tangents)
    {
      vertices := vertices + [p.x];
      vertices := vertices + [p.y];
      vertices := vertices + [p.z];
      normals := normals + [p.x * lengthInv];
      normals := normals + [p.y * lengthInv];
      normals := normals + [p.z * lengthInv];
      texCoords := texCoords + [s];
      texCoords := texCoords + [t];
      assert normals == old(normals) + [p.x * lengthInv, p.y * lengthInv, p.z * lengthInv];
      FlatScale(p, lengthInv);
    }

    /** The outer index loop, one stack at a time. */
    method AppendIndices(sectorCount: nat, stackCount: nat)
      requires indices == []
      modifies this
      ensures indices == Indices(sectorCount, stackCount)
      ensures vertices == old(vertices) && normals == old(normals) && texCoords == old(texCoords) && tangents == old(tangents)
    {
      ghost var ic := IndexCell(sectorCount, stackCount);
      var i := 0;
      while i < stackCount
        invariant 0 <= i <= stackCount
        invariant indices == Grid(ic, i, sectorCount)
        invariant vertices == old(vertices) && normals == old(normals) && texCoords == old(texCoords) && tangents == old(tangents)
      {
        AppendStrip(sectorCount, stackCount, i);
        GridStep(ic, i, sectorCount, []);
        i := i + 1;
      }
      assert i == stackCount;
    }

    /** The inner index loop over the quads of stack i, with k1 stepping
        along ring i and k2 along ring i + 1. */
    method AppendStrip(sectorCount: nat, stackCount: nat, i: nat)
      modifies this
      ensures indices == old(indices) + Row(IndexCell(sectorCount, stackCount), i, sectorCount)
      ensures vertices == old(vertices) && normals == old(normals) && texCoords == old(texCoords) && tangents == old(tangents)
    {
      ghost var ic := IndexCell(sectorCount, stackCount);
      var k1 := i * (sectorCount + 1);
      var k2 := k1 + sectorCount + 1;
      var j := 0;
      while j < sectorCount
        invariant 0 <= j <= sectorCount
        invariant k1 == i * (sectorCount + 1) + j && k2 == k1 + sectorCount + 1
        invariant indices == old(indices) + Row(ic, i, j)
        invariant vertices == old(vertices) && normals == old(normals) && texCoords == old(texCoords) && tangents == old(tangents)
      {
        AppendQuad(sectorCount, stackCount, i, j, k1, k2);
        assert ic(i, j) == Triangles(sectorCount, stackCount, i, j);
        RowStep(ic, i, j, old(indices));
        j := j + 1;
        k1 := k1 + 1;
        k2 := k2 + 1;
      }
      assert j == sectorCount;
    }

    /** The body of the inner index loop: the quad's first triangle unless
        it is in the top stack, its second unless it is in the bottom one. */
    method AppendQuad(ghost sectorCount: nat, stackCount: nat, i: nat, ghost j: nat, k1: nat, k2: nat)
      requires k1 == i * (sectorCount + 1) + j && k2 == k1 + sectorCount + 1
      modifies this
      ensures indices == old(indices) + (if i != 0 then [k1, k2, k1 + 1] else []) + (if i + 1 != stackCount then [k1 + 1, k2, k2 + 1] else [])
      ensures indices == old(indices) + Triangles(sectorCount, stackCount, i, j)
      ensures vertices == old(vertices) && normals == old(normals) && texCoords == old(texCoords) && tangents == old(tangents)
    {
      if i != 0 {
        indices := indices + [k1];
        indices := indices + [k2];
        indices := indices + [k1 + 1];
      }
      if i as int != stackCount - 1 {
        indices := indices + [k1 + 1];
        indices := indices + [k2];
        indices := indices + [k2 + 1];
      }
    }
  }

  /** The tangent buffer as the source sizes it: `indices.size()` floats. */
  function TangentFloatsAsWritten(sectors: nat, stacks: nat): nat {
    |Indices(sectors, stacks)|
  }

  /** With two stacks the list holds 6 * sectors indices, but the second
      triangle of the last quad of the top stack names vertex
      2 * sectors + 1, whose vec4 ends at float 8 * sectors + 7: sized as
      written, the buffer is too short and `makeTangents` writes past its
      end (with 3 sectors: 18 floats, vertex 7 spans floats 28 to 31). */
  lemma TangentsOverflowAsWritten(sectors: nat)
    requires sectors >= 1
    ensures TangentFloatsAsWritten(sectors, 2) == 6 * sectors
    ensures 2 * sectors + 1 in Indices(sectors, 2)
    ensures !Room(Indices(sectors, 2), TangentFloatsAsWritten(sectors, 2))
  {
    var ic := IndexCell(sectors, 2);
    IndexCount(sectors, 2);
    var top := Row(ic, 0, sectors - 1);
    assert ic(0, sectors - 1) == [sectors, 2 * sectors, 2 * sectors + 1];
    assert Row(ic, 0, sectors) == top + [sectors, 2 * sectors, 2 * sectors + 1];
    assert Grid(ic, 1, sectors) == Row(ic, 0, sectors);
    assert Indices(sectors, 2) == Grid(ic, 1, sectors) + Row(ic, 1, sectors);
    var l := |top| + 2;
    assert Indices(sectors, 2)[l] == 2 * sectors + 1;
    assert 4 * Indices(sectors, 2)[l] + 3 >= TangentFloatsAsWritten(sectors, 2);
  }

  /** The corrected size holds the vec4 of every vertex the triangle list
      names, for any counts. */
  lemma TangentsFit(sectors: nat, stacks: nat)
    ensures Room(Indices(sectors, stacks), TangentFloats(sectors, stacks))
  {
    IndexBound(sectors, stacks);
  }

  /** Sized as written, the buffer is still big enough whenever the list
      holds at least four indices per vertex. */
  lemma AsWrittenFits(sectors: nat, stacks: nat)
    requires stacks >= 1 && TangentFloats(sectors, stacks) <= 6 * sectors * (stacks - 1)
    ensures Room(Indices(sectors, stacks), TangentFloatsAsWritten(sectors, stacks))
  {
    IndexCount(sectors, stacks);
    IndexBound(sectors, stacks);
  }

  /** The game's spheres (36 sectors, 18 stacks) are such a case: 3672
      floats allocated where the 703 vertices need 2812. */
  lemma GameSphereFitsAsWritten(sectors: nat, stacks: nat)
    requires sectors == 36 && stacks == 18
    ensures Room(Indices(sectors, stacks), TangentFloatsAsWritten(sectors, stacks))
  {
    assert TangentFloats(sectors, stacks) == 2812 && 6 * sectors * (stacks - 1) == 3672;
    AsWrittenFits(sectors, stacks);
  }
}
