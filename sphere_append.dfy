/** `generateSphere` of src/neutron/planet/planet.h, the older generator: it
    appends to the three output vectors without emptying them first, uses
    the position itself as the normal and emits no triangle list. */
module SphereAppend {
  import opened Vectors
  import opened MeshGrid
  import opened SphereShape
  import opened SphereTangents
  import opened SphereMesh

  /** The file's `PI` constant. */
  const PI: real := 3.14159265359

  /** The trigonometry this generator uses: its own pi with the given cosine
      and sine. */
  function Trigonometry(cos: real -> real, sin: real -> real): (t: Trig)
    ensures t.pi == PI && t.cos == cos && t.sin == sin
  {
    Trig(PI, cos, sin)
  }

  /** The three output vectors, passed to `generateSphere` by reference. */
  class OutputVectors {
    var vertices: seq<real>
    var normals: seq<real>
    var texCoords: seq<real>

    constructor(vertices: seq<real>, normals: seq<real>, texCoords: seq<real>)
      ensures this.vertices == vertices && this.normals == normals && this.texCoords == texCoords
    {
      this.vertices := vertices;
      this.normals := normals;
      this.texCoords := texCoords;
    }

    /** `generateSphere` with the source's signed counts. A negative count
        makes the outer or every inner loop run zero times, so nothing is
        appended; otherwise the earlier contents stay in front, followed by
        the sphere's positions, the same positions again as normals, and the
        texture coordinates. A zero count with the other one non-negative is
        excluded: the source divides by it and emits NaN. */
    method GenerateSphere(radius: real, sectorCount: int, stackCount: int, cos: real -> real, sin: real -> real)
      requires sectorCount < 0 || stackCount < 0 || (sectorCount > 0 && stackCount > 0)
      modifies this
      ensures sectorCount < 0 || stackCount < 0 ==>
                vertices == old(vertices) && normals == old(normals) && texCoords == old(texCoords)
      ensures sectorCount > 0 && stackCount > 0 ==>
                && vertices == old(vertices) + Vertices(Trigonometry(cos, sin), radius, sectorCount, stackCount)
                && normals == old(normals) + Vertices(Trigonometry(cos, sin), radius, sectorCount, stackCount)
                && texCoords == old(texCoords) + TexCoords(sectorCount, stackCount)
    {
      if sectorCount > 0 && stackCount > 0 {
        AppendRings(radius, sectorCount, stackCount, cos, sin);
      }
    }

    /** The two vertex loops for positive counts. */
    method AppendRings(radius: real, sectorCount: nat, stackCount: nat, cos: real -> real, sin: real -> real)
      requires sectorCount > 0 && stackCount > 0
      modifies this
      ensures vertices == old(vertices) + Vertices(Trigonometry(cos, sin), radius, sectorCount, stackCount)
      ensures normals == old(normals) + Vertices(Trigonometry(cos, sin), radius, sectorCount, stackCount)
      ensures texCoords == old(texCoords) + TexCoords(sectorCount, stackCount)
    {
      ghost var trig := Trigonometry(cos, sin);
      ghost var pc := PositionCell(trig, radius, sectorCount, stackCount);
      ghost var tc := TexCell(sectorCount, stackCount);
      ghost var v0, n0, t0 := vertices, normals, texCoords;
      var sectorStep := 2.0 * PI / sectorCount as real;
      var stackStep := PI / stackCount as real;
      var i := 0;
      while i <= stackCount
        invariant 0 <= i <= stackCount + 1
        invariant vertices == v0 + Grid(pc, i, sectorCount + 1)
        invariant normals == n0 + Grid(pc, i, sectorCount + 1)
        invariant texCoords == t0 + Grid(tc, i, sectorCount + 1)
        decreases stackCount + 1 - i
      {
        AppendRing(radius, sectorCount, stackCount, cos, sin, i, sectorStep, stackStep);
        GridStep(pc, i, sectorCount + 1, v0);
        GridStep(pc, i, sectorCount + 1, n0);
        GridStep(tc, i, sectorCount + 1, t0);
        i := i + 1;
      }
      assert i == stackCount + 1;
    }

    /** One pass of the outer loop: ring i's stack angle, cos-scaled radius
        xy and height z, then the inner loop over its sectorCount + 1
        vertices. */
    method AppendRing(radius: real, sectorCount: nat, stackCount: nat, cos: real -> real, sin: real -> real,
                      i: nat, sectorStep: real, stackStep: real)
      requires sectorCount > 0 && stackCount > 0
      requires sectorStep == 2.0 * PI / sectorCount as real && stackStep == PI / stackCount as real
      modifies this
      ensures vertices == old(vertices) + Row(PositionCell(Trigonometry(cos, sin), radius, sectorCount, stackCount), i, sectorCount + 1)
      ensures normals == old(normals) + Row(PositionCell(Trigonometry(cos, sin), radius, sectorCount, stackCount), i, sectorCount + 1)
      ensures texCoords == old(texCoords) + Row(TexCell(sectorCount, stackCount), i, sectorCount + 1)
    {
      ghost var trig := Trigonometry(cos, sin);
      ghost var pc := PositionCell(trig, radius, sectorCount, stackCount);
      ghost var tc := TexCell(sectorCount, stackCount);
      var stackAngle := PI / 2.0 - i as real * stackStep;
      var xy := radius * cos(stackAngle);
      var z := radius * sin(stackAngle);
      assert stackAngle == StackAngle(trig, stackCount, i);
      var j := 0;
      while j <= sectorCount
        invariant 0 <= j <= sectorCount + 1
        invariant vertices == old(vertices) + Row(pc, i, j)
        invariant normals == old(normals) + Row(pc, i, j)
        invariant texCoords == old(texCoords) + Row(tc, i, j)
        decreases sectorCount + 1 - j
      {
        AppendSector(radius, sectorCount, stackCount, cos, sin, trig, i, j, sectorStep, stackAngle, xy, z);
        RowStep(pc, i, j, old(vertices));
        RowStep(pc, i, j, old(normals));
        RowStep(tc, i, j, old(texCoords));
        j := j + 1;
      }
      assert j == sectorCount + 1;
    }

    /** One pass of the inner loop: vertex j of ring i, at its sector angle,
        given the ring's xy and z. */
    method AppendSector(radius: real, sectorCount: nat, stackCount: nat, cos: real -> real, sin: real -> real,
                        ghost trig: Trig, i: nat, j: nat, sectorStep: real,
                        stackAngle: real, xy: real, z: real)
      requires trig == Trigonometry(cos, sin)
      requires sectorCount > 0 && stackCount > 0 && sectorStep == 2.0 * PI / sectorCount as real
      requires stackAngle == StackAngle(trig, stackCount, i)
      requires xy == radius * cos(stackAngle) && z == radius * sin(stackAngle)
      modifies this
      ensures vertices == old(vertices) + PositionCell(trig, radius, sectorCount, stackCount)(i, j)
      ensures normals == old(normals) + PositionCell(trig, radius, sectorCount, stackCount)(i, j)
      ensures texCoords == old(texCoords) + TexCell(sectorCount, stackCount)(i, j)
    {
      var sectorAngle := j as real * sectorStep;
      var x := xy * cos(sectorAngle);
      var y := xy * sin(sectorAngle);
      assert sectorAngle == SectorAngle(trig, sectorCount, j);
      ghost var p := Position(trig, radius, sectorCount, stackCount, i, j);
      assert Vec3(x, y, z) == p;
      AppendVertex(Vec3(x, y, z), j as real / sectorCount as real, i as real / stackCount as real);
      assert PositionCell(trig, radius, sectorCount, stackCount)(i, j) == Flat(p);
      assert TexCell(sectorCount, stackCount)(i, j) == [j as real / sectorCount as real, i as real / stackCount as real];
    }

    /** The body of the inner loop: the position, the same three floats as
        the normal, and the texture coordinates. */
    method AppendVertex(p: Vec3, u: real, v: real)
      modifies this
      ensures vertices == old(vertices) + Flat(p)
      ensures normals == old(normals) + Flat(p)
      ensures texCoords == old(texCoords) + [u, v]
    {
      vertices := vertices + [p.x];
      vertices := vertices + [p.y];
      vertices := vertices + [p.z];
      normals := normals + [p.x];
      normals := normals + [p.y];
      normals := normals + [p.z];
      texCoords := texCoords + [u];
      texCoords := texCoords + [v];
    }
  }

  /** The appended blocks are stack-major: vertex j of ring i is item
      i * (sectorCount + 1) + j of each, holding that ring and sector's
      position and texture coordinates; every texture coordinate is in
      [0, 1]. */
  lemma AppendedBlock(t: Trig, radius: real, sectors: nat, stacks: nat, i: nat, j: nat)
    requires i <= stacks && j <= sectors
    ensures 3 * (i * (sectors + 1) + j) + 2 < |Vertices(t, radius, sectors, stacks)|
    ensures Vec3At(Vertices(t, radius, sectors, stacks), i * (sectors + 1) + j) == Position(t, radius, sectors, stacks, i, j)
    ensures 2 * (i * (sectors + 1) + j) + 1 < |TexCoords(sectors, stacks)|
    ensures TexCoords(sectors, stacks)[2 * (i * (sectors + 1) + j)] == Ratio(j, sectors)
    ensures TexCoords(sectors, stacks)[2 * (i * (sectors + 1) + j) + 1] == Ratio(i, stacks)
    ensures forall k :: 0 <= k < |TexCoords(sectors, stacks)| ==> 0.0 <= TexCoords(sectors, stacks)[k] <= 1.0
  {
    var v := i * (sectors + 1) + j;
    PositionAt(t, radius, sectors, stacks, i, j, v);
    TexCoordAt(sectors, stacks, i, j, v);
    TexCoordsInUnit(sectors, stacks);
  }

  /** 3 floats per vertex for the positions (and so for the normals) and 2
      for the texture coordinates. */
  lemma AppendedSizes(t: Trig, radius: real, sectors: nat, stacks: nat)
    ensures |Vertices(t, radius, sectors, stacks)| == 3 * VertexCount(sectors, stacks)
    ensures |TexCoords(sectors, stacks)| == 2 * VertexCount(sectors, stacks)
  {
    VerticesSize(t, radius, sectors, stacks);
    TexCoordsSize(sectors, stacks);
  }

  /** With cos^2 + sin^2 = 1 every pushed normal lies on the sphere of the
      given radius: it is a unit vector only for radius 1. */
  lemma NormalLength(t: Trig, radius: real, sectors: nat, stacks: nat, i: nat, j: nat)
    requires Pythagorean(t) && i <= stacks && j <= sectors
    ensures 3 * (i * (sectors + 1) + j) + 2 < |Vertices(t, radius, sectors, stacks)|
    ensures Norm2(Vec3At(Vertices(t, radius, sectors, stacks), i * (sectors + 1) + j)) == radius * radius
  {
    AppendedBlock(t, radius, sectors, stacks, i, j);
    OnSphere(t, radius, sectors, stacks, i, j);
  }
}
