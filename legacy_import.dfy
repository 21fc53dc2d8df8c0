/** The space objects of src/neutron/import.cpp: a mass, a radius, a
    floating-point position and velocity, and a static pointer to the
    heaviest object constructed so far (there is no object list in this
    variant). The static is the field of one `Tracker` that every
    constructor is given. A `Planet` is a space object with a sphere mesh. */
module LegacyImport {
  import opened Vectors
  import opened Heaviest
  import opened SphereShape
  import opened SphereTangents
  import opened SphereMesh

  /** `SpaceObject::biggestMass`, related to every object constructed so far
      (`built`). */
  class Tracker {
    var biggest: SpaceObject?
    ghost var built: seq<SpaceObject>

    /** The pointer is null exactly before the first construction and then
        names the earliest of the heaviest objects built. */
    ghost predicate Valid()
      reads this
    {
      (biggest == null <==> built == []) &&
      (built != [] ==> biggest == built[HeaviestIndex(Masses(built))])
    }

    /** The static's initial value, `nullptr`. */
    constructor()
      ensures Valid() && biggest == null && built == []
    {
      biggest := null;
      built := [];
    }
  }

  /** The masses of a list of this module's SpaceObject objects (the
      space object of src/neutron/import.cpp, not SpaceObjectRegistry's). */
  function Masses(s: seq<SpaceObject>): (r: seq<int>)
    ensures |r| == |s| && forall k :: 0 <= k < |s| ==> r[k] == s[k].mass
  {
    seq(|s|, k requires 0 <= k < |s| => s[k].mass)
  }

  lemma MassesAppend(s: seq<SpaceObject>, o: SpaceObject)
    ensures Masses(s + [o]) == Masses(s) + [o.mass]
  {
  }

  /** After any construction the pointer is set, is at least as heavy as
      every object built, and is strictly heavier than every object built
      before it: on equal masses the earliest is kept. */
  lemma BiggestIsHeaviest(tracker: Tracker)
    requires tracker.Valid() && tracker.built != []
    ensures tracker.biggest != null && tracker.biggest in tracker.built
    ensures forall k :: 0 <= k < |tracker.built| ==> tracker.built[k].mass <= tracker.biggest.mass
    ensures forall k :: 0 <= k < HeaviestIndex(Masses(tracker.built)) ==> tracker.built[k].mass < tracker.biggest.mass
  {
    var h := HeaviestIndex(Masses(tracker.built));
    assert tracker.biggest == tracker.built[h];
    assert forall k :: 0 <= k < |tracker.built| ==> Masses(tracker.built)[k] <= Masses(tracker.built)[h];
  }

  class SpaceObject {
    /** Never assigned after construction. */
    const mass: int
    const radius: real
    var x: real
    var y: real
    var z: real
    var vX: real
    var vY: real
    var vZ: real

    function Position(): Vec3
      reads this
    {
      Vec3(x, y, z)
    }

    function Velocity(): Vec3
      reads this
    {
      Vec3(vX, vY, vZ)
    }

    /** The constructor stores its arguments unchanged and takes over
        `biggestMass` when there is none yet or the new object is strictly
        heavier. */
    constructor(tracker: Tracker, mass: int, radius: real, posX: real, posY: real, posZ: real,
                speedX: real, speedY: real, speedZ: real)
      requires tracker.Valid()
      modifies tracker
      ensures tracker.Valid()
      ensures this.mass == mass && this.radius == radius
      ensures Position() == Vec3(posX, posY, posZ) && Velocity() == Vec3(speedX, speedY, speedZ)
      ensures tracker.built == old(tracker.built) + [this]
      ensures tracker.biggest == if old(tracker.biggest) == null || mass > old(tracker.biggest).mass then this else old(tracker.biggest)
    {
      this.mass := mass;
      this.radius := radius;
      x := posX;
      y := posY;
      z := posZ;
      vX := speedX;
      vY := speedY;
      vZ := speedZ;
      new;
      ghost var before := tracker.built;
      tracker.built := tracker.built + [this];
      MassesAppend(before, this);
      if before != [] {
        HeaviestAppend(Masses(before), mass);
        assert tracker.built[HeaviestIndex(Masses(before))] == before[HeaviestIndex(Masses(before))];
      }
      if tracker.biggest == null || this.mass > tracker.biggest.mass {
        tracker.biggest := this;
      }
    }

    /** `SpaceObject::Tick`: one step along the velocity; the time is
        ignored. */
    method Tick(time: real)
      modifies this
      ensures Position() == Add(old(Position()), old(Velocity())) && Velocity() == old(Velocity())
    {
      x := x + vX;
      y := y + vY;
      z := z + vZ;
    }

    /** The radicand of `DistanceFrom`; the square root is not modelled. */
    function DistanceRadicand(other: SpaceObject): real
      reads this, other
    {
      (other.x - x) * (other.x - x) + (other.y - y) * (other.y - y) + (other.z - z) * (other.z - z)
    }
  }

  /** The radicand is the squared distance between the two positions. */
  lemma RadicandIsSquaredDistance(a: SpaceObject, b: SpaceObject)
    ensures a.DistanceRadicand(b) == SquaredDistance(a.Position(), b.Position())
  {
    var d := Sub(b.Position(), a.Position());
    assert d == Vec3(b.x - a.x, b.y - a.y, b.z - a.z);
  }

  /** The radicand is non-negative, the same in both directions, and zero
      from an object to itself. */
  lemma DistanceProperties(a: SpaceObject, b: SpaceObject)
    ensures a.DistanceRadicand(b) >= 0.0
    ensures a.DistanceRadicand(b) == b.DistanceRadicand(a)
    ensures a.DistanceRadicand(a) == 0.0
  {
    RadicandIsSquaredDistance(a, b);
    RadicandIsSquaredDistance(b, a);
    RadicandIsSquaredDistance(a, a);
    SquaredDistanceSymmetric(a.Position(), b.Position());
  }

  /** A planet: a space object, so that it takes part in the `biggestMass`
      tracking, with the mesh of `makePlanet`: a sphere of radius 1 with
      `sectorCount` sectors and `stackCount` stacks (`makePlanet` fixes
      them at 36 and 18). */
  class Planet {
    const body: SpaceObject
    const mesh: SphereBuffers

    constructor(tracker: Tracker, mass: int, radius: real, posX: real, posY: real, posZ: real,
                speedX: real, speedY: real, speedZ: real, trig: Trig, m: TangentMath,
                sectorCount: nat, stackCount: nat)
      requires tracker.Valid() && sectorCount > 0 && stackCount > 0
      modifies tracker
      ensures tracker.Valid() && fresh(body) && fresh(mesh)
      ensures body.mass == mass && body.radius == radius
      ensures body.Position() == Vec3(posX, posY, posZ) && body.Velocity() == Vec3(speedX, speedY, speedZ)
      ensures tracker.built == old(tracker.built) + [body]
      ensures tracker.biggest == if old(tracker.biggest) == null || mass > old(tracker.biggest).mass then body else old(tracker.biggest)
      ensures mesh.vertices == Vertices(trig, 1.0, sectorCount, stackCount)
      ensures mesh.normals == Normals(trig, 1.0, sectorCount, stackCount)
      ensures mesh.texCoords == TexCoords(sectorCount, stackCount)
      ensures mesh.indices == Indices(sectorCount, stackCount)
    {
      body := new SpaceObject(tracker, mass, radius, posX, posY, posZ, speedX, speedY, speedZ);
      var buffers := new SphereBuffers();
      buffers.GenerateSphere(1.0, sectorCount, stackCount, trig, m);
      mesh := buffers;
    }
  }
}
