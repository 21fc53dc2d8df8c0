/** The oldest space-object variant (src/neutron/spaceObject.h): objects
    with integer mass, position and velocity that register themselves in a
    static list on construction and leave it on destruction, with a static
    pointer to the heaviest object ever built. The two statics are the
    fields of one `Registry` object that every constructor is given. */
module SpaceObjectRegistry {
  import opened Heaviest

  /** An integer position or velocity. */
  datatype Point = Point(x: int, y: int, z: int)

  function Add(p: Point, q: Point): Point {
    Point(p.x + q.x, p.y + q.y, p.z + q.z)
  }

  /** The radicand of `DistanceFrom`, in `int`. */
  function Radicand(p: Point, q: Point): int {
    (q.x - p.x) * (q.x - p.x) + (q.y - p.y) * (q.y - p.y) + (q.z - p.z) * (q.z - p.z)
  }

  /** A sum of integer squares: never negative, the same in both
      directions, and zero from a point to itself. */
  lemma RadicandProperties(p: Point, q: Point)
    ensures Radicand(p, q) >= 0
    ensures Radicand(p, q) == Radicand(q, p)
    ensures Radicand(p, p) == 0
  {
    SquareFlip(q.x, p.x);
    SquareFlip(q.y, p.y);
    SquareFlip(q.z, p.z);
    SquareNonNegative(q.x - p.x);
    SquareNonNegative(q.y - p.y);
    SquareNonNegative(q.z - p.z);
  }

  lemma SquareFlip(a: int, b: int)
    ensures (a - b) * (a - b) == (b - a) * (b - a)
  {
  }

  lemma SquareNonNegative(a: int)
    ensures a * a >= 0
  {
  }

  /** The number of times an object occurs in a list. */
  function Count(s: seq<SpaceObject>, o: SpaceObject): nat {
    multiset(s)[o]
  }

  /** The list without its first entry for o: what the destructor's loop
      means to leave. */
  function RemoveFirst(s: seq<SpaceObject>, o: SpaceObject): seq<SpaceObject> {
    if s == [] then []
    else if s[0] == o then s[1..]
    else [s[0]] + RemoveFirst(s[1..], o)
  }

  /** Removing an object listed once: the list loses exactly that one entry
      and keeps the others in order, so the object is no longer listed. */
  lemma {:induction false} RemoveFirstProperties(s: seq<SpaceObject>, o: SpaceObject)
    requires Count(s, o) == 1
    ensures |RemoveFirst(s, o)| == |s| - 1
    ensures multiset(RemoveFirst(s, o)) == multiset(s) - multiset{o}
    ensures o !in RemoveFirst(s, o)
  {
    assert s == [s[0]] + s[1..];
    if s[0] == o {
      assert multiset(s) == multiset{o} + multiset(s[1..]);
    } else {
      assert multiset(s) == multiset{s[0]} + multiset(s[1..]);
      RemoveFirstProperties(s[1..], o);
    }
  }

  /** The entries before the first o stay in front. */
  lemma {:induction false} RemoveFirstSplit(s: seq<SpaceObject>, o: SpaceObject, i: nat)
    requires i < |s| && s[i] == o && forall k :: 0 <= k < i ==> s[k] != o
    ensures RemoveFirst(s, o) == s[..i] + s[i + 1..]
  {
    if i > 0 {
      RemoveFirstSplit(s[1..], o, i - 1);
      assert s[1..][..i - 1] == s[1..i];
      assert s[1..][i..] == s[i + 1..];
      assert [s[0]] + s[1..i] == s[..i];
    }
  }

  /** Appending the same object to the list and to the objects built keeps
      every listed object among those built. */
  lemma ListedAppend(objects: seq<SpaceObject>, built: seq<SpaceObject>, o: SpaceObject)
    requires forall k :: 0 <= k < |objects| ==> objects[k] in built
    ensures forall k :: 0 <= k < |objects + [o]| ==> (objects + [o])[k] in built + [o]
  {
    forall k | 0 <= k < |objects + [o]|
      ensures (objects + [o])[k] in built + [o]
    {
      if k < |objects| {
        assert (objects + [o])[k] == objects[k];
      }
    }
  }

  /** The two statics: `objectList`, and `biggestMass`, which the model
      relates to every object constructed so far (`built`). */
  class Registry {
    var objects: seq<SpaceObject>
    var biggest: SpaceObject?
    ghost var built: seq<SpaceObject>

    /** `biggestMass` is null exactly before the first construction and then
        the earliest of the heaviest objects built; every listed object was
        built. */
    ghost predicate Valid()
      reads this
    {
      (biggest == null <==> built == []) &&
      (built != [] ==> biggest == built[HeaviestIndex(Masses(built))]) &&
      forall k :: 0 <= k < |objects| ==> objects[k] in built
    }

    /** The statics' initial values. */
    constructor()
      ensures Valid() && objects == [] && biggest == null && built == []
    {
      objects := [];
      biggest := null;
      built := [];
    }

    /** The destructor's erase loop. It goes on with an iterator that `erase`
        has invalidated, which is undefined; the model keeps the evident
        intent for an object listed once: its entry goes, nothing else
        changes, `biggestMass` included. */
    method Destroy(o: SpaceObject)
      requires Valid() && Count(objects, o) == 1
      modifies this
      ensures Valid()
      ensures objects == RemoveFirst(old(objects), o)
      ensures biggest == old(biggest) && built == old(built)
    {
      assert o in multiset(objects);
      assert o in objects;
      var i := 0;
      while i < |objects| && objects[i] != o
        invariant 0 <= i <= |objects|
        invariant forall k :: 0 <= k < i ==> objects[k] != o
      {
        i := i + 1;
      }
      if i == |objects| {
        assert false;
      }
      RemoveFirstSplit(objects, o, i);
      objects := objects[..i] + objects[i + 1..];
    }
  }

  /** The masses of a list of this module's SpaceObject objects. */
  function Masses(s: seq<SpaceObject>): (r: seq<int>)
    ensures |r| == |s| && forall k :: 0 <= k < |s| ==> r[k] == s[k].mass
  {
    seq(|s|, k requires 0 <= k < |s| => s[k].mass)
  }

  lemma MassesAppend(s: seq<SpaceObject>, o: SpaceObject)
    ensures Masses(s + [o]) == Masses(s) + [o.mass]
  {
  }

  /** What a valid registry promises: after the first construction
      `biggestMass` is set, is at least as heavy as everything built, and is
      strictly heavier than everything built before it. */
  lemma BiggestIsHeaviest(reg: Registry)
    requires reg.Valid() && reg.built != []
    ensures reg.biggest != null
    ensures forall k :: 0 <= k < |reg.built| ==> reg.built[k].mass <= reg.biggest.mass
    ensures forall k :: 0 <= k < HeaviestIndex(Masses(reg.built)) ==> reg.built[k].mass < reg.biggest.mass
  {
    var h := HeaviestIndex(Masses(reg.built));
    assert reg.biggest == reg.built[h];
    assert forall k :: 0 <= k < |reg.built| ==> Masses(reg.built)[k] <= Masses(reg.built)[h];
  }

  class SpaceObject {
    /** Never assigned after construction. */
    const mass: int
    /** Never initialised: the constructor's initialiser list leaves it out. */
    var radius: int
    var x: int
    var y: int
    var z: int
    var vX: int
    var vY: int
    var vZ: int

    function Position(): Point
      reads this
    {
      Point(x, y, z)
    }

    function Velocity(): Point
      reads this
    {
      Point(vX, vY, vZ)
    }

    /** The constructor: stores everything but the radius, appends the new
        object to the list, and takes over `biggestMass` when there is none
        yet or the new object is strictly heavier. */
    constructor(reg: Registry, mass: int, radius: int, posX: int, posY: int, posZ: int, speedX: int, speedY: int, speedZ: int)
      requires reg.Valid()
      modifies reg
      ensures reg.Valid()
      ensures this.mass == mass && Position() == Point(posX, posY, posZ) && Velocity() == Point(speedX, speedY, speedZ)
      ensures reg.objects == old(reg.objects) + [this] && reg.built == old(reg.built) + [this]
      ensures reg.biggest == if old(reg.biggest) == null || mass > old(reg.biggest).mass then this else old(reg.biggest)
    {
      this.mass := mass;
      x := posX;
      y := posY;
      z := posZ;
      vX := speedX;
      vY := speedY;
      vZ := speedZ;
      new;
      ghost var before := reg.built;
      ListedAppend(reg.objects, reg.built, this);
      reg.objects := reg.objects + [this];
      reg.built := reg.built + [this];
      MassesAppend(before, this);
      if before != [] {
        HeaviestAppend(Masses(before), mass);
        assert reg.built[HeaviestIndex(Masses(before))] == before[HeaviestIndex(Masses(before))];
      }
      if reg.biggest == null || this.mass > reg.biggest.mass {
        reg.biggest := this;
      }
    }

    /** `Tick`: one integer step along the velocity; the time is ignored. */
    method Tick(time: real)
      modifies this
      ensures Position() == Add(old(Position()), old(Velocity())) && Velocity() == old(Velocity())
      ensures radius == old(radius)
    {
      x := x + vX;
      y := y + vY;
      z := z + vZ;
    }

    /** The radicand of `DistanceFrom`. */
    function DistanceRadicand(other: SpaceObject): int
      reads this, other
    {
      Radicand(Position(), other.Position())
    }
  }
}
